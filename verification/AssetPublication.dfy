/** Publishing the registry to a player, and recording what the player reports back. */
module AssetPublication {
  import opened Bytes
  import opened Assets
  import opened Protocol
  import opened ManifestStream
  import opened TransportFrame
  import opened ServerTransport
  import AssetRegistry

  datatype SessionState =
    | SessionUnknown | SessionPending | SessionCompatible | SessionSending | SessionComplete | SessionReady | SessionRejected

  datatype AssetDispatchResult = ReportIgnored | ReadyRecorded | ErrorRecorded | OutOfOrder | NotExpected
  datatype ManifestSendResult = Sent | AlreadySent | NotPending | SendFailed

  datatype PlayerAssets = PlayerAssets(
    state: SessionState,
    manifestRevision: u64,
    expected: set<u32>,
    ready: set<u32>,
    failed: map<u32, u16>)

  const PENDING := PlayerAssets(SessionPending, 0, {}, {}, map[])

  type Players = map<u32, PlayerAssets>

  predicate IsPublished(p: PlayerAssets) {
    p.state == SessionComplete || p.state == SessionReady
  }

  predicate IsOpenFor(p: PlayerAssets) {
    p.state == SessionPending || p.state == SessionCompatible
  }

  // One player.

  function Prepared(m: Manifest, state: SessionState): PlayerAssets {
    PlayerAssets(state, m.revision, IdsOf(m.assets), {}, map[])
  }

  function AfterSending(m: Manifest, ok: bool): PlayerAssets {
    Prepared(m, if !ok then SessionRejected else if m.assets == [] then SessionReady else SessionComplete)
  }

  function AfterMessage(p: PlayerAssets, m: Message): (PlayerAssets, AssetDispatchResult) {
    if !IsPublished(p) then (p, OutOfOrder)
    else match m
      case AssetReady(revision, id) =>
        if revision != p.manifestRevision || id !in p.expected then (p, NotExpected)
        else
          var ready := p.ready + {id};
          (p.(failed := p.failed - {id}, ready := ready,
              state := if |ready| == |p.expected| then SessionReady else p.state), ReadyRecorded)
      case AssetError(revision, id, reason) =>
        if revision != p.manifestRevision || id !in p.expected then (p, NotExpected)
        else (p.(ready := p.ready - {id}, failed := p.failed[id := reason], state := SessionComplete), ErrorRecorded)
      case _ => (p, ReportIgnored)
  }

  // All players.

  /** Publishing to a player whose handshake has just succeeded: `m` is what the registry holds now. */
  function Publish(players: Players, t: Line, m: Manifest, playerId: u32): (Players, Line, ManifestSendResult)
    requires |m.assets| <= MAXIMUM_ASSETS_PER_MANIFEST
  {
    if playerId !in players then (players, t, NotPending)
    else if IsPublished(players[playerId]) then (players, t, AlreadySent)
    else if !IsOpenFor(players[playerId]) then (players, t, NotPending)
    else
      var (t', ok) := SendAll(t, playerId, StreamOf(m));
      (players[playerId := AfterSending(m, ok)], t', if ok then Sent else SendFailed)
  }

  function Receive(players: Players, playerId: u32, m: Message): (Players, AssetDispatchResult) {
    if playerId !in players then (players, OutOfOrder)
    else
      var (p, result) := AfterMessage(players[playerId], m);
      (players[playerId := p], result)
  }

  lemma StreamPieces(m: Manifest)
    requires |m.assets| <= MAXIMUM_ASSETS_PER_MANIFEST
    ensures var stream := StreamOf(m);
            && |stream| == |m.assets| + 2
            && stream[0] == ManifestBegin(m.revision, |m.assets|, m.totalDownloadSize)
            && (forall i | 0 <= i < |m.assets| :: stream[i + 1] == ManifestAsset(m.revision, i, m.assets[i]))
            && stream[|m.assets| + 1] == ManifestEnd(m.revision, |m.assets|, m.totalDownloadSize)
  {
    var middle := AssetMessages(m);
    var front := [ManifestBegin(m.revision, |m.assets|, m.totalDownloadSize)] + middle;
    var stream := front + [ManifestEnd(m.revision, |m.assets|, m.totalDownloadSize)];
    assert stream == StreamOf(m);
    forall i | 0 <= i < |m.assets|
      ensures stream[i + 1] == ManifestAsset(m.revision, i, m.assets[i])
    {
      assert stream[i + 1] == front[i + 1] == middle[i];
    }
  }

  /** The state an entry passes through while sending leaves no trace. */
  lemma Overwritten(players: Players, playerId: u32, m: Manifest)
    ensures var sending := players[playerId := Prepared(m, SessionSending)];
            && sending[playerId := Prepared(m, SessionRejected)] == players[playerId := AfterSending(m, false)]
            && sending[playerId := Prepared(m, if m.assets == [] then SessionReady else SessionComplete)]
               == players[playerId := AfterSending(m, true)]
  {
    hide IdsOf;
  }

  lemma SendAllStep(t: Line, playerId: u32, ms: seq<Message>)
    requires ms != []
    ensures var (t', ok) := SendMessage(t, playerId, ms[0]);
            && (!ok ==> SendAll(t, playerId, ms) == (t', false))
            && (ok ==> SendAll(t, playerId, ms) == SendAll(t', playerId, ms[1..]))
            && (ok && |ms| == 1 ==> SendAll(t, playerId, ms) == (t', true))
  {
    hide SendMessage;
  }

  // Publication refines direct delivery.

  lemma StreamEncodable(m: Manifest)
    requires IsManifest(m)
    ensures forall x | x in StreamOf(m) :: IsEncodable(x)
  {
    hide IsDescriptionValid, DistinctIds, DistinctNames;
    forall x | x in StreamOf(m)
      ensures IsEncodable(x)
    {
      if x.ManifestAsset? {
        var i :| 0 <= i < |m.assets| && x == ManifestAsset(m.revision, i, m.assets[i]);
        assert m.assets[i] in m.assets;
      }
    }
  }

  lemma StreamIsManifest(m: Manifest)
    requires |m.assets| <= MAXIMUM_ASSETS_PER_MANIFEST
    ensures |StreamOf(m)| == |m.assets| + 2
    ensures forall x | x in StreamOf(m) :: IsManifestMessage(x)
  {}

  /** On manifest messages alone the receiver's answer is read off the stream they make. */
  lemma AnswerTo(s: seq<Message>, x: Message)
    requires forall y | y in s + [x] :: IsManifestMessage(y)
    ensures var result := HandleMessage(ReceiverAfter(s), x).1;
            (result == Accepted <==> IsOpen(s + [x])) && (result == Completed <==> IsClosed(s + [x]))
  {
    hide IsOpen, IsClosed, HandleMessage, ReceiverAfter, Describes, IsManifestMessage, ManifestMessages;
    assert forall y | y in s :: y in s + [x];
    assert x in s + [x];
    OnlyManifestMessages(s);
    RunDescribed(s);
    StepDescribed(ReceiverAfter(s), s, x);
  }

  /** A fresh receiver accepts a published stream message by message, and completes on the last. */
  lemma StreamAnswers(m: Manifest, i: nat)
    requires IsManifest(m) && i < |StreamOf(m)|
    ensures var stream := StreamOf(m);
            HandleMessage(ReceiverAfter(stream[..i]), stream[i]).1 == if i == |stream| - 1 then Completed else Accepted
  {
    ManifestSize(m);
    StreamIsManifest(m);
    hide IsOpen, IsClosed, HandleMessage, ReceiverAfter, IsManifest, StreamOf, ManifestIn, AssetsIn, IsManifestMessage;
    var stream := StreamOf(m);
    assert stream[..i] + [stream[i]] == stream[..i + 1];
    assert forall y | y in stream[..i + 1] :: y in stream;
    AnswerTo(stream[..i], stream[i]);
    if i == |stream| - 1 {
      StreamCloses(m);
      assert stream[..i + 1] == stream;
    } else {
      AssetsOfMessages(m, i);
    }
  }

  /** Publishing through frames is handing the manifest over: the frames put to the player carry the stream of the
      registry's manifest and nothing else, nobody else is told anything, only the transport can make it fail, and
      a fresh receiver fed what is heard accepts every message, completes on the last, and holds the manifest. */
  lemma PublicationDelivers(players: Players, t: Line, r: AssetRegistry.Registry, playerId: u32, q: u32)
    requires AssetRegistry.Inv(r) && playerId in players && IsOpenFor(players[playerId])
    ensures var m := AssetRegistry.BuildManifest(r);
            && IsManifest(m)
            && var ((players', t', result), stream) := (Publish(players, t, m, playerId), StreamOf(m));
            && players' == players[playerId := AfterSending(m, result == Sent)]
            && TalkTo(t'.attempts, q) == TalkTo(t.attempts, q) + (if q == playerId then Spoken(stream, t.answers) else [])
            && result == (if Takes(t.answers, |stream|) then Sent else SendFailed)
            && (result == Sent ==> Heard(Spoken(stream, t.answers)) == stream)
            && (result != Sent ==> Heard(Spoken(stream, t.answers)) < stream)
    ensures var m := AssetRegistry.BuildManifest(r);
            var stream := StreamOf(m);
            && (forall i | 0 <= i < |stream| ::
                  HandleMessage(ReceiverAfter(stream[..i]), stream[i]).1 == if i == |stream| - 1 then Completed else Accepted)
            && ReceiverAfter(stream).completed == Some(m)
  {
    hide AssetRegistry.Inv, AssetRegistry.BuildManifest, IsManifest, IsEncodable, SendAll, TalkTo, Spoken, HandleMessage,
         Takes, IdsOf, StreamOf;
    AssetRegistry.ManifestOfRegistry(r);
    var m := AssetRegistry.BuildManifest(r);
    assert |m.assets| <= MAXIMUM_ASSETS_PER_MANIFEST by {
      ManifestSize(m);
    }
    var stream := StreamOf(m);
    StreamEncodable(m);
    SendAllTalk(t, playerId, stream, q);
    SpokenShape(stream, t.answers);
    forall i | 0 <= i < |stream|
      ensures HandleMessage(ReceiverAfter(stream[..i]), stream[i]).1 == if i == |stream| - 1 then Completed else Accepted
    {
      StreamAnswers(m, i);
    }
    ReceiverHolds(m);
  }

  lemma ReceiverHolds(m: Manifest)
    requires IsManifest(m)
    ensures ReceiverAfter(StreamOf(m)).completed == Some(m)
  {
    hide IsOpen, IsClosed, HandleMessage, IsManifest;
    ManifestSize(m);
    var stream := StreamOf(m);
    var last := |stream| - 1;
    OnlyManifestMessages(stream[..last]);
    assert stream[..last] + [stream[last]] == stream;
    CompletesExactlyOnStreams(stream[..last], stream[last]);
  }

  // Reports.

  datatype Report = NoReport | ReadyReport | ErrorReport(reason: u16)

  /** The last thing a player said about an asset of a revision. */
  function LastReport(revision: u64, id: u32, ms: seq<Message>): Report {
    if ms == [] then NoReport
    else
      var last := ms[|ms| - 1];
      if last == AssetReady(revision, id) then ReadyReport
      else if last.AssetError? && last.manifestRevision == revision && last.assetId == id then ErrorReport(last.reason)
      else LastReport(revision, id, ms[..|ms| - 1])
  }

  function AfterMessages(p: PlayerAssets, ms: seq<Message>): PlayerAssets {
    if ms == [] then p else AfterMessage(AfterMessages(p, ms[..|ms| - 1]), ms[|ms| - 1]).0
  }

  lemma SameSizeSubset(a: set<u32>, b: set<u32>)
    requires a <= b
    ensures |a| == |b| <==> a == b
  {
    assert b == a + (b - a);
  }

  /** What the record of a player says after `ms`. */
  ghost predicate Reflects(p: PlayerAssets, m: Manifest, ms: seq<Message>) {
    && IsPublished(p)
    && p.manifestRevision == m.revision && p.expected == IdsOf(m.assets)
    && p.ready <= p.expected && p.failed.Keys <= p.expected
    && (forall id | id in p.expected :: Standing(p, id) == LastReport(m.revision, id, ms))
    && (p.state == SessionReady <==> p.ready == p.expected)
    && p.ready !! p.failed.Keys
  }

  function Standing(p: PlayerAssets, id: u32): Report {
    if id in p.ready then ReadyReport else if id in p.failed then ErrorReport(p.failed[id]) else NoReport
  }

  lemma ReflectsStep(p: PlayerAssets, m: Manifest, ms: seq<Message>, x: Message)
    requires Reflects(p, m, ms)
    ensures Reflects(AfterMessage(p, x).0, m, ms + [x])
  {
    hide IdsOf, LastReport, Standing;
    var p' := AfterMessage(p, x).0;
    SameSizeSubset(p'.ready, p'.expected);
    forall id | id in p.expected
      ensures Standing(p', id) == LastReport(m.revision, id, ms + [x])
    {
      StandingStep(p, m, ms, x, id);
    }
  }

  lemma StandingStep(p: PlayerAssets, m: Manifest, ms: seq<Message>, x: Message, id: u32)
    requires IsPublished(p) && p.manifestRevision == m.revision && id in p.expected && p.ready !! p.failed.Keys
    requires Standing(p, id) == LastReport(m.revision, id, ms)
    ensures Standing(AfterMessage(p, x).0, id) == LastReport(m.revision, id, ms + [x])
  {
    assert (ms + [x])[..|ms|] == ms;
  }

  /** Last report wins: whatever a player says after its manifest was sent, its ready assets are exactly the
      expected ones it last called ready, its failed assets exactly those it last called failed, with that reason,
      and its session is ready exactly when every expected asset is. */
  lemma {:induction false} LastReportWins(m: Manifest, ms: seq<Message>)
    ensures var p := AfterMessages(AfterSending(m, true), ms);
            && p.manifestRevision == m.revision && p.expected == IdsOf(m.assets)
            && p.ready == (set id | id in p.expected && LastReport(m.revision, id, ms) == ReadyReport)
            && p.failed == (map id | id in p.expected && LastReport(m.revision, id, ms).ErrorReport? ::
                              LastReport(m.revision, id, ms).reason)
            && IsPublished(p)
            && (p.state == SessionReady <==> p.ready == p.expected)
  {
    hide IdsOf, AfterMessage;
    ReflectsRun(m, ms);
    var p := AfterMessages(AfterSending(m, true), ms);
    assert forall id | id in p.expected :: Standing(p, id) == LastReport(m.revision, id, ms);
  }

  lemma {:induction false} ReflectsRun(m: Manifest, ms: seq<Message>)
    ensures Reflects(AfterMessages(AfterSending(m, true), ms), m, ms)
  {
    hide IdsOf, AfterMessage;
    if ms == [] {
      NoAssetsNoIds(m.assets);
    } else {
      ReflectsRun(m, ms[..|ms| - 1]);
      ReflectsStep(AfterMessages(AfterSending(m, true), ms[..|ms| - 1]), m, ms[..|ms| - 1], ms[|ms| - 1]);
      assert ms[..|ms| - 1] + [ms[|ms| - 1]] == ms;
    }
  }

  /** What each message is taken for after a publication and any reports: a report counts exactly when it names the
      published revision and one of its assets, any other report is not expected, and nothing is out of order any more. */
  lemma ReportsTaken(m: Manifest, ms: seq<Message>, x: Message)
    ensures var p := AfterMessages(AfterSending(m, true), ms);
            var (p', result) := AfterMessage(p, x);
            var fits := (x.AssetReady? || x.AssetError?) && x.manifestRevision == m.revision
                        && exists asset | asset in m.assets :: asset.assetId == x.assetId;
            && (result == ReadyRecorded <==> x.AssetReady? && fits)
            && (result == ErrorRecorded <==> x.AssetError? && fits)
            && (result == NotExpected <==> (x.AssetReady? || x.AssetError?) && !fits)
            && (result == ReportIgnored <==> !x.AssetReady? && !x.AssetError?)
            && (!fits ==> p' == p)
  {
    hide LastReport, AfterMessages, AfterSending;
    LastReportWins(m, ms);
    assert x.AssetReady? || x.AssetError? ==>
      (x.assetId in IdsOf(m.assets) <==> exists asset | asset in m.assets :: asset.assetId == x.assetId);
  }

  /** Before a publication and after a failed one everything a player says about assets is out of order; and publishing is
      refused to everybody but a player that waits for it, with the answer that says why. */
  lemma OutOfTurn(players: Players, t: Line, m: Manifest, playerId: u32, x: Message)
    requires |m.assets| <= MAXIMUM_ASSETS_PER_MANIFEST
    ensures var state := if playerId in players then players[playerId].state else SessionUnknown;
            var (players', t', sent) := Publish(players, t, m, playerId);
            && (Receive(players, playerId, x).1 == OutOfOrder <==> state != SessionComplete && state != SessionReady)
            && (Receive(players, playerId, x).1 == OutOfOrder ==> Receive(players, playerId, x).0 == players)
            && (sent == AlreadySent <==> state == SessionComplete || state == SessionReady)
            && (sent == NotPending <==> state == SessionUnknown || state == SessionSending || state == SessionRejected)
            && (sent == AlreadySent || sent == NotPending ==> players' == players && t' == t)
  {
    hide SendAll, StreamOf, AfterSending;
  }

  lemma NoAssetsNoIds(assets: seq<AssetDescription>)
    ensures IdsOf(assets) == {} <==> assets == []
  {
    if assets != [] {
      assert assets[0] in assets && assets[0].assetId in IdsOf(assets);
    }
  }

  // The object.

  class AssetPublication {
    const registry: AssetRegistry.AssetRegistry
    const transport: ServerTransport
    var players: Players

    constructor (registry: AssetRegistry.AssetRegistry, transport: ServerTransport)
      ensures players == map[] && this.registry == registry && this.transport == transport
    {
      this.registry, this.transport, players := registry, transport, map[];
    }

    method OnPlayerConnected(playerId: u32)
      modifies this
      ensures players == old(players)[playerId := PENDING]
    {
      players := players[playerId := PENDING];
    }

    method OnPlayerDisconnected(playerId: u32)
      modifies this
      ensures players == old(players) - {playerId}
    {
      players := players - {playerId};
    }

    method Reset()
      modifies this
      ensures players == map[]
    {
      players := map[];
    }

    method OnPlayerCompatible(playerId: u32) returns (result: ManifestSendResult)
      requires registry.Valid()
      modifies this, transport
      ensures |registry.assets| <= MAXIMUM_ASSETS_PER_MANIFEST && |AssetRegistry.Sorted(registry.assets)| == |registry.assets|
      ensures (players, transport.View(), result) ==
              Publish(old(players), old(transport.View()), AssetRegistry.BuildManifest(registry.View()), playerId)
    {
      hide SendMessage, SendAll, StreamOf, AssetRegistry.Sorted, Prepared, AfterSending, AssetRegistry.Inv;
      AssetRegistry.PublishedSize(registry.View());
      if playerId !in players {
        return NotPending;
      }
      if players[playerId].state == SessionComplete || players[playerId].state == SessionReady {
        return AlreadySent;
      }
      if players[playerId].state != SessionPending && players[playerId].state != SessionCompatible {
        return NotPending;
      }
      var manifest := registry.BuildManifest();
      ghost var stream := StreamOf(manifest);
      ghost var start := transport.View();
      StreamPieces(manifest);
      SendAllStep(start, playerId, stream);
      Overwritten(players, playerId, manifest);
      players := players[playerId := Prepared(manifest, SessionSending)];
      var ok := Say(playerId, ManifestBegin(manifest.revision, |manifest.assets|, manifest.totalDownloadSize));
      if !ok {
        players := players[playerId := Prepared(manifest, SessionRejected)];
        return SendFailed;
      }
      for i := 0 to |manifest.assets|
        invariant SendAll(start, playerId, stream) == SendAll(transport.View(), playerId, stream[i + 1..])
        invariant players == old(players)[playerId := Prepared(manifest, SessionSending)]
      {
        SendAllStep(transport.View(), playerId, stream[i + 1..]);
        assert stream[i + 1..][1..] == stream[i + 2..];
        ok := Say(playerId, ManifestAsset(manifest.revision, i, manifest.assets[i]));
        if !ok {
          players := players[playerId := Prepared(manifest, SessionRejected)];
          return SendFailed;
        }
      }
      SendAllStep(transport.View(), playerId, stream[|manifest.assets| + 1..]);
      ok := Say(playerId, ManifestEnd(manifest.revision, |manifest.assets|, manifest.totalDownloadSize));
      if !ok {
        players := players[playerId := Prepared(manifest, SessionRejected)];
        return SendFailed;
      }
      players := players[playerId := Prepared(manifest, if manifest.assets == [] then SessionReady else SessionComplete)];
      return Sent;
    }

    method HandleIncoming(playerId: u32, message: Message) returns (result: AssetDispatchResult)
      modifies this
      ensures (players, result) == Receive(old(players), playerId, message)
    {
      if playerId !in players {
        return OutOfOrder;
      }
      var p := players[playerId];
      assert players[playerId := p] == players;
      if p.state != SessionComplete && p.state != SessionReady {
        return OutOfOrder;
      }
      if message.AssetReady? {
        if message.manifestRevision != p.manifestRevision || message.assetId !in p.expected {
          return NotExpected;
        }
        p := p.(failed := p.failed - {message.assetId}, ready := p.ready + {message.assetId});
        if |p.ready| == |p.expected| {
          p := p.(state := SessionReady);
        }
        players := players[playerId := p];
        return ReadyRecorded;
      }
      if message.AssetError? {
        if message.manifestRevision != p.manifestRevision || message.assetId !in p.expected {
          return NotExpected;
        }
        p := p.(ready := p.ready - {message.assetId}, failed := p.failed[message.assetId := message.reason]);
        p := p.(state := SessionComplete);
        players := players[playerId := p];
        return ErrorRecorded;
      }
      return ReportIgnored;
    }

    method Say(playerId: u32, m: Message) returns (ok: bool)
      modifies transport
      ensures (transport.View(), ok) == SendMessage(old(transport.View()), playerId, m)
    {
      var frame := Wire(m);
      if frame == None {
        return false;
      }
      ok := transport.Send(playerId, frame.value);
    }
  }
}
