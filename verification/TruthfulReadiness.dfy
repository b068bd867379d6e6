/** The server's picture of a player is true: an asset it holds ready was verified on the player's disk, in this
    connection, against what was registered for it when the manifest was published. */
module TruthfulReadiness {
  import opened Bytes
  import opened Assets
  import opened Protocol
  import opened ProtocolExactness
  import opened ManifestStream
  import opened TransportFrame
  import opened ServerTransport
  import opened ServerComponent
  import opened PublicationGate
  import opened AssetCache
  import opened AssetManager
  import opened AssetEngine
  import opened GenerationFence
  import opened ClientRuntime
  import opened EndToEnd
  import S = AssetSession
  import T = AssetTruth
  import CH = ClientHandshake
  import PC = PlayerCapabilities
  import HE = HandshakeEndpoint
  import AP = AssetPublication
  import AR = AssetRegistry

  // What travels down.

  /** The manifest published in this connection. */
  ghost function Told(source: Option<AR.Registry>): Option<Manifest> {
    match source case None => None case Some(r) => Some(AR.BuildManifest(r))
  }

  /** A message that belongs to the published stream. */
  ghost predicate IsTold(told: Option<Manifest>, m: Message) {
    && told.Some? && |told.value.assets| <= MAXIMUM_ASSETS_PER_MANIFEST
    && m in StreamOf(told.value)
  }

  ghost predicate MessageTold(told: Option<Manifest>, m: Message) {
    IsManifestMessage(m) ==> IsTold(told, m)
  }

  ghost predicate FrameTold(told: Option<Manifest>, frame: seq<byte>) {
    match Deliver(frame) case None => true case Some(m) => MessageTold(told, m)
  }

  ghost predicate DownInv(told: Option<Manifest>, down: seq<seq<byte>>) {
    forall frame | frame in down :: FrameTold(told, frame)
  }

  // What travels up.

  /** The client recorded this asset of the published manifest as ready in this connection, with the file to prove it. */
  ghost predicate Vouched(hash: Hash, e: Engine, told: Option<Manifest>, revision: u64, id: u32) {
    && told.Some? && told.value.revision == revision
    && exists r ::
         && r in e.readyLog && r.stamp == e.stamp && r.revision == revision
         && r.asset in told.value.assets && r.asset.assetId == id
         && r.file.Some? && Matches(hash, r.file.value, r.asset)
  }

  predicate IsHelloFrame(frame: seq<byte>) {
    Deliver(frame).Some? && Deliver(frame).value.Hello?
  }

  predicate NoHello(frames: seq<seq<byte>>) {
    forall frame | frame in frames :: !IsHelloFrame(frame)
  }

  ghost predicate ReadyFrameOk(hash: Hash, e: Engine, told: Option<Manifest>, earlier: seq<seq<byte>>, frame: seq<byte>) {
    match Deliver(frame)
    case None => true
    case Some(m) =>
      m.AssetReady? ==> Vouched(hash, e, told, m.manifestRevision, m.assetId) || (told == None && NoHello(earlier))
  }

  predicate IsCarried(frame: seq<byte>) {
    frame != [] && frame[0] == RAKNET_PACKET_ID
  }

  /** Every readiness report on its way is vouched for, or will be met by a server that has published nothing. */
  ghost predicate UpInv(hash: Hash, e: Engine, told: Option<Manifest>, frames: seq<seq<byte>>) {
    && (forall i | 0 <= i < |frames| :: ReadyFrameOk(hash, e, told, frames[..i], frames[i]))
    && (forall frame | frame in frames :: IsCarried(frame))
  }

  ghost predicate ReportsInv(hash: Hash, e: Engine, told: Option<Manifest>, reports: seq<Message>) {
    forall m | m in reports && m.AssetReady? :: Vouched(hash, e, told, m.manifestRevision, m.assetId)
  }

  lemma UpAppend(hash: Hash, e: Engine, told: Option<Manifest>, frames: seq<seq<byte>>, frame: seq<byte>)
    requires UpInv(hash, e, told, frames) && ReadyFrameOk(hash, e, told, frames, frame) && IsCarried(frame)
    ensures UpInv(hash, e, told, frames + [frame])
  {
    hide ReadyFrameOk, IsCarried;
    var all := frames + [frame];
    forall i | 0 <= i < |all|
      ensures ReadyFrameOk(hash, e, told, all[..i], all[i])
    {
      assert all[..i] == frames[..i];
    }
  }

  /** The first frame is taken off. */
  lemma UpShift(hash: Hash, e: Engine, told: Option<Manifest>, frames: seq<seq<byte>>)
    requires UpInv(hash, e, told, frames) && frames != []
    ensures UpInv(hash, e, told, frames[1..])
    ensures IsCarried(frames[0]) && ReadyFrameOk(hash, e, told, [], frames[0])
    ensures IsHelloFrame(frames[0]) ==> forall m: Manifest | told == None :: UpInv(hash, e, Some(m), frames[1..])
  {
    hide Deliver, Vouched, IsCarried, IsHelloFrame;
    var rest := frames[1..];
    assert frames[..0] == [];
    forall i | 0 <= i < |rest|
      ensures ReadyFrameOk(hash, e, told, rest[..i], rest[i])
      ensures IsHelloFrame(frames[0]) && told == None ==> forall m: Manifest :: ReadyFrameOk(hash, e, Some(m), rest[..i], rest[i])
    {
      assert ReadyFrameOk(hash, e, told, frames[..i + 1], frames[i + 1]);
      assert frames[..i + 1] == [frames[0]] + rest[..i];
      assert frames[0] in frames[..i + 1];
      NotVouched(hash, e);
    }
  }

  lemma NotVouched(hash: Hash, e: Engine)
    ensures forall revision, id :: !Vouched(hash, e, None, revision, id)
  {}

  /** Vouchers stay good while the connection lasts and the log only grows. */
  lemma StillVouched(hash: Hash, e: Engine, e': Engine, told: Option<Manifest>, revision: u64, id: u32)
    requires Vouched(hash, e, told, revision, id)
    requires e'.stamp == e.stamp && e.readyLog <= e'.readyLog
    ensures Vouched(hash, e', told, revision, id)
  {
    hide Matches;
  }

  lemma UpStays(hash: Hash, e: Engine, e': Engine, told: Option<Manifest>, frames: seq<seq<byte>>, reports: seq<Message>)
    requires UpInv(hash, e, told, frames)
    requires e'.stamp == e.stamp && e.readyLog <= e'.readyLog
    ensures UpInv(hash, e', told, frames)
    ensures ReportsInv(hash, e, told, reports) ==> ReportsInv(hash, e', told, reports)
  {
    hide Deliver, Vouched, IsCarried, IsHelloFrame;
    forall i | 0 <= i < |frames|
      ensures ReadyFrameOk(hash, e', told, frames[..i], frames[i])
    {
      assert ReadyFrameOk(hash, e, told, frames[..i], frames[i]);
      if Deliver(frames[i]).Some? && Deliver(frames[i]).value.AssetReady? {
        var m := Deliver(frames[i]).value;
        if Vouched(hash, e, told, m.manifestRevision, m.assetId) {
          StillVouched(hash, e, e', told, m.manifestRevision, m.assetId);
        }
      }
    }
    if ReportsInv(hash, e, told, reports) {
      forall m | m in reports && m.AssetReady?
        ensures Vouched(hash, e', told, m.manifestRevision, m.assetId)
      {
        StillVouched(hash, e, e', told, m.manifestRevision, m.assetId);
      }
    }
  }

  // Frames the client sends.

  lemma SentFrame(out: Outbox, m: Message)
    ensures var frames := SendReport(out, m).frames;
            frames == out.frames || (Wire(m).Some? && frames == out.frames + [Wire(m).value] && IsCarried(Wire(m).value)
                                     && Deliver(Wire(m).value) == Some(m))
  {
    hide EncodePacket, Deliver, HasProtocolMagic, IsEncodable;
    if Wire(m).Some? {
      WireExactness(m, Wire(m).value);
    }
  }

  lemma SentReport(hash: Hash, e: Engine, told: Option<Manifest>, out: Outbox, m: Message)
    requires UpInv(hash, e, told, out.frames) && !m.Hello?
    requires m.AssetReady? ==>
               Vouched(hash, e, told, m.manifestRevision, m.assetId) || (told == None && NoHello(out.frames))
    ensures UpInv(hash, e, told, SendReport(out, m).frames)
    ensures NoHello(out.frames) ==> NoHello(SendReport(out, m).frames)
  {
    hide Wire, Deliver, SendReport, Vouched, UpInv, IsCarried;
    SentFrame(out, m);
    if SendReport(out, m).frames != out.frames {
      UpAppend(hash, e, told, out.frames, Wire(m).value);
    }
  }

  lemma {:induction false} SentReports(hash: Hash, e: Engine, told: Option<Manifest>, out: Outbox, events: seq<Event>)
    requires UpInv(hash, e, told, out.frames)
    requires forall event | event in events && event.kind == ReadyEvent ::
               Vouched(hash, e, told, event.manifestRevision, event.assetId) || (told == None && NoHello(out.frames))
    ensures UpInv(hash, e, told, SendReports(out, events).frames)
    ensures NoHello(out.frames) ==> NoHello(SendReports(out, events).frames)
  {
    hide SendReport, UpInv, Vouched, NoHello;
    if events != [] {
      var last := events[|events| - 1];
      var before := SendReports(out, events[..|events| - 1]);
      SentReports(hash, e, told, out, events[..|events| - 1]);
      if ReportOf(last).Some? {
        assert last in events;
        SentReport(hash, e, told, before, ReportOf(last).value);
      }
    }
  }

  // What the client has heard.

  ghost predicate HeardTold(told: Option<Manifest>, heard: seq<Message>) {
    forall m | m in heard :: MessageTold(told, m)
  }

  lemma {:induction false} ManifestMessagesIn(ms: seq<Message>)
    ensures forall m | m in ManifestMessages(ms) :: m in ms && IsManifestMessage(m)
  {
    if ms != [] {
      ManifestMessagesIn(ms[..|ms| - 1]);
    }
  }

  /** A receiver that has only heard pieces of one published stream can only have completed with its manifest. */
  lemma CompletedIsTold(told: Option<Manifest>, heard: seq<Message>)
    requires HeardTold(told, heard)
    ensures var completed := ReceiverAfter(heard).completed; completed.Some? ==> told == completed
  {
    hide IsOpen, IsClosed, HandleMessage, ReceiverAfter, ManifestMessages, StreamOf;
    var s := ManifestMessages(heard);
    var completed := ReceiverAfter(heard).completed;
    RunDescribed(heard);
    ManifestMessagesIn(heard);
    if completed.Some? {
      var k := ClosedPrefix(ReceiverAfter(heard), s);
      var m := completed.value;
      ManifestSize(m);
      forall x | x in StreamOf(m)
        ensures IsTold(told, x)
      {
        assert x in s[..k] && x in s;
        assert MessageTold(told, x);
      }
      OneStream(m, told);
    }
  }

  lemma ClosedPrefix(r: Receiver, s: seq<Message>) returns (k: nat)
    requires Describes(r, s) && r.completed.Some?
    ensures k <= |s| && IsManifest(r.completed.value) && s[..k] == StreamOf(r.completed.value)
  {
    hide IsOpen, IsClosed, IsManifest;
    assert s[..|s|] == s;
    k :| 0 <= k <= |s| && IsClosed(s[..k]) && (s[..k] != [] && s[..k][0].ManifestBegin? ==> r.completed.value == ManifestIn(s[..k]));
    ClosedManifest(s[..k]);
    ClosedBegins(s[..k]);
  }

  lemma ClosedBegins(s: seq<Message>)
    requires IsClosed(s)
    ensures s != [] && s[0].ManifestBegin?
  {}

  lemma OneStream(m: Manifest, told: Option<Manifest>)
    requires |m.assets| <= MAXIMUM_ASSETS_PER_MANIFEST
    requires forall x | x in StreamOf(m) :: IsTold(told, x)
    ensures told == Some(m)
  {
    hide IsTold;
    AP.StreamPieces(m);
    var stream := StreamOf(m);
    assert stream[0] in stream;
    ToldBegin(told, stream[0]);
    var t := told.value;
    forall i | 0 <= i < |m.assets|
      ensures m.assets[i] == t.assets[i]
    {
      assert stream[i + 1] in stream;
      ToldAsset(told, stream[i + 1]);
    }
    assert m.assets == t.assets;
  }

  lemma ToldBegin(told: Option<Manifest>, x: Message)
    requires IsTold(told, x) && x.ManifestBegin?
    ensures told.Some?
    ensures var m := told.value;
            x == ManifestBegin(m.revision, |m.assets|, m.totalDownloadSize)
  {}

  lemma ToldAsset(told: Option<Manifest>, x: Message)
    requires IsTold(told, x) && x.ManifestAsset?
    ensures told.Some?
    ensures x.assetIndex < |told.value.assets| && x.asset == told.value.assets[x.assetIndex]
  {}

  // What the server puts on the wire.

  lemma {:induction false} TalkHas(attempts: seq<Attempt>, n: nat, i: nat, player: u32, m: Message)
    requires n <= i < |attempts| && attempts[i].playerId == player && Deliver(attempts[i].frame) == Some(m)
    ensures |TalkTo(attempts[..n], player)| <= |TalkTo(attempts, player)|
    ensures Said(m, attempts[i].ok) in TalkTo(attempts, player)[|TalkTo(attempts[..n], player)|..]
  {
    hide Deliver;
    var init := attempts[..|attempts| - 1];
    assert init[..n] == attempts[..n];
    TalkGrows(init, n, player);
    var (k, earlier, all) := (|TalkTo(attempts[..n], player)|, TalkTo(init, player), TalkTo(attempts, player));
    assert all[k..] == earlier[k..] + all[|earlier|..];
    if i < |init| {
      TalkHas(init, n, i, player, m);
    }
  }

  lemma {:induction false} TalkGrows(attempts: seq<Attempt>, n: nat, player: u32)
    requires n <= |attempts|
    ensures |TalkTo(attempts[..n], player)| <= |TalkTo(attempts, player)|
  {
    hide Deliver;
    if n == |attempts| {
      assert attempts[..n] == attempts;
    } else {
      var init := attempts[..|attempts| - 1];
      TalkGrows(init, n, player);
      assert init[..n] == attempts[..n];
    }
  }

  lemma {:induction false} ManifestTalkHas(talk: seq<Said>, s: Said)
    requires s in talk && IsManifestMessage(s.message)
    ensures s in ManifestTalk(talk)
  {
    var last := talk[|talk| - 1];
    if s != last {
      assert talk == talk[..|talk| - 1] + [last];
      ManifestTalkHas(talk[..|talk| - 1], s);
    }
  }

  lemma {:induction false} NewFramesFrom(before: seq<Attempt>, after: seq<Attempt>, player: u32, frame: seq<byte>)
    requires frame in NewFrames(before, after, player)
    ensures exists i :: |before| <= i < |after| && after[i].playerId == player && after[i].frame == frame
    decreases |after|
  {
    var last := after[|after| - 1];
    if !(last.playerId == player && last.frame == frame) {
      var init := after[..|after| - 1];
      NewFramesFrom(before, init, player, frame);
      var i :| |before| <= i < |init| && init[i].playerId == player && init[i].frame == frame;
      assert after[i] == init[i];
    }
  }

  predicate Extends(before: seq<Attempt>, after: seq<Attempt>) {
    |before| <= |after| && after[..|before|] == before
  }

  lemma {:induction false} SendAllExtends(t: Line, playerId: u32, ms: seq<Message>)
    ensures Extends(t.attempts, SendAll(t, playerId, ms).0.attempts)
    decreases ms
  {
    hide Wire;
    if ms != [] {
      SendExtends(t, playerId, ms[0]);
      var (t1, ok) := SendMessage(t, playerId, ms[0]);
      if ok {
        SendAllExtends(t1, playerId, ms[1..]);
        var after := SendAll(t1, playerId, ms[1..]).0.attempts;
        assert after[..|t.attempts|] == after[..|t1.attempts|][..|t.attempts|];
      }
    }
  }

  lemma SendExtends(t: Line, playerId: u32, m: Message)
    ensures Extends(t.attempts, SendMessage(t, playerId, m).0.attempts)
  {
    hide Wire;
  }

  lemma DispatchExtends(policy: PC.HandshakePolicy, players: PC.Players, t: Line, playerId: u32, bytes: seq<byte>)
    ensures Extends(t.attempts, HE.DispatchPayload(policy, players, t, playerId, bytes).line.attempts)
  {
    hide Wire, DecodePacket, PC.Hear, Extends, SendMessage;
    ExtendsSelf(t.attempts);
    SendExtends(t, playerId, Reject(MALFORMED_HANDSHAKE));
    SendExtends(t, playerId, Reject(UNSUPPORTED_PROTOCOL));
    if DecodePacket(bytes).Decoded? && DecodePacket(bytes).message.Hello? {
      SendExtends(t, playerId, PC.Hear(policy, players, playerId, DecodePacket(bytes).message).1);
    }
  }

  lemma ExtendsSelf(a: seq<Attempt>)
    ensures Extends(a, a)
  {}

  lemma ExtendsOn(a: seq<Attempt>, b: seq<Attempt>, c: seq<Attempt>)
    requires Extends(a, b) && Extends(b, c)
    ensures Extends(a, c)
  {
    assert c[..|a|] == c[..|b|][..|a|];
  }

  /** The server only adds to what it has put on the wire. */
  lemma StepExtends(policy: PC.HandshakePolicy, s: Core, event: ServerEvent)
    requires AR.Inv(s.registry)
    ensures Extends(s.line.attempts, CoreStep(policy, s, event).line.attempts)
  {
    hide AR.Inv, Extends, HE.DispatchPayload, SendAll, StreamOf, VerdictOf, AR.BuildManifest, SendMessage, AP.Receive, AR.Apply;
    ExtendsSelf(s.line.attempts);
    if event.Sends? {
      var p := event.player;
      if VerdictOf(p, event.stream) != NotOurs {
        SenderIsPlayer(p, event.stream);
      }
      match VerdictOf(p, event.stream) {
        case NotOurs =>
        case Undecodable =>
        case OtherInput(_) =>
        case Misshapen => SendExtends(s.line, p, Reject(MALFORMED_HANDSHAKE));
        case HelloInput(_) =>
          AR.PublishedSize(s.registry);
          DispatchExtends(policy, s.tracker, s.line, p, event.stream.unread);
          var o := HE.DispatchPayload(policy, s.tracker, s.line, p, event.stream.unread);
          var m := AR.BuildManifest(s.registry);
          BuildSize(s.registry);
          SendAllExtends(o.line, p, StreamOf(m));
          ExtendsOn(s.line.attempts, o.line.attempts, SendAll(o.line, p, StreamOf(m)).0.attempts);
      }
    }
  }

  lemma BuildSize(r: AR.Registry)
    requires AR.Inv(r)
    ensures |AR.BuildManifest(r).assets| <= MAXIMUM_ASSETS_PER_MANIFEST
  {
    hide AR.Inv;
    AR.PublishedSize(r);
  }

  /** Every manifest message among the frames a step adds for the player belongs to the stream published in this
      connection. */
  lemma NewFramesTold(policy: PC.HandshakePolicy, w: Watch, event: ServerEvent)
    requires GateInv(policy, w) && !EndsConnection(w, event)
    ensures var w' := WatchStep(policy, w, event);
            var told := (match w'.published case None => None case Some(x) => Some(x.manifest));
            DownInv(told, NewFrames(w.core.line.attempts, w'.core.line.attempts, w.player))
  {
    hide GateInv, Deliver, TalkTo, ManifestTalk, Spoken, StreamOf, IsManifest, NewFrames, CoreStep, PublishedAfter, IsManifestMessage;
    GateRegistry(policy, w);
    EventKeeps(policy, w, event);
    var w' := WatchStep(policy, w, event);
    var (before, after) := (w.core.line.attempts, w'.core.line.attempts);
    StepExtends(policy, w.core, event);
    var told := match w'.published case None => None case Some(x) => Some(x.manifest);
    forall frame | frame in NewFrames(before, after, w.player)
      ensures FrameTold(told, frame)
    {
      if Deliver(frame).Some? && IsManifestMessage(Deliver(frame).value) {
        NewFramesFrom(before, after, w.player, frame);
        var i :| |before| <= i < |after| && after[i].playerId == w.player && after[i].frame == frame;
        TalkHas(after, |before|, i, w.player, Deliver(frame).value);
        InTalk(policy, w, w', Said(Deliver(frame).value, after[i].ok));
      }
    }
  }

  lemma InTalk(policy: PC.HandshakePolicy, w: Watch, w': Watch, s: Said)
    requires GateInv(policy, w) && GateInv(policy, w') && w'.player == w.player && w'.mark == w.mark
    requires Extends(w.core.line.attempts, w'.core.line.attempts)
    requires |TalkTo(w.core.line.attempts, w.player)| <= |TalkTo(w'.core.line.attempts, w.player)|
    requires s in TalkTo(w'.core.line.attempts, w.player)[|TalkTo(w.core.line.attempts, w.player)|..]
    requires IsManifestMessage(s.message)
    ensures w'.published.Some? && IsTold(Some(w'.published.value.manifest), s.message)
  {
    hide PC.Inv, AR.Inv, PlayerInv, TalkTo, ManifestTalk, Spoken, StreamOf, IsManifest, WelcomedFirst, IsManifestMessage;
    assert s in Talk(w');
    ManifestTalkHas(Talk(w'), s);
    var x := w'.published.value;
    ManifestSize(x.manifest);
    SpokenShape(StreamOf(x.manifest), x.answers);
    var j :| 0 <= j < |Spoken(StreamOf(x.manifest), x.answers)| && Spoken(StreamOf(x.manifest), x.answers)[j] == s;
    assert s.message == StreamOf(x.manifest)[j];
  }

  // The invariant of the whole.

  function Reports(published: Option<Publishing>): seq<Message> {
    match published case None => [] case Some(x) => x.reports
  }

  /** The server's side: what is published was built from the registry remembered as its source, and a connection that
      has had its manifest gets no second one. */
  ghost predicate SourceInv(setup: Setup, watch: Watch, source: Option<AR.Registry>) {
    && watch.player < 0x8000_0000
    && GateInv(setup.policy, watch)
    && (source.Some? ==> AR.Inv(source.value))
    && (watch.published.Some? ==> Told(source) == Some(watch.published.value.manifest))
    && (source.Some? && watch.published == None ==> watch.player !in watch.core.assets)
  }

  /** The client's side, as proved of the engine alone. */
  ghost predicate EngineInv(setup: Setup, e: Engine) {
    S.Inv(e) && T.TruthInv(setup.hash, setup.root, e)
  }

  /** The client says Hello, and so the server publishes, only after the session was reset in this connection. */
  ghost predicate SessionFits(w: World) {
    w.source.Some? || !NoHello(w.out.frames) ==> w.engine.sessionStamp == w.engine.stamp
  }

  ghost predicate ClientHeard(w: World) {
    w.engine.sessionStamp == w.engine.stamp ==> HeardTold(Told(w.source), w.engine.heard)
  }

  ghost predicate WorldInv(setup: Setup, w: World) {
    && SourceInv(setup, w.watch, w.source)
    && EngineInv(setup, w.engine)
    && SessionFits(w)
    && ClientHeard(w)
    && DownInv(Told(w.source), w.down)
    && UpInv(setup.hash, w.engine, Told(w.source), w.out.frames)
    && ReportsInv(setup.hash, w.engine, Told(w.source), Reports(w.watch.published))
  }

  /** Every engine action but an item's own report leaves the log alone, and none but a tick moves the clock. */
  lemma NextLog(setup: Setup, e: Engine, a: Action)
    ensures var e' := Next(setup.hash, setup.root, e, a);
            && e.readyLog <= e'.readyLog
            && e'.stamp == (if a.Tick? then e.stamp + 1 else e.stamp)
            && e'.sessionStamp == (if a.Reset? then e.stamp else e.sessionStamp)
            && e'.heard == (match a case Hear(m) => e.heard + [m] case Reset => [] case _ => e.heard)
  {
    hide EffectOf, ReceiveMessage, PathFor;
  }

  lemma EngineStep(setup: Setup, e: Engine, a: Action)
    requires EngineInv(setup, e) && IsFenced(e)
    ensures EngineInv(setup, Next(setup.hash, setup.root, e, a))
  {
    hide S.Inv, T.TruthInv, Next;
    S.StepKeeps(setup.hash, setup.root, e, a);
    T.StepTruth(setup.hash, setup.root, e, a);
  }

  /** A step of the worker or of unloading: the channels and the server are not involved. */
  lemma EngineOnly(setup: Setup, w: World, w': World, a: Action)
    requires WorldInv(setup, w) && IsFenced(w.engine) && (a.Work? || a.Throw? || a.Stop?)
    requires w' == w.(engine := Next(setup.hash, setup.root, w.engine, a), handshake := w'.handshake,
                   out := w.out.(attached := w'.out.attached))
    ensures WorldInv(setup, w')
  {
    hide EngineInv, Next, SourceInv, Told, UpInv, DownInv, ReportsInv, HeardTold, NoHello;
    NextLog(setup, w.engine, a);
    EngineStep(setup, w.engine, a);
    UpStays(setup.hash, w.engine, w'.engine, Told(w.source), w.out.frames, Reports(w.watch.published));
  }

  /** The hook noticed a connection or its end: a new session, and perhaps a Hello. */
  lemma ClientEventStep(setup: Setup, w: World, noticed: ConnectionEvent)
    requires WorldInv(setup, w) && IsFenced(w.engine)
    requires AR.Inv(w.watch.core.registry) && w.watch.player < 0x8000_0000
    ensures WorldInv(setup, Take(setup, w, AtClient(noticed)))
  {
    hide EngineInv, Next, SourceInv, Told, UpInv, DownInv, ReportsInv, AR.Inv, NoHello, EncodePacket, Deliver, HasProtocolMagic;
    var w' := Take(setup, w, AtClient(noticed));
    NextLog(setup, w.engine, AssetEngine.Reset);
    EngineStep(setup, w.engine, AssetEngine.Reset);
    UpStays(setup.hash, w.engine, w'.engine, Told(w.source), w.out.frames, Reports(w.watch.published));
    if w'.out.frames != w.out.frames {
      HelloFrame(setup.config, w.out);
      var frame := Wire(CH.HelloOf(setup.config)).value;
      HelloUp(setup, w'.engine, Told(w.source), w.out.frames, frame);
    }
  }

  lemma HelloFrame(config: CH.Configuration, out: Outbox)
    ensures match EncodePacket(CH.HelloOf(config), PROTOCOL_VERSION)
            case NotEncoded(_) => true
            case Encoded(bytes) =>
              SendBytes(out, bytes).frames == out.frames ||
              (&& Wire(CH.HelloOf(config)).Some?
               && var frame := Wire(CH.HelloOf(config)).value;
               && SendBytes(out, bytes).frames == out.frames + [frame]
               && IsCarried(frame) && Deliver(frame) == Some(CH.HelloOf(config)))
  {
    hide EncodePacket, Deliver, HasProtocolMagic, IsEncodable;
    if Wire(CH.HelloOf(config)).Some? {
      WireExactness(CH.HelloOf(config), Wire(CH.HelloOf(config)).value);
    }
  }

  lemma HelloUp(setup: Setup, e: Engine, told: Option<Manifest>, frames: seq<seq<byte>>, frame: seq<byte>)
    requires UpInv(setup.hash, e, told, frames) && IsCarried(frame)
    requires Deliver(frame) == Some(CH.HelloOf(setup.config))
    ensures UpInv(setup.hash, e, told, frames + [frame])
  {
    hide UpInv, Deliver, IsCarried, Vouched, NoHello;
    UpAppend(setup.hash, e, told, frames, frame);
  }

  /** A pump reports what the session's worker recorded. */
  lemma PumpStep(setup: Setup, w: World)
    requires WorldInv(setup, w) && IsFenced(w.engine)
    requires AR.Inv(w.watch.core.registry) && w.watch.player < 0x8000_0000
    ensures WorldInv(setup, Take(setup, w, PumpResults))
  {
    hide EngineInv, Next, SourceInv, Told, UpInv, DownInv, ReportsInv, AR.Inv, NoHello, Vouched, SendReports, HeardTold;
    var w' := Take(setup, w, PumpResults);
    if w.handshake.state == CH.ClientCompatible {
      NextLog(setup, w.engine, Drain);
      EngineStep(setup, w.engine, Drain);
      var told := Told(w.source);
      var events := w.engine.manager.events;
      forall event | event in events && event.kind == ReadyEvent
        ensures Vouched(setup.hash, w.engine, told, event.manifestRevision, event.assetId) || (told == None && NoHello(w.out.frames))
      {
        if w.engine.sessionStamp == w.engine.stamp {
          EventVouched(setup, w.engine, told, event);
        } else {
          NoSource(w.source);
        }
      }
      SentReports(setup.hash, w.engine, told, w.out, events);
      assert w'.out == SendReports(w.out, events);
      UpStays(setup.hash, w.engine, w'.engine, told, w'.out.frames, Reports(w.watch.published));
    }
  }

  lemma NoSource(source: Option<AR.Registry>)
    ensures source == None <==> Told(source) == None
  {}

  lemma EventVouched(setup: Setup, e: Engine, told: Option<Manifest>, event: Event)
    requires EngineInv(setup, e) && e.sessionStamp == e.stamp && HeardTold(told, e.heard)
    requires event in e.manager.events && event.kind == ReadyEvent
    ensures Vouched(setup.hash, e, told, event.manifestRevision, event.assetId)
  {
    hide GenerationInv, S.SessionInv, T.DiskInv, ReceiverAfter, HeardTold, Matches;
    CompletedIsTold(told, e.heard);
    assert event in Trace(e);
    assert T.IsBacked(e, event);
    var m := e.manager.receiver.completed.value;
    var r :| r in e.readyLog && r.session == e.session && r.revision == m.revision
             && r.asset in m.assets && r.asset.assetId == event.assetId;
    assert T.RecordTrue(setup.hash, e, r);
  }

  /** A frame comes down: the handshake or the asset manager takes it in, and a refused asset is complained about. */
  lemma DownStep(setup: Setup, w: World)
    requires WorldInv(setup, w) && IsFenced(w.engine)
    requires AR.Inv(w.watch.core.registry) && w.watch.player < 0x8000_0000
    ensures WorldInv(setup, Take(setup, w, DownArrives))
  {
    hide EngineInv, Next, SourceInv, Told, UpInv, ReportsInv, AR.Inv, NoHello, Vouched, HeardTold, Inspect, DecodePacket,
         ReceiveMessage, SendReport, FrameTold, CH.AfterPacket;
    var w' := Take(setup, w, DownArrives);
    if w.down != [] && Inspect(w.down[0]).CustomModel? {
      var bytes := Inspect(w.down[0]).protocolBytes;
      var told := Told(w.source);
      match AssetInput(ClientOf(w), bytes) {
        case None =>
        case Some(m) =>
          var complaint := ComplaintAbout(m, ReceiveMessage(w.engine.manager, m).1);
          if complaint.Some? {
            SentReport(setup.hash, w.engine, told, w.out, complaint.value);
          }
          NextLog(setup, w.engine, Hear(m));
          EngineStep(setup, w.engine, Hear(m));
          UpStays(setup.hash, w.engine, w'.engine, told, w'.out.frames, Reports(w.watch.published));
          assert w.down[0] in w.down;
          HeardMore(told, w.engine.heard, m, w.down[0]);
      }
    }
  }

  lemma HeardMore(told: Option<Manifest>, heard: seq<Message>, m: Message, frame: seq<byte>)
    requires FrameTold(told, frame) && Deliver(frame) == Some(m)
    ensures HeardTold(told, heard) ==> HeardTold(told, heard + [m])
  {
    hide MessageTold, Deliver;
  }

  // The server's steps.

  /** What an event leaves of the publication and its source. */
  lemma SourceStep(setup: Setup, w: World, event: ServerEvent)
    requires SourceInv(setup, w.watch, w.source)
    ensures AR.Inv(w.watch.core.registry)
    ensures var w' := ServerActs(setup, w, event);
            && SourceInv(setup, w'.watch, w'.source)
            && (!BreaksOff(w, event) && w.source.Some? ==> w'.source == w.source)
            && (w'.source != w.source && !BreaksOff(w, event) ==>
                event.Sends? && event.player == w.watch.player && VerdictOf(event.player, event.stream).HelloInput?)
  {
    hide GateInv, AR.Inv, AR.BuildManifest, HE.DispatchPayload, VerdictOf, AR.Apply;
    GateRegistry(setup.policy, w.watch);
    EventKeeps(setup.policy, w.watch, event);
    PlayerKept(setup.policy, w.watch, event);
    StillAbsent(setup.policy, w.watch, event);
  }

  /** A player without a record gets one only by connecting. */
  lemma StillAbsent(policy: PC.HandshakePolicy, w: Watch, event: ServerEvent)
    requires GateInv(policy, w)
    ensures AR.Inv(w.core.registry)
    ensures var w' := WatchStep(policy, w, event);
            && (w.player !in w.core.assets && !(event.Connects? && event.player == w.player) ==> w.player !in w'.core.assets)
            && (EndsConnection(w, event) && !event.Connects? ==> w.player !in w'.core.assets)
            && (w'.published == None && w.published.Some? ==> EndsConnection(w, event))
  {
    hide AR.Inv, PC.Inv, TalkInv, VerdictOf, HE.DispatchPayload, AP.AfterMessage, AP.AfterMessages, AR.Apply, HE.TurnAway, TalkTo,
         AR.BuildManifest, SendAll, StreamOf, AP.AfterSending;
    if event.Sends? && VerdictOf(event.player, event.stream) != NotOurs {
      SenderIsPlayer(event.player, event.stream);
      AR.PublishedSize(w.core.registry);
    }
  }

  predicate IsOwnInput(w: World, event: ServerEvent) {
    event.Sends? && event.player == w.watch.player
  }

  /** What a server step needs of the input it is given: a Hello comes from a session of this connection and leaves only
      vouched reports behind it, and a report that meets a publication is vouched for. */
  ghost predicate InputFits(setup: Setup, w: World, event: ServerEvent) {
    IsOwnInput(w, event) ==>
      match VerdictOf(event.player, event.stream)
      case HelloInput(_) =>
        && w.engine.sessionStamp == w.engine.stamp
        && (w.source == None ==> forall m: Manifest :: UpInv(setup.hash, w.engine, Some(m), w.out.frames))
      case OtherInput(m) =>
        w.watch.published.Some? && m.AssetReady? ==>
          Vouched(setup.hash, w.engine, Told(w.source), m.manifestRevision, m.assetId)
      case _ => true
  }

  lemma ToldMore(told: Option<Manifest>, frames: seq<seq<byte>>, heard: seq<Message>)
    ensures DownInv(None, frames) ==> DownInv(told, frames)
    ensures HeardTold(None, heard) ==> HeardTold(told, heard)
  {
    hide Deliver, IsManifestMessage;
    if DownInv(None, frames) {
      forall frame | frame in frames
        ensures FrameTold(told, frame)
      {
        assert FrameTold(None, frame);
      }
    }
    if HeardTold(None, heard) {
      forall m | m in heard
        ensures MessageTold(told, m)
      {
        assert MessageTold(None, m);
      }
    }
  }

  lemma DownBoth(told: Option<Manifest>, a: seq<seq<byte>>, b: seq<seq<byte>>)
    requires DownInv(told, a) && DownInv(told, b)
    ensures DownInv(told, a + b)
  {
    hide FrameTold;
  }

  /** What the steps of the server do to the frames on their way down. */
  lemma DownKept(setup: Setup, w: World, event: ServerEvent)
    requires WorldInv(setup, w)
    ensures AR.Inv(w.watch.core.registry)
    ensures var w' := ServerActs(setup, w, event); DownInv(Told(w'.source), w'.down)
  {
    hide GateInv, AR.Inv, AR.BuildManifest, CoreStep, PublishedAfter, FrameTold, EngineInv, UpInv, ReportsInv, ClientHeard, SessionFits,
         NewFrames;
    GateRegistry(setup.policy, w.watch);
    SourceStep(setup, w, event);
    var w' := ServerActs(setup, w, event);
    if w.source == None {
      ToldMore(Told(w'.source), w.down, []);
    }
    if !BreaksOff(w, event) {
      var (before, after) := (w.watch.core.line.attempts, w'.watch.core.line.attempts);
      var more := NewFrames(before, after, w.watch.player);
      if !event.Sends? {
        SameLine(setup.policy, w.watch, event);
      } else {
        NewFramesTold(setup.policy, w.watch, event);
        ToldMore(Told(w'.source), more, []);
      }
      DownBoth(Told(w'.source), w.down, more);
    }
  }

  lemma SameLine(policy: PC.HandshakePolicy, w: Watch, event: ServerEvent)
    requires AR.Inv(w.core.registry) && !event.Sends?
    ensures var w' := WatchStep(policy, w, event); NewFrames(w.core.line.attempts, w'.core.line.attempts, w.player) == []
  {
    hide AR.Inv, TalkTo;
  }

  /** What an event does to the reports kept since the publication. */
  lemma ReportsKept(policy: PC.HandshakePolicy, w: Watch, event: ServerEvent)
    requires GateInv(policy, w)
    ensures AR.Inv(w.core.registry)
    ensures var (now, then') := (Reports(w.published), Reports(WatchStep(policy, w, event).published));
            || then' == [] || then' == now
            || (event.Sends? && event.player == w.player && w.published.Some?
                && VerdictOf(event.player, event.stream).OtherInput?
                && then' == now + [VerdictOf(event.player, event.stream).message])
  {
    hide AR.Inv, PC.Inv, TalkInv, PlayerInv, VerdictOf, HE.DispatchPayload, CoreStep, TalkTo, AR.BuildManifest;
  }

  /** Any step of the server. */
  lemma ServerStep(setup: Setup, w: World, event: ServerEvent)
    requires WorldInv(setup, w) && InputFits(setup, w, event)
    ensures AR.Inv(w.watch.core.registry)
    ensures !BreaksOff(w, event) ==> WorldInv(setup, ServerActs(setup, w, event))
  {
    hide GateInv, AR.Inv, AR.BuildManifest, WatchStep, FrameTold, DownInv, EngineInv, NewFrames, VerdictOf, Vouched, HeardTold,
         NoHello, IsHelloFrame, ReadyFrameOk, IsCarried, UpInv;
    GateRegistry(setup.policy, w.watch);
    SourceStep(setup, w, event);
    DownKept(setup, w, event);
    ReportsKept(setup.policy, w.watch, event);
    var w' := ServerActs(setup, w, event);
    if !BreaksOff(w, event) {
      NoFrames(setup, w'.engine, Told(w'.source));
      if w'.source != w.source {
        assert w.source == None && w'.source.Some?;
        ToldMore(Told(w'.source), [], w.engine.heard);
        NoPublication(setup, w);
        VouchedNeedsSource(setup, w, w');
      }
    }
  }

  lemma NoFrames(setup: Setup, e: Engine, told: Option<Manifest>)
    ensures UpInv(setup.hash, e, told, []) && NoHello([])
  {}

  lemma NoPublication(setup: Setup, w: World)
    requires SourceInv(setup, w.watch, w.source) && w.source == None
    ensures w.watch.published == None
  {
    hide GateInv;
  }

  lemma VouchedNeedsSource(setup: Setup, w: World, w': World)
    ensures ReportsInv(setup.hash, w'.engine, Told(w'.source), [])
  {}

  /** The connection breaks off: the channels are empty, nothing is published, and the client's session is an old one. */
  lemma BreakStep(setup: Setup, w: World, event: ServerEvent)
    requires WorldInv(setup, w) && IsFenced(w.engine) && BreaksOff(w, event)
    ensures AR.Inv(w.watch.core.registry)
    ensures WorldInv(setup, ServerActs(setup, w, event))
  {
    hide GateInv, AR.Inv, AR.BuildManifest, WatchStep, FrameTold, EngineInv, Next, NewFrames, Vouched, HeardTold, IsHelloFrame,
         ReadyFrameOk, IsCarried;
    GateRegistry(setup.policy, w.watch);
    SourceStep(setup, w, event);
    ReportsKept(setup.policy, w.watch, event);
    NextLog(setup, w.engine, Tick);
    EngineStep(setup, w.engine, Tick);
    SessionInPast(setup, w.engine);
    UnpublishedNow(setup.policy, w.watch, event);
  }

  lemma SessionInPast(setup: Setup, e: Engine)
    requires EngineInv(setup, e)
    ensures e.sessionStamp <= e.stamp
  {
    hide S.Inv, T.DiskInv, T.EventsBacked;
  }

  lemma UnpublishedNow(policy: PC.HandshakePolicy, w: Watch, event: ServerEvent)
    requires AR.Inv(w.core.registry) && EndsConnection(w, event)
    ensures WatchStep(policy, w, event).published == None
  {
    hide AR.Inv, CoreStep, TalkTo;
  }

  /** What the server finds in a carried frame is what a receiver of it would deliver, and nothing when that is nothing. */
  lemma FrameVerdict(player: u32, frame: seq<byte>)
    requires IsCarried(frame) && player < 0x8000_0000
    ensures match Deliver(frame)
            case Some(m) => VerdictOf(player, StreamOfFrame(frame)) == if m.Hello? then HelloInput(m) else OtherInput(m)
            case None => !VerdictOf(player, StreamOfFrame(frame)).HelloInput? && !VerdictOf(player, StreamOfFrame(frame)).OtherInput?
    ensures IsHelloFrame(frame) <==> VerdictOf(player, StreamOfFrame(frame)).HelloInput?
  {
    hide DecodePacket;
    if Deliver(frame).Some? {
      DecodedHeader(frame[1..]);
    }
  }

  /** The first frame on its way up reaches the server. */
  lemma ArriveStep(setup: Setup, w: World)
    requires WorldInv(setup, w)
    ensures AR.Inv(w.watch.core.registry) && w.watch.player < 0x8000_0000
    ensures WorldInv(setup, Take(setup, w, UpArrives))
  {
    hide GateInv, AR.Inv, EngineInv, DownInv, UpInv, ReportsInv, HeardTold, Vouched, VerdictOf, Deliver, IsHelloFrame, IsCarried,
         ServerActs, StreamOfFrame, Told, IsManifestMessage;
    GateRegistry(setup.policy, w.watch);
    if w.out.frames != [] {
      var frame := w.out.frames[0];
      UpShift(setup.hash, w.engine, Told(w.source), w.out.frames);
      var w1 := w.(out := w.out.(frames := w.out.frames[1..]));
      assert NoHello(w.out.frames) ==> NoHello(w1.out.frames);
      assert WorldInv(setup, w1);
      var event := Sends(w.watch.player, StreamOfFrame(frame));
      FrameVerdict(w.watch.player, frame);
      NoSource(w.source);
      PublishedHasSource(setup, w);
      assert InputFits(setup, w1, event) by {
        assert frame in w.out.frames;
        NotVouched(setup.hash, w.engine);
      }
      ServerStep(setup, w1, event);
    }
  }

  lemma PublishedHasSource(setup: Setup, w: World)
    requires SourceInv(setup, w.watch, w.source)
    ensures w.watch.published.Some? ==> w.source.Some?
  {
    hide GateInv, AR.Inv, AR.BuildManifest;
  }

  lemma WorldFacts(setup: Setup, w: World)
    requires WorldInv(setup, w)
    ensures AR.Inv(w.watch.core.registry) && w.watch.player < 0x8000_0000
  {
    hide PC.Inv, AR.Inv, TalkInv, PlayerInv, EngineInv, DownInv, UpInv, ReportsInv, ClientHeard, SessionFits;
  }

  /** Every step of everything keeps the invariant, behind the fence. */
  lemma WorldStep(setup: Setup, w: World, step: Step)
    requires WorldInv(setup, w) && IsFenced(w.engine)
    ensures AR.Inv(w.watch.core.registry) && w.watch.player < 0x8000_0000
    ensures WorldInv(setup, Take(setup, w, step))
  {
    hide WorldInv, AR.Inv, ServerActs, VerdictOf, Next, Comes, Arrives, AfterEvent, Pumped;
    WorldFacts(setup, w);
    match step {
      case AtServer(event) =>
        if BreaksOff(w, event) {
          BreakStep(setup, w, event);
        } else if !IsOwnInput(w, event) {
          ServerStep(setup, w, event);
        }
      case UpArrives => ArriveStep(setup, w);
      case DownArrives => DownStep(setup, w);
      case AtClient(noticed) => ClientEventStep(setup, w, noticed);
      case PumpResults => PumpStep(setup, w);
      case WorkerMoves(outcome) => EngineOnly(setup, w, Take(setup, w, step), Work(outcome));
      case WorkerThrows => EngineOnly(setup, w, Take(setup, w, step), Throw);
      case Unload => EngineOnly(setup, w, Take(setup, w, step), Stop);
    }
  }

  // Whole runs.

  /** A server that has loaded some registry, a client that has just started with some files in its cache directory, and
      nothing on its way. */
  ghost predicate IsInitial(setup: Setup, policy: PC.HandshakePolicy, w: World) {
    var core := w.watch.core;
    && setup.policy == PC.Masked(policy)
    && AR.Inv(core.registry) && w.watch.player < 0x8000_0000
    && w == World(Start(w.engine.files, w.engine.throws), CH.UNCONNECTED, Outbox(true, w.out.answers, []),
                  Loaded(core.registry, core.line.answers, w.watch.player), [], None)
  }

  lemma InitialInv(setup: Setup, policy: PC.HandshakePolicy, w: World)
    requires IsInitial(setup, policy, w)
    ensures WorldInv(setup, w)
  {
    hide GateInv, AR.Inv, AR.BuildManifest, S.Inv, T.TruthInv, Deliver, Vouched;
    LoadedInv(policy, w.watch.core.registry, w.watch.core.line.answers, w.watch.player);
    S.StartInv(w.engine.files, w.engine.throws);
    T.StartTruth(setup.hash, setup.root, w.engine.files, w.engine.throws);
  }

  /** A run, as the list of the worlds it passes through. */
  ghost predicate IsRun(setup: Setup, worlds: seq<World>, steps: seq<Step>) {
    && |worlds| == |steps| + 1
    && (forall i | 0 <= i < |steps| ::
          && AR.Inv(worlds[i].watch.core.registry) && worlds[i].watch.player < 0x8000_0000
          && worlds[i + 1] == Take(setup, worlds[i], steps[i]))
  }

  /** No item is overtaken by a full turn of the generation counter. */
  predicate IsFencedRun(worlds: seq<World>) {
    forall i | 0 <= i < |worlds| :: IsFenced(worlds[i].engine)
  }

  lemma {:induction false} RunKeepsWorld(setup: Setup, worlds: seq<World>, steps: seq<Step>, n: nat)
    requires IsRun(setup, worlds, steps) && IsFencedRun(worlds) && n <= |steps|
    requires WorldInv(setup, worlds[0])
    ensures WorldInv(setup, worlds[n])
  {
    hide WorldInv, Take, IsFenced, AR.Inv;
    if n > 0 {
      RunKeepsWorld(setup, worlds, steps, n - 1);
      WorldStep(setup, worlds[n - 1], steps[n - 1]);
    }
  }

  /** Ready at the server, as seen in one world. */
  lemma ReadyIsVouched(setup: Setup, w: World, id: u32)
    requires WorldInv(setup, w)
    requires w.watch.player in w.watch.core.assets && id in w.watch.core.assets[w.watch.player].ready
    ensures w.watch.published.Some? && w.source.Some?
    ensures var p := w.watch.core.assets[w.watch.player];
            Vouched(setup.hash, w.engine, Told(w.source), p.manifestRevision, id)
  {
    hide PC.Inv, TalkInv, AR.Inv, AR.BuildManifest, EngineInv, DownInv, UpInv, ClientHeard, SessionFits, Vouched, IsManifest, StreamOf,
         Takes, IdsOf;
    var p := w.watch.core.assets[w.watch.player];
    var x := w.watch.published.value;
    if p != AP.AfterSending(x.manifest, false) {
      AP.LastReportWins(x.manifest, x.reports);
      LastReportHeard(x.manifest.revision, id, x.reports);
      assert AssetReady(p.manifestRevision, id) in Reports(w.watch.published);
    }
  }

  lemma {:induction false} LastReportHeard(revision: u64, id: u32, ms: seq<Message>)
    requires AP.LastReport(revision, id, ms) == AP.ReadyReport
    ensures AssetReady(revision, id) in ms
  {
    if ms[|ms| - 1] != AssetReady(revision, id) {
      LastReportHeard(revision, id, ms[..|ms| - 1]);
    }
  }

  /** Truthful readiness. However the server, both channels, the client's network thread and its worker interleave,
      whatever other players and the registry do, whatever downloads deliver and whichever sends and disk calls fail:
      if the server holds an asset of the player ready, then in this very connection the player's client recorded that
      asset of that revision ready while its cache path held a file with exactly the size and digest that were
      registered for it when the manifest of that revision was published. */
  lemma ReadyIsTrue(setup: Setup, policy: PC.HandshakePolicy, worlds: seq<World>, steps: seq<Step>, id: u32)
    requires IsRun(setup, worlds, steps) && IsFencedRun(worlds) && IsInitial(setup, policy, worlds[0])
    ensures var w := worlds[|steps|];
            w.watch.player in w.watch.core.assets && id in w.watch.core.assets[w.watch.player].ready ==>
              && w.source.Some?
              && id in w.source.value.assets
              && w.watch.core.assets[w.watch.player].manifestRevision == w.source.value.revision
              && exists r ::
                   && r in w.engine.readyLog
                   && r.stamp == w.engine.stamp
                   && r.revision == w.source.value.revision
                   && r.asset == w.source.value.assets[id]
                   && r.file.Some? && Matches(setup.hash, r.file.value, r.asset)
  {
    hide WorldInv, Take, IsFenced, AR.Inv, Matches, IsInitial, Told;
    InitialInv(setup, policy, worlds[0]);
    RunKeepsWorld(setup, worlds, steps, |steps|);
    var w := worlds[|steps|];
    if w.watch.player in w.watch.core.assets && id in w.watch.core.assets[w.watch.player].ready {
      ReadyIsVouched(setup, w, id);
      Registered(setup, w);
      var revision := w.watch.core.assets[w.watch.player].manifestRevision;
      var m := Told(w.source).value;
      var r :| r in w.engine.readyLog && r.stamp == w.engine.stamp && r.revision == revision
               && r.asset in m.assets && r.asset.assetId == id
               && r.file.Some? && Matches(setup.hash, r.file.value, r.asset);
    }
  }

  lemma Registered(setup: Setup, w: World)
    requires WorldInv(setup, w) && w.source.Some?
    ensures Told(w.source).Some? && Told(w.source).value.revision == w.source.value.revision
    ensures forall a | a in Told(w.source).value.assets :: a.assetId in w.source.value.assets && w.source.value.assets[a.assetId] == a
  {
    hide GateInv, AR.Inv, EngineInv, DownInv, UpInv, ReportsInv, ClientHeard, SessionFits, IsManifest, AR.SortedById;
    AR.ManifestOfRegistry(w.source.value);
  }
}
