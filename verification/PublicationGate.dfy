/** Whole runs of the server, watched from one player: a manifest is published at most once a connection, only
    after a Welcome, and what was published never changes until the connection ends. */
module PublicationGate {
  import opened Bytes
  import opened Assets
  import opened Protocol
  import opened ManifestStream
  import opened ServerTransport
  import opened ServerComponent
  import PC = PlayerCapabilities
  import HE = HandshakeEndpoint
  import AP = AssetPublication
  import AR = AssetRegistry

  /** What was published in this connection, what the transport was going to answer, and what has been reported since. */
  datatype Publishing = Publishing(manifest: Manifest, answers: seq<bool>, reports: seq<Message>)

  /** The server and one player of it: `mark` is how much had been put to that player when its connection began. */
  datatype Watch = Watch(core: Core, player: u32, mark: nat, published: Option<Publishing>)

  datatype ServerEvent =
    | Connects(player: i32) | Disconnects(player: i32) | ResetsAll | Sends(player: i32, stream: BitStream)
    | Changes(op: AR.Operation)

  /** Everything put to the player in this connection. */
  function Talk(w: Watch): seq<Said>
    requires w.mark <= |TalkTo(w.core.line.attempts, w.player)|
  {
    TalkTo(w.core.line.attempts, w.player)[w.mark..]
  }

  predicate EndsConnection(w: Watch, event: ServerEvent) {
    event.ResetsAll? || ((event.Connects? || event.Disconnects?) && event.player == w.player)
  }

  ghost function CoreStep(policy: PC.HandshakePolicy, s: Core, event: ServerEvent): Core
    requires AR.Inv(s.registry)
  {
    match event
    case Connects(p) =>
      if p < 0 then s else s.(tracker := PC.Begin(s.tracker, p), assets := s.assets[p := AP.PENDING])
    case Disconnects(p) =>
      if p < 0 then s else s.(tracker := s.tracker - {p}, assets := s.assets - {p})
    case ResetsAll => s.(tracker := map[], assets := map[])
    case Sends(p, stream) => Received(policy, s, p, stream).0
    case Changes(op) => s.(registry := AR.Apply(s.registry, op).0)
  }

  /** The bookkeeping beside a step: a publication begins when a Hello of the waiting player is welcomed. */
  ghost function PublishedAfter(policy: PC.HandshakePolicy, w: Watch, event: ServerEvent): Option<Publishing>
    requires AR.Inv(w.core.registry)
  {
    if EndsConnection(w, event) then None
    else match event
      case Sends(p, stream) =>
        if p != w.player then w.published
        else (match VerdictOf(p, stream)
          case HelloInput(_) =>
            var o := HE.DispatchPayload(policy, w.core.tracker, w.core.line, w.player, stream.unread);
            if o.result == HE.WelcomeSent && IsWaiting(w)
            then Some(Publishing(AR.BuildManifest(w.core.registry), o.line.answers, []))
            else w.published
          case OtherInput(m) =>
            (match w.published
            case None => None
            case Some(x) => Some(x.(reports := x.reports + [m])))
          case _ => w.published)
      case _ => w.published
  }

  predicate IsWaiting(w: Watch) {
    w.player in w.core.assets && w.core.assets[w.player].state == AP.SessionPending
  }

  ghost function WatchStep(policy: PC.HandshakePolicy, w: Watch, event: ServerEvent): Watch
    requires AR.Inv(w.core.registry)
  {
    var core := CoreStep(policy, w.core, event);
    Watch(core, w.player,
          if EndsConnection(w, event) then |TalkTo(core.line.attempts, w.player)| else w.mark,
          PublishedAfter(policy, w, event))
  }

  lemma PlayerKept(policy: PC.HandshakePolicy, w: Watch, event: ServerEvent)
    requires AR.Inv(w.core.registry)
    ensures WatchStep(policy, w, event).player == w.player
  {
    hide AR.Inv, CoreStep, PublishedAfter, TalkTo;
  }

  // What holds between events.

  function ManifestTalk(talk: seq<Said>): seq<Said> {
    if talk == [] then []
    else
      var last := talk[|talk| - 1];
      ManifestTalk(talk[..|talk| - 1]) + if IsManifestMessage(last.message) then [last] else []
  }

  predicate IsWelcome(s: Said) {
    s.ok && s.message.Welcome?
  }

  /** No manifest message is put to the player before a Welcome has been sent. */
  ghost predicate WelcomedFirst(talk: seq<Said>) {
    forall i | 0 <= i < |talk| && IsManifestMessage(talk[i].message) :: exists j :: 0 <= j < i && IsWelcome(talk[j])
  }

  ghost predicate PlayerInv(assets: AP.Players, player: u32, published: Option<Publishing>) {
    match published
    case None => player in assets ==> assets[player] == AP.PENDING
    case Some(x) =>
      && IsManifest(x.manifest)
      && player in assets
      && var sent := Takes(x.answers, |StreamOf(x.manifest)|);
      assets[player] == if sent then AP.AfterMessages(AP.AfterSending(x.manifest, true), x.reports)
                        else AP.AfterSending(x.manifest, false)
  }

  function PublicationTalk(published: Option<Publishing>): seq<Said>
    requires published.Some? ==> |published.value.manifest.assets| <= MAXIMUM_ASSETS_PER_MANIFEST
  {
    match published
    case None => []
    case Some(x) => Spoken(StreamOf(x.manifest), x.answers)
  }

  ghost predicate TalkInv(w: Watch) {
    && w.mark <= |TalkTo(w.core.line.attempts, w.player)|
    && (w.published.Some? ==> IsManifest(w.published.value.manifest))
    && ManifestTalk(Talk(w)) == PublicationTalk(w.published)
    && WelcomedFirst(Talk(w))
  }

  ghost predicate GateInv(policy: PC.HandshakePolicy, w: Watch) {
    && PC.Inv(policy, w.core.tracker)
    && AR.Inv(w.core.registry)
    && PlayerInv(w.core.assets, w.player, w.published)
    && TalkInv(w)
  }

  lemma {:induction false} ManifestTalkConcat(a: seq<Said>, b: seq<Said>)
    ensures ManifestTalk(a + b) == ManifestTalk(a) + ManifestTalk(b)
  {
    if b == [] {
      assert a + b == a;
    } else {
      ManifestTalkConcat(a, b[..|b| - 1]);
      assert (a + b)[..|a + b| - 1] == a + b[..|b| - 1];
    }
  }

  lemma {:induction false} AllManifestTalk(talk: seq<Said>)
    requires forall s | s in talk :: IsManifestMessage(s.message)
    ensures ManifestTalk(talk) == talk
  {
    if talk != [] {
      AllManifestTalk(talk[..|talk| - 1]);
      assert talk == talk[..|talk| - 1] + [talk[|talk| - 1]];
    }
  }

  lemma NoManifestTalk(s: Said)
    requires !IsManifestMessage(s.message)
    ensures ManifestTalk([s]) == []
  {
    assert [s][..0] == [] && ManifestTalk([]) == [];
  }

  /** Saying something that is no manifest message keeps everything. */
  lemma AnswerKeepsTalk(talk: seq<Said>, s: Said)
    requires !IsManifestMessage(s.message)
    ensures ManifestTalk(talk + [s]) == ManifestTalk(talk)
    ensures WelcomedFirst(talk) ==> WelcomedFirst(talk + [s])
  {
    hide IsManifestMessage;
    ManifestTalkConcat(talk, [s]);
    NoManifestTalk(s);
    if WelcomedFirst(talk) {
      Later(talk, [s]);
    }
  }

  lemma Later(talk: seq<Said>, more: seq<Said>)
    requires WelcomedFirst(talk)
    requires forall i | 0 <= i < |more| :: IsManifestMessage(more[i].message) ==> exists j :: 0 <= j < |talk| && IsWelcome(talk[j])
    ensures WelcomedFirst(talk + more)
  {
    hide IsManifestMessage, IsWelcome;
    var all := talk + more;
    forall i | 0 <= i < |all| && IsManifestMessage(all[i].message)
      ensures exists j :: 0 <= j < i && IsWelcome(all[j])
    {
      if i < |talk| {
        assert IsManifestMessage(talk[i].message);
        var j :| 0 <= j < i && IsWelcome(talk[j]);
        assert all[j] == talk[j];
      } else {
        assert IsManifestMessage(more[i - |talk|].message);
        var j :| 0 <= j < |talk| && IsWelcome(talk[j]);
        assert all[j] == talk[j];
      }
    }
  }

  /** A publication right after a Welcome. */
  lemma PublicationKeepsTalk(talk: seq<Said>, welcome: Said, m: Manifest, answers: seq<bool>)
    requires IsWelcome(welcome) && |m.assets| <= MAXIMUM_ASSETS_PER_MANIFEST
    requires ManifestTalk(talk) == [] && WelcomedFirst(talk)
    ensures var all := talk + [welcome] + Spoken(StreamOf(m), answers);
            ManifestTalk(all) == Spoken(StreamOf(m), answers) && WelcomedFirst(all)
  {
    hide Spoken, WelcomedFirst;
    var said := Spoken(StreamOf(m), answers);
    SpokenShape(StreamOf(m), answers);
    forall s | s in said
      ensures IsManifestMessage(s.message)
    {
      var i :| 0 <= i < |said| && said[i] == s;
      assert s.message == StreamOf(m)[i];
    }
    AllManifestTalk(said);
    AnswerKeepsTalk(talk, welcome);
    ManifestTalkConcat(talk + [welcome], said);
    assert (talk + [welcome])[|talk|] == welcome;
    Later(talk + [welcome], said);
  }

  // One event.

  /** What a dispatch of a legal Hello does, for whoever watches. */
  lemma HelloTalk(policy: PC.HandshakePolicy, s: Core, p: i32, stream: BitStream, q: u32)
    requires PC.Inv(policy, s.tracker) && VerdictOf(p, stream).HelloInput?
    ensures VerdictOf(p, stream).hello.Hello?
    ensures var (o, (players, response)) := (HE.DispatchPayload(policy, s.tracker, s.line, p, stream.unread),
                                             PC.Hear(policy, s.tracker, p, VerdictOf(p, stream).hello));
            && PC.Inv(policy, o.players)
            && o.players == players
            && (response.Welcome? || response.Reject?)
            && (o.result == HE.WelcomeSent <==> response.Welcome? && Takes(s.line.answers, 1))
            && TalkTo(o.line.attempts, q) ==
               TalkTo(s.line.attempts, q) + (if q == p then [Said(response, Takes(s.line.answers, 1))] else [])
  {
    hide DecodePacket, TalkTo, PC.Hear, PC.Inv, HE.DispatchClaimed;
    HE.HelloAnswered(policy, s.tracker, s.line, p, stream.unread, q);
  }

  /** Publishing, for whoever watches. */
  lemma PublishTalk(assets: AP.Players, t: Line, r: AR.Registry, playerId: u32, q: u32)
    requires AR.Inv(r)
    ensures |AR.BuildManifest(r).assets| <= MAXIMUM_ASSETS_PER_MANIFEST
    ensures var ((assets', t', _), m) := (AP.Publish(assets, t, AR.BuildManifest(r), playerId), AR.BuildManifest(r));
            var waiting := playerId in assets && AP.IsOpenFor(assets[playerId]);
            && IsManifest(m)
            && TalkTo(t'.attempts, q) ==
               TalkTo(t.attempts, q) + (if waiting && q == playerId then Spoken(StreamOf(m), t.answers) else [])
            && (waiting ==> assets' == assets[playerId := AP.AfterSending(m, Takes(t.answers, |StreamOf(m)|))])
            && (!waiting ==> assets' == assets)
  {
    hide AR.Inv, AR.BuildManifest, IsManifest, StreamOf, Spoken, TalkTo, Takes, SendAll;
    AR.ManifestOfRegistry(r);
    ManifestSize(AR.BuildManifest(r));
    if playerId in assets && AP.IsOpenFor(assets[playerId]) {
      AP.PublicationDelivers(assets, t, r, playerId, q);
    }
  }

  lemma PlayerStates(assets: AP.Players, player: u32, published: Option<Publishing>)
    requires PlayerInv(assets, player, published) && player in assets
    ensures match published
            case None => assets[player] == AP.PENDING
            case Some(_) => AP.IsPublished(assets[player]) || assets[player].state == AP.SessionRejected
  {
    hide StreamOf, Takes, IsManifest, AP.AfterMessages;
    if published.Some? {
      AP.LastReportWins(published.value.manifest, published.value.reports);
    }
  }

  /** The player's own Hello. */
  lemma HelloStep(policy: PC.HandshakePolicy, w: Watch, p: i32, stream: BitStream)
    requires GateInv(policy, w) && p == w.player && VerdictOf(p, stream).HelloInput?
    ensures GateInv(policy, WatchStep(policy, w, Sends(p, stream)))
  {
    hide PC.Inv, AR.Inv, VerdictOf, HE.DispatchPayload, PC.Hear, AP.Publish, TalkTo, Spoken, StreamOf, IsManifest, Takes,
         AR.BuildManifest, ManifestTalk, WelcomedFirst, AP.AfterMessages, AP.AfterSending;
    var w' := WatchStep(policy, w, Sends(p, stream));
    HelloTalk(policy, w.core, p, stream, w.player);
    var o := HE.DispatchPayload(policy, w.core.tracker, w.core.line, p, stream.unread);
    var said := Said(PC.Hear(policy, w.core.tracker, p, VerdictOf(p, stream).hello).1, Takes(w.core.line.answers, 1));
    AnswerKeepsTalk(Talk(w), said);
    if p in w.core.assets {
      PlayerStates(w.core.assets, p, w.published);
    }
    if o.result == HE.WelcomeSent {
      PublishTalk(w.core.assets, o.line, w.core.registry, p, w.player);
      if IsWaiting(w) {
        var m := AR.BuildManifest(w.core.registry);
        PublicationKeepsTalk(Talk(w), said, m, o.line.answers);
        assert Talk(w') == Talk(w) + [said] + Spoken(StreamOf(m), o.line.answers);
        NoReports(AP.AfterSending(m, true));
      } else {
        assert Talk(w') == Talk(w) + [said];
      }
    } else {
      assert Talk(w') == Talk(w) + [said];
    }
  }

  lemma NoReports(p: AP.PlayerAssets)
    ensures AP.AfterMessages(p, []) == p
  {}

  /** A payload the component cannot use: a misshapen one is answered with a Reject, an undecodable one is dropped. */
  lemma RefusedStep(policy: PC.HandshakePolicy, w: Watch, p: i32, stream: BitStream)
    requires GateInv(policy, w) && !VerdictOf(p, stream).HelloInput? && !VerdictOf(p, stream).OtherInput?
    ensures GateInv(policy, WatchStep(policy, w, Sends(p, stream)))
  {
    hide PC.Inv, AR.Inv, HE.TurnAway, TalkTo, Spoken, StreamOf, IsManifest, Takes, ManifestTalk, WelcomedFirst, DecodePacket,
         PlayerInv;
    var w' := WatchStep(policy, w, Sends(p, stream));
    if VerdictOf(p, stream) == Misshapen {
      HE.TurnAwayTalk(policy, w.core.tracker, w.core.line, p, MALFORMED_HANDSHAKE, w.player);
      if p == w.player {
        var said := Said(Reject(MALFORMED_HANDSHAKE), Takes(w.core.line.answers, 1));
        AnswerKeepsTalk(Talk(w), said);
        assert Talk(w') == Talk(w) + [said];
      } else {
        assert Talk(w') == Talk(w);
      }
    }
  }

  /** A report or any other message: only the sender's record changes. */
  lemma ReportStep(policy: PC.HandshakePolicy, w: Watch, p: i32, stream: BitStream)
    requires GateInv(policy, w) && VerdictOf(p, stream).OtherInput?
    ensures GateInv(policy, WatchStep(policy, w, Sends(p, stream)))
  {
    hide PC.Inv, AR.Inv, TalkInv, VerdictOf, IsManifest, Takes, StreamOf, AP.AfterMessage, AP.AfterSending,
         HE.DispatchPayload, AR.BuildManifest, SendAll, TalkTo, AP.AfterMessages;
    var w' := WatchStep(policy, w, Sends(p, stream));
    var m := VerdictOf(p, stream).message;
    SenderIsPlayer(p, stream);
    assert TalkInv(w') by {
      TalkDependsOn(w, w');
    }
    if p == w.player {
      UnpublishedIgnores(m);
      if w.published.Some? {
        var x := w.published.value;
        AppendedReport(AP.AfterSending(x.manifest, true), x.reports, m);
        RejectedIgnores(x.manifest, m);
      }
    }
  }

  lemma SenderIsPlayer(p: i32, stream: BitStream)
    requires VerdictOf(p, stream) != NotOurs
    ensures p >= 0
  {
    hide DecodePacket;
  }

  lemma TalkDependsOn(w: Watch, w': Watch)
    requires TalkInv(w) && w'.core.line == w.core.line && w'.player == w.player && w'.mark == w.mark
    requires w'.published.Some? == w.published.Some?
    requires w.published.Some? ==>
               w'.published.value.manifest == w.published.value.manifest && w'.published.value.answers == w.published.value.answers
    ensures TalkInv(w')
  {
    hide TalkTo, IsManifest, ManifestTalk, WelcomedFirst, Spoken, StreamOf;
  }

  lemma UnpublishedIgnores(m: Message)
    ensures AP.AfterMessage(AP.PENDING, m).0 == AP.PENDING
  {}

  lemma RejectedIgnores(manifest: Manifest, m: Message)
    ensures var p := AP.AfterSending(manifest, false); AP.AfterMessage(p, m).0 == p
  {}

  lemma AppendedReport(p: AP.PlayerAssets, reports: seq<Message>, m: Message)
    ensures AP.AfterMessages(p, reports + [m]) == AP.AfterMessage(AP.AfterMessages(p, reports), m).0
  {
    assert (reports + [m])[..|reports|] == reports;
  }

  /** A Hello of another player changes nothing here. */
  lemma OtherHelloStep(policy: PC.HandshakePolicy, w: Watch, p: i32, stream: BitStream)
    requires GateInv(policy, w) && p != w.player && VerdictOf(p, stream).HelloInput?
    ensures GateInv(policy, WatchStep(policy, w, Sends(p, stream)))
  {
    hide PC.Inv, AR.Inv, VerdictOf, HE.DispatchPayload, PC.Hear, TalkTo, Spoken, StreamOf, IsManifest, Takes, SendAll,
         AR.BuildManifest, ManifestTalk, WelcomedFirst, AP.AfterMessages, AP.AfterSending;
    var w' := WatchStep(policy, w, Sends(p, stream));
    HelloTalk(policy, w.core, p, stream, w.player);
    SenderIsPlayer(p, stream);
    var o := HE.DispatchPayload(policy, w.core.tracker, w.core.line, p, stream.unread);
    if o.result == HE.WelcomeSent {
      PublishTalk(w.core.assets, o.line, w.core.registry, p, w.player);
    }
    assert Talk(w') == Talk(w);
  }

  /** Connecting, disconnecting, a reset and a registry change. */
  lemma ControlStep(policy: PC.HandshakePolicy, w: Watch, event: ServerEvent)
    requires GateInv(policy, w) && !event.Sends?
    ensures GateInv(policy, WatchStep(policy, w, event))
  {
    hide AR.Inv, TalkTo, Spoken, StreamOf, IsManifest, Takes, AP.AfterMessages, AP.AfterSending, AR.Apply, IsWelcome;
    var w' := WatchStep(policy, w, event);
    if event.Changes? {
      AR.ApplyKeeps(w.core.registry, event.op);
    }
    if EndsConnection(w, event) {
      assert Talk(w') == [];
    } else {
      assert Talk(w') == Talk(w);
    }
  }

  /** Every event keeps everything; and it is only the end of the connection that ends a publication. */
  lemma EventKeeps(policy: PC.HandshakePolicy, w: Watch, event: ServerEvent)
    requires GateInv(policy, w)
    ensures var w' := WatchStep(policy, w, event);
            && GateInv(policy, w')
            && (!EndsConnection(w, event) && w.published.Some? ==>
                && w'.published.Some?
                && w'.published.value.manifest == w.published.value.manifest
                && w'.published.value.answers == w.published.value.answers)
  {
    hide GateInv, HE.DispatchPayload, AR.Apply, VerdictOf;
    WaitingUnpublished(policy, w);
    if !event.Sends? {
      ControlStep(policy, w, event);
    } else if VerdictOf(event.player, event.stream).OtherInput? {
      ReportStep(policy, w, event.player, event.stream);
    } else if !VerdictOf(event.player, event.stream).HelloInput? {
      RefusedStep(policy, w, event.player, event.stream);
    } else if event.player == w.player {
      HelloStep(policy, w, event.player, event.stream);
    } else {
      OtherHelloStep(policy, w, event.player, event.stream);
    }
  }

  lemma WaitingUnpublished(policy: PC.HandshakePolicy, w: Watch)
    requires GateInv(policy, w)
    ensures IsWaiting(w) ==> w.published == None
  {
    hide PC.Inv, AR.Inv, TalkInv, AP.AfterMessages, AP.AfterSending;
    if IsWaiting(w) {
      PlayerStates(w.core.assets, w.player, w.published);
    }
  }

  // Whole runs.

  /** A server just loaded, with the registry its configuration gave it. */
  function Loaded(registry: AR.Registry, answers: seq<bool>, player: u32): Watch {
    Watch(Core(map[], map[], registry, Line(answers, [])), player, 0, None)
  }

  lemma LoadedInv(policy: PC.HandshakePolicy, registry: AR.Registry, answers: seq<bool>, player: u32)
    requires AR.Inv(registry)
    ensures GateInv(PC.Masked(policy), Loaded(registry, answers, player))
  {
    hide AR.Inv, IsWelcome, AreCapabilitiesValid;
    PC.MaskedValid(policy);
    assert Talk(Loaded(registry, answers, player)) == [];
  }

  ghost function RunEvents(policy: PC.HandshakePolicy, w: Watch, events: seq<ServerEvent>): (r: Watch)
    requires GateInv(policy, w)
    ensures GateInv(policy, r)
  {
    if events == [] then w
    else
      var before := RunEvents(policy, w, events[..|events| - 1]);
      EventKeeps(policy, before, events[|events| - 1]);
      GateRegistry(policy, before);
      WatchStep(policy, before, events[|events| - 1])
  }

  lemma GateRegistry(policy: PC.HandshakePolicy, w: Watch)
    requires GateInv(policy, w)
    ensures AR.Inv(w.core.registry)
  {}

  function Begins(talk: seq<Said>): nat {
    if talk == [] then 0
    else Begins(talk[..|talk| - 1]) + if talk[|talk| - 1].message.ManifestBegin? then 1 else 0
  }

  lemma {:induction false} BeginsInManifestTalk(talk: seq<Said>)
    ensures Begins(talk) == Begins(ManifestTalk(talk))
  {
    if talk != [] {
      var last := talk[|talk| - 1];
      BeginsInManifestTalk(talk[..|talk| - 1]);
      var earlier := ManifestTalk(talk[..|talk| - 1]);
      assert earlier + [] == earlier;
      if IsManifestMessage(last.message) {
        assert (earlier + [last])[..|earlier|] == earlier;
      }
    }
  }

  lemma {:induction false} OneBegin(m: Manifest, talk: seq<Said>)
    requires |m.assets| <= MAXIMUM_ASSETS_PER_MANIFEST && |talk| <= |StreamOf(m)|
    requires forall i | 0 <= i < |talk| :: talk[i].message == StreamOf(m)[i]
    ensures Begins(talk) <= 1
    ensures talk == [] ==> Begins(talk) == 0
  {
    if |talk| > 1 {
      OneBegin(m, talk[..|talk| - 1]);
      assert !talk[|talk| - 1].message.ManifestBegin?;
    } else if |talk| == 1 {
      assert Begins(talk[..0]) == 0;
    }
  }

  /** Gating over whole runs: whatever is loaded, whoever sends whatever, and however the transport answers, in each
      connection a player is put at most one manifest beginning, each manifest message comes after a Welcome that was
      sent, and all the manifest messages are one front piece of one stream, broken off only by a refusing transport. */
  lemma PublishedAtMostOnce(
      policy: PC.HandshakePolicy, registry: AR.Registry, answers: seq<bool>, player: u32, events: seq<ServerEvent>)
    requires AR.Inv(registry)
    ensures GateInv(PC.Masked(policy), Loaded(registry, answers, player))
    ensures var w := RunEvents(PC.Masked(policy), Loaded(registry, answers, player), events);
            && w.mark <= |TalkTo(w.core.line.attempts, w.player)|
            && WelcomedFirst(Talk(w))
            && Begins(Talk(w)) <= 1
            && match w.published
               case None => ManifestTalk(Talk(w)) == []
               case Some(x) => IsManifest(x.manifest) && ManifestTalk(Talk(w)) == Spoken(StreamOf(x.manifest), x.answers)
  {
    hide AR.Inv, PC.Inv, RunEvents, WelcomedFirst, IsManifest, TalkTo, ManifestTalk, Spoken, StreamOf, PlayerInv;
    LoadedInv(policy, registry, answers, player);
    var w := RunEvents(PC.Masked(policy), Loaded(registry, answers, player), events);
    BeginsInManifestTalk(Talk(w));
    if w.published.Some? {
      var x := w.published.value;
      ManifestSize(x.manifest);
      SpokenShape(StreamOf(x.manifest), x.answers);
      OneBegin(x.manifest, Spoken(StreamOf(x.manifest), x.answers));
    }
  }

  /** What a publication recorded stays as it was until the player's connection ends: repeated Hellos, rejections,
      failed sends, reports and registry changes do not touch the manifest, its revision or the expected assets, and
      the player's ready and failed assets are decided by its last reports since. */
  lemma {:induction false} RecordedUntilEnd(policy: PC.HandshakePolicy, w: Watch, events: seq<ServerEvent>)
    requires GateInv(policy, w) && w.published.Some?
    requires forall event | event in events :: !EndsConnection(w, event)
    ensures var w' := RunEvents(policy, w, events);
            && w'.player == w.player && w'.mark == w.mark && w'.published.Some?
            && var m := w.published.value.manifest;
            && w'.published.value.manifest == m && w'.published.value.answers == w.published.value.answers
            && w'.player in w'.core.assets
            && var p := w'.core.assets[w'.player];
            && p.manifestRevision == m.revision && p.expected == IdsOf(m.assets)
            && (AP.IsPublished(p) ==>
                && p == AP.AfterMessages(AP.AfterSending(m, true), w'.published.value.reports)
                && p.ready == (set id | id in p.expected &&
                                 AP.LastReport(m.revision, id, w'.published.value.reports) == AP.ReadyReport))
  {
    hide GateInv, IdsOf;
    if events != [] {
      var earlier := events[..|events| - 1];
      RecordedUntilEnd(policy, w, earlier);
      var before := RunEvents(policy, w, earlier);
      var event := events[|events| - 1];
      assert event in events;
      EventKeeps(policy, before, event);
      GateRegistry(policy, before);
    }
    var w' := RunEvents(policy, w, events);
    PublicationRecord(policy, w');
  }

  lemma PublicationRecord(policy: PC.HandshakePolicy, w: Watch)
    requires GateInv(policy, w) && w.published.Some?
    ensures w.player in w.core.assets
    ensures var (m, p) := (w.published.value.manifest, w.core.assets[w.player]);
            && p.manifestRevision == m.revision && p.expected == IdsOf(m.assets)
            && (AP.IsPublished(p) ==>
                && p == AP.AfterMessages(AP.AfterSending(m, true), w.published.value.reports)
                && p.ready == (set id | id in p.expected &&
                                 AP.LastReport(m.revision, id, w.published.value.reports) == AP.ReadyReport))
  {
    hide TalkInv, PC.Inv, AR.Inv, IdsOf, IsManifest, StreamOf, Takes, AP.LastReport, AP.AfterMessages;
    var x := w.published.value;
    AP.LastReportWins(x.manifest, x.reports);
  }
}
