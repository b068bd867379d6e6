/** The converse of truthful readiness: when nothing is on its way any more, the server holds ready exactly the assets the
    client has ready, and failed exactly those it gave up. */
module SettledAgreement {
  import opened Bytes
  import opened Assets
  import opened Protocol
  import opened ProtocolExactness
  import opened ManifestStream
  import opened TransportFrame
  import opened ServerTransport
  import opened ServerComponent
  import opened PublicationGate
  import opened AssetManager
  import opened AssetEngine
  import opened GenerationFence
  import opened SessionOrigin
  import opened ClientRuntime
  import opened EndToEnd
  import opened TruthfulReadiness
  import S = AssetSession
  import T = AssetTruth
  import CH = ClientHandshake
  import PC = PlayerCapabilities
  import HE = HandshakeEndpoint
  import AP = AssetPublication
  import AR = AssetRegistry

  // Reports, at the client, on their way, and at the server.

  /** What a client says about a run of events. */
  function ReportsOf(events: seq<Event>): seq<Message> {
    if events == [] then []
    else
      ReportsOf(events[..|events| - 1]) +
      match ReportOf(events[|events| - 1]) case None => [] case Some(m) => [m]
  }

  /** What the server will hear that is no Hello. */
  function UpMessages(frames: seq<seq<byte>>): seq<Message> {
    if frames == [] then []
    else FrameMessage(frames[0]) + UpMessages(frames[1..])
  }

  function FrameMessage(frame: seq<byte>): seq<Message> {
    match Deliver(frame)
    case None => []
    case Some(m) => if m.Hello? then [] else [m]
  }

  predicate IsSuffix(a: seq<Message>, b: seq<Message>) {
    |a| <= |b| && b[|b| - |a|..] == a
  }

  lemma {:induction false} ReportsConcat(a: seq<Event>, b: seq<Event>)
    ensures ReportsOf(a + b) == ReportsOf(a) + ReportsOf(b)
  {
    if b == [] {
      assert a + b == a;
    } else {
      ReportsConcat(a, b[..|b| - 1]);
      assert (a + b)[..|a + b| - 1] == a + b[..|b| - 1];
    }
  }

  lemma {:induction false} UpAppended(frames: seq<seq<byte>>, frame: seq<byte>)
    ensures UpMessages(frames + [frame]) == UpMessages(frames) + FrameMessage(frame)
  {
    hide FrameMessage;
    if frames == [] {
      assert [frame][1..] == [] && UpMessages([]) == [];
    } else {
      UpAppended(frames[1..], frame);
      assert (frames + [frame])[1..] == frames[1..] + [frame];
    }
  }

  lemma SuffixExtended(a: seq<Message>, b: seq<Message>, c: seq<Message>)
    requires IsSuffix(a, b)
    ensures IsSuffix(a + c, b + c)
  {
    assert (b + c)[|b| - |a|..] == b[|b| - |a|..] + c;
  }

  /** A report that is accepted goes on its way. */
  lemma ReportSent(out: Outbox, m: Message)
    requires IsEncodable(m) && !m.Hello? && out.attached && Takes(out.answers, 1)
    ensures var out' := SendReport(out, m);
            && UpMessages(out'.frames) == UpMessages(out.frames) + [m]
            && out'.attached && out'.answers == out.answers[1..]
  {
    hide EncodePacket, DecodePacket, HasProtocolMagic, IsEncodable, UpMessages, PacketOf;
    WireRoundTrip(m);
    DecodeOfEncode(m);
    CodecExactness(PacketOf(m), m);
    UpAppended(out.frames, Wire(m).value);
  }

  predicate AllEncodable(ms: seq<Message>) {
    forall m | m in ms :: IsEncodable(m) && !m.Hello?
  }

  lemma {:induction false} TakesMore(answers: seq<bool>, n: nat, k: nat)
    requires Takes(answers, n + k)
    ensures n <= |answers| && Takes(answers, n) && Takes(answers[n..], k)
  {
    if n > 0 {
      TakesMore(answers[1..], n - 1, k);
      assert answers[1..][n - 1..] == answers[n..];
    } else {
      assert answers[0..] == answers;
    }
  }

  /** A pump whose sends are all accepted puts exactly the reports of its events on their way, in order. */
  lemma {:induction false} PumpSends(out: Outbox, events: seq<Event>)
    requires AllEncodable(ReportsOf(events)) && out.attached && Takes(out.answers, |ReportsOf(events)|)
    ensures var out' := SendReports(out, events);
            && UpMessages(out'.frames) == UpMessages(out.frames) + ReportsOf(events)
            && out'.attached && |ReportsOf(events)| <= |out.answers| && out'.answers == out.answers[|ReportsOf(events)|..]
  {
    hide SendReport, UpMessages, IsEncodable;
    if events != [] {
      var (init, last) := (events[..|events| - 1], events[|events| - 1]);
      var n := |ReportsOf(init)|;
      match ReportOf(last) {
        case None =>
          PumpSends(out, init);
        case Some(m) =>
          TakesMore(out.answers, n, 1);
          assert ReportsOf(events) == ReportsOf(init) + [m];
          assert m in ReportsOf(events);
          PumpSends(out, init);
          ReportSent(SendReports(out, init), m);
          assert out.answers[n..][1..] == out.answers[n + 1..];
      }
    }
  }

  /** What a compatible client makes of a payload, when the transport takes what it says: an asset it refuses is answered,
      before anything else, with an error of reason 1 about that asset; then come the reports of all events that wait, those
      the payload brought about included; and the manager has heard the message. */
  lemma PayloadAnswered(config: CH.Configuration, c: Client, bytes: seq<byte>, m: Message)
    requires c.handshake.state == CH.ClientCompatible && c.out.attached
    requires DecodePacket(bytes) == Decoded(m) && !m.Welcome? && !m.Reject?
    requires var heard := ReceiveMessage(c.manager, m).0;
             AllEncodable(ReportsOf(heard.events)) && Takes(c.out.answers, 1 + |ReportsOf(heard.events)|)
    ensures var (heard, result) := ReceiveMessage(c.manager, m);
            var refused := m.ManifestAsset? && (result == InvalidOrder || result == InvalidManifest);
            var c' := Incoming(config, c, bytes);
            && UpMessages(c'.out.frames) ==
               UpMessages(c.out.frames) + (if refused then [AssetError(m.manifestRevision, m.asset.assetId, 1)] else [])
                                        + ReportsOf(heard.events)
            && c'.manager == heard.(events := []) && c'.handshake == c.handshake
  {
    hide ReceiveMessage, SendReport, SendReports, UpMessages, ReportsOf, AllEncodable, Takes, DecodePacket, Incoming, IsEncodable;
    var (heard, result) := ReceiveMessage(c.manager, m);
    var n := |ReportsOf(heard.events)|;
    PayloadTaken(config, c, bytes, m);
    TakesMore(c.out.answers, 1, n);
    TakesMore(c.out.answers, n, 1);
    if ComplaintAbout(m, result) == None {
      PumpSends(c.out, heard.events);
      assert UpMessages(c.out.frames) + [] == UpMessages(c.out.frames);
    } else {
      DecodedEncodable(bytes, m);
      ReportSent(c.out, ComplaintAbout(m, result).value);
      PumpSends(SendReport(c.out, ComplaintAbout(m, result).value), heard.events);
    }
  }

  lemma PayloadTaken(config: CH.Configuration, c: Client, bytes: seq<byte>, m: Message)
    requires c.handshake.state == CH.ClientCompatible
    requires DecodePacket(bytes) == Decoded(m) && !m.Welcome? && !m.Reject?
    ensures var (heard, result) := ReceiveMessage(c.manager, m);
            var out := match ComplaintAbout(m, result) case None => c.out case Some(complaint) => SendReport(c.out, complaint);
            Incoming(config, c, bytes) == Client(c.handshake, heard.(events := []), SendReports(out, heard.events))
  {
    hide ReceiveMessage, SendReport, SendReports, DecodePacket, CH.AfterPacket;
  }

  /** A decoded asset can be complained about. */
  lemma DecodedEncodable(bytes: seq<byte>, m: Message)
    requires DecodePacket(bytes) == Decoded(m) && m.ManifestAsset?
    ensures IsEncodable(AssetError(m.manifestRevision, m.asset.assetId, 1))
  {
    hide PacketOf, DecodePacket;
    EncodeOfDecode(bytes);
  }

  // The invariant.

  /** As long as a session of this connection has met nothing wrong, what it has reported so far ends the list of what the
      server has recorded and of what is still on its way. */
  ghost predicate ReportsArrive(e: Engine, published: Option<Publishing>, frames: seq<seq<byte>>) {
    published.Some? && e.sessionStamp == e.stamp && e.manager.receiver.state != Failed ==>
      IsSuffix(ReportsOf(e.history), Reports(published) + UpMessages(frames))
  }

  ghost predicate AgreementInv(setup: Setup, w: World) {
    && WorldInv(setup, w)
    && OriginInv(w.engine)
    && ReportsArrive(w.engine, w.watch.published, w.out.frames)
  }

  /** No pump of this step is refused a send. */
  predicate IsAccepted(w: World, step: Step) {
    step == PumpResults && w.handshake.state == CH.ClientCompatible ==>
      w.out.attached && Takes(w.out.answers, |ReportsOf(w.engine.manager.events)|)
  }

  lemma SameEngineArrives(e: Engine, e': Engine, published: Option<Publishing>, frames: seq<seq<byte>>)
    requires ReportsArrive(e, published, frames)
    requires e'.history == e.history && e'.stamp == e.stamp && e'.sessionStamp == e.sessionStamp
    requires e'.manager.receiver.state != Failed ==> e.manager.receiver.state != Failed
    ensures ReportsArrive(e', published, frames)
  {}

  /** What the engine's own actions do to what the invariant looks at. */
  lemma EngineActions(setup: Setup, e: Engine, a: Action)
    requires S.Inv(e)
    ensures var e' := Next(setup.hash, setup.root, e, a);
            && (!a.Drain? && !a.Reset? ==> e'.history == e.history)
            && (a.Drain? ==> e'.history == e.history + e.manager.events)
            && (a.Reset? ==> e'.history == [])
            && (!a.Reset? && e'.manager.receiver.state != Failed ==> e.manager.receiver.state != Failed)
  {
    hide EffectOf, RecordOf, HandleMessage, ReceiverAfter, QueueAssets, S.SessionInv, GenerationInv;
    if a.Hear? {
      LatchedUntilReset(e.heard, a.message);
      ReceiveKeeps(e.manager, a.message);
    }
  }

  lemma WorldEngine(setup: Setup, w: World)
    requires WorldInv(setup, w)
    ensures S.Inv(w.engine)
  {
    hide SourceInv, SessionFits, ClientHeard, DownInv, UpInv, ReportsInv, S.Inv, GateInv;
  }

  lemma EngineStepArrives(setup: Setup, w: World, step: Step)
    requires AgreementInv(setup, w) && IsFenced(w.engine)
    requires step.WorkerMoves? || step.WorkerThrows? || step.Unload?
    requires AR.Inv(w.watch.core.registry) && w.watch.player < 0x8000_0000
    ensures AgreementInv(setup, Take(setup, w, step))
  {
    hide WorldInv, OriginInv, ReportsArrive, Next, AR.Inv, S.Inv;
    WorldStep(setup, w, step);
    WorldEngine(setup, w);
    var a := match step case WorkerMoves(outcome) => Work(outcome) case WorkerThrows => Throw case _ => Stop;
    EngineActions(setup, w.engine, a);
    NextLog(setup, w.engine, a);
    StepOrigin(setup.hash, setup.root, w.engine, a);
    SameEngineArrives(w.engine, Next(setup.hash, setup.root, w.engine, a), w.watch.published, w.out.frames);
  }

  lemma EventArrives(setup: Setup, w: World, noticed: ConnectionEvent)
    requires AgreementInv(setup, w) && IsFenced(w.engine)
    requires AR.Inv(w.watch.core.registry) && w.watch.player < 0x8000_0000
    ensures AgreementInv(setup, Take(setup, w, AtClient(noticed)))
  {
    hide WorldInv, OriginInv, Next, AR.Inv, S.Inv, CH.Taken, SendBytes, UpMessages, GateInv;
    WorldStep(setup, w, AtClient(noticed));
    WorldEngine(setup, w);
    if w.out.attached {
      EngineActions(setup, w.engine, AssetEngine.Reset);
      StepOrigin(setup.hash, setup.root, w.engine, AssetEngine.Reset);
    }
  }

  /** The drained events go on their way as reports. */
  lemma PumpArrives(setup: Setup, w: World)
    requires AgreementInv(setup, w) && IsFenced(w.engine) && IsAccepted(w, PumpResults)
    requires AR.Inv(w.watch.core.registry) && w.watch.player < 0x8000_0000
    ensures AgreementInv(setup, Take(setup, w, PumpResults))
  {
    hide WorldInv, OriginInv, Next, AR.Inv, S.Inv, UpMessages, ReportsOf, SendReports, Takes, IsSuffix, Reports, GateInv;
    WorldStep(setup, w, PumpResults);
    WorldEngine(setup, w);
    if w.handshake.state == CH.ClientCompatible {
      var e := w.engine;
      EngineActions(setup, e, Drain);
      NextLog(setup, e, Drain);
      StepOrigin(setup.hash, setup.root, e, Drain);
      PendingEncodable(e);
      PumpSends(w.out, e.manager.events);
      ReportsConcat(e.history, e.manager.events);
      var (before, more) := (Reports(w.watch.published) + UpMessages(w.out.frames), ReportsOf(e.manager.events));
      if IsSuffix(ReportsOf(e.history), before) {
        SuffixExtended(ReportsOf(e.history), before, more);
        assert before + more == Reports(w.watch.published) + (UpMessages(w.out.frames) + more);
      }
    }
  }

  lemma PendingEncodable(e: Engine)
    requires S.Inv(e) && OriginInv(e)
    ensures AllEncodable(ReportsOf(e.manager.events))
  {
    hide GenerationInv, S.SessionInv, ReceiverAfter, IsManifest, EventFits, IsEncodable;
    CompletedIsManifest(e.heard);
    forall event | event in e.manager.events && ReportOf(event).Some?
      ensures IsEncodable(ReportOf(event).value)
    {
      assert event in Trace(e);
      FittingEncodable(e, event);
    }
    EventsEncodable(e.manager.events);
  }

  lemma FittingEncodable(e: Engine, event: Event)
    requires EventFits(e, event) && ReportOf(event).Some?
    requires e.manager.receiver.completed.Some? ==> IsManifest(e.manager.receiver.completed.value)
    ensures IsEncodable(ReportOf(event).value)
  {
    var m := e.manager.receiver.completed.value;
    var asset :| asset in m.assets && asset.assetId == event.assetId;
  }

  lemma {:induction false} EventsEncodable(events: seq<Event>)
    requires forall event | event in events && ReportOf(event).Some? :: IsEncodable(ReportOf(event).value)
    ensures AllEncodable(ReportsOf(events))
  {
    hide IsEncodable;
    if events != [] {
      EventsEncodable(events[..|events| - 1]);
      assert events[|events| - 1] in events;
    }
  }

  /** A frame comes down: only a receiver that has failed makes the client complain. */
  lemma DownArrivesStep(setup: Setup, w: World)
    requires AgreementInv(setup, w) && IsFenced(w.engine)
    requires AR.Inv(w.watch.core.registry) && w.watch.player < 0x8000_0000
    ensures AgreementInv(setup, Take(setup, w, DownArrives))
  {
    hide WorldInv, OriginInv, Next, AR.Inv, S.Inv, UpMessages, ReportsOf, IsSuffix, Reports, Inspect, DecodePacket,
         ReceiveMessage, SendReport, CH.AfterPacket, GateInv;
    WorldStep(setup, w, DownArrives);
    WorldEngine(setup, w);
    if w.down != [] && Inspect(w.down[0]).CustomModel? {
      match AssetInput(ClientOf(w), Inspect(w.down[0]).protocolBytes) {
        case None =>
        case Some(m) =>
          EngineActions(setup, w.engine, Hear(m));
          NextLog(setup, w.engine, Hear(m));
          StepOrigin(setup.hash, setup.root, w.engine, Hear(m));
          ComplaintMeansFailed(setup, w.engine, m);
      }
    }
  }

  lemma ComplaintMeansFailed(setup: Setup, e: Engine, m: Message)
    ensures ComplaintAbout(m, ReceiveMessage(e.manager, m).1).Some? ==>
              Next(setup.hash, setup.root, e, Hear(m)).manager.receiver.state == Failed
  {
    hide IsDescriptionValid, QueueAssets, SerializedAssetBytes, TotalSize;
    ReceiveKeeps(e.manager, m);
  }

  // The server's steps.

  /** What an event that is not the player's own input leaves of its publication. */
  lemma OthersKeepReports(policy: PC.HandshakePolicy, w: Watch, event: ServerEvent)
    requires GateInv(policy, w) && !(event.Sends? && event.player == w.player)
    ensures AR.Inv(w.core.registry)
    ensures WatchStep(policy, w, event).published == if EndsConnection(w, event) then None else w.published
  {
    hide PC.Inv, AR.Inv, TalkInv, PlayerInv, CoreStep, TalkTo;
  }

  lemma ServerArrives(setup: Setup, w: World, event: ServerEvent)
    requires AgreementInv(setup, w) && IsFenced(w.engine) && !IsOwnInput(w, event)
    requires AR.Inv(w.watch.core.registry) && w.watch.player < 0x8000_0000
    ensures AgreementInv(setup, Take(setup, w, AtServer(event)))
  {
    hide WorldInv, OriginInv, Next, AR.Inv, S.Inv, UpMessages, ReportsOf, IsSuffix, WatchStep, GateInv, NewFrames;
    WorldStep(setup, w, AtServer(event));
    WorldEngine(setup, w);
    WorldGate(setup, w);
    OthersKeepReports(setup.policy, w.watch, event);
    if BreaksOff(w, event) {
      StepOrigin(setup.hash, setup.root, w.engine, Tick);
    }
  }

  lemma WorldGate(setup: Setup, w: World)
    requires WorldInv(setup, w)
    ensures GateInv(setup.policy, w.watch) && AR.Inv(w.watch.core.registry) && w.watch.player < 0x8000_0000
  {
    hide EngineInv, SessionFits, ClientHeard, DownInv, UpInv, ReportsInv, PC.Inv, AR.Inv, PlayerInv, TalkInv;
  }

  /** The player's own inputs: a report is kept while something is published, a Hello may publish, the rest changes nothing. */
  lemma OwnReports(policy: PC.HandshakePolicy, w: Watch, stream: BitStream)
    requires GateInv(policy, w) && w.player < 0x8000_0000
    ensures AR.Inv(w.core.registry)
    ensures var (now, then') := (w.published, WatchStep(policy, w, Sends(w.player, stream)).published);
            match VerdictOf(w.player, stream)
            case OtherInput(m) =>
              && (then'.Some? <==> now.Some?)
              && (now.Some? ==> Reports(then') == Reports(now) + [m])
            case HelloInput(_) => then' == now || (now == None && Reports(then') == [])
            case _ => then' == now
  {
    hide PC.Inv, AR.Inv, TalkInv, PlayerInv, CoreStep, TalkTo, HE.DispatchPayload, VerdictOf, AR.BuildManifest;
    WaitingUnpublished(policy, w);
  }

  /** Before anything was published a session of this connection has nothing to report. */
  lemma NothingReported(setup: Setup, w: World)
    requires WorldInv(setup, w) && OriginInv(w.engine)
    requires w.source == None && w.engine.sessionStamp == w.engine.stamp
    ensures ReportsOf(w.engine.history) == []
  {
    hide SourceInv, SessionFits, DownInv, UpInv, ReportsInv, EventFits, HeardTold, GenerationInv, S.SessionInv, T.TruthInv,
         ReceiverAfter;
    CompletedIsTold(Told(w.source), w.engine.heard);
    forall event | event in w.engine.history
      ensures ReportOf(event) == None
    {
      assert event in Trace(w.engine);
      FitsNothing(w.engine, event);
    }
    NoReportsOf(w.engine.history);
  }

  lemma FitsNothing(e: Engine, event: Event)
    requires EventFits(e, event) && e.manager.receiver.completed == None
    ensures ReportOf(event) == None
  {}

  lemma {:induction false} NoReportsOf(events: seq<Event>)
    requires forall event | event in events :: ReportOf(event) == None
    ensures ReportsOf(events) == []
  {
    if events != [] {
      NoReportsOf(events[..|events| - 1]);
    }
  }

  lemma UnpublishedSource(setup: Setup, w: World, stream: BitStream)
    requires WorldInv(setup, w) && w.watch.published == None
    requires AR.Inv(w.watch.core.registry)
    ensures WatchStep(setup.policy, w.watch, Sends(w.watch.player, stream)).published.Some? && w.watch.player < 0x8000_0000 ==>
              w.source == None
  {
    hide EngineInv, SessionFits, ClientHeard, DownInv, UpInv, ReportsInv, GateInv, AR.Inv, CoreStep, TalkTo, HE.DispatchPayload,
         VerdictOf, AR.BuildManifest;
  }

  /** What a frame says moves from the way to the record; and a publication starts with nothing to carry over. */
  lemma CarriesOver(e: Engine, now: Option<Publishing>, then': Option<Publishing>, frames: seq<seq<byte>>)
    requires frames != [] && ReportsArrive(e, now, frames)
    requires now.Some? && then'.Some? ==> Reports(then') == Reports(now) + FrameMessage(frames[0])
    requires now == None && then'.Some? && e.sessionStamp == e.stamp ==> ReportsOf(e.history) == []
    ensures ReportsArrive(e, then', frames[1..])
  {
    hide ReportsOf, IsSuffix, FrameMessage, Reports;
    var (said, more) := (FrameMessage(frames[0]), UpMessages(frames[1..]));
    assert UpMessages(frames) == said + more;
    if now.Some? {
      assert Reports(now) + (said + more) == Reports(now) + said + more;
    } else {
      EmptySuffix(Reports(then') + more);
    }
  }

  /** The first frame on its way up is used up. */
  lemma UpArrivesStep(setup: Setup, w: World)
    requires AgreementInv(setup, w) && IsFenced(w.engine)
    requires AR.Inv(w.watch.core.registry) && w.watch.player < 0x8000_0000
    ensures AgreementInv(setup, Take(setup, w, UpArrives))
  {
    hide WorldInv, OriginInv, ReportsArrive, AR.Inv, S.Inv, ReportsOf, WatchStep, GateInv, NewFrames, Deliver, VerdictOf,
         StreamOfFrame, Reports;
    WorldStep(setup, w, UpArrives);
    WorldGate(setup, w);
    if w.out.frames != [] {
      var frame := w.out.frames[0];
      FrameCarried(setup, w);
      FrameVerdict(w.watch.player, frame);
      ArrivalReports(setup, w, StreamOfFrame(frame), FrameMessage(frame));
      var then' := WatchStep(setup.policy, w.watch, Sends(w.watch.player, StreamOfFrame(frame))).published;
      CarriesOver(w.engine, w.watch.published, then', w.out.frames);
    }
  }

  /** The player's input against the publication, with what it says. */
  lemma ArrivalReports(setup: Setup, w: World, stream: BitStream, said: seq<Message>)
    requires WorldInv(setup, w) && OriginInv(w.engine)
    requires AR.Inv(w.watch.core.registry) && w.watch.player < 0x8000_0000
    requires said == match VerdictOf(w.watch.player, stream) case OtherInput(m) => [m] case _ => []
    ensures var (now, then') := (w.watch.published, WatchStep(setup.policy, w.watch, Sends(w.watch.player, stream)).published);
            && (now.Some? && then'.Some? ==> Reports(then') == Reports(now) + said)
            && (now == None && then'.Some? && w.engine.sessionStamp == w.engine.stamp ==> ReportsOf(w.engine.history) == [])
  {
    hide WorldInv, OriginInv, AR.Inv, ReportsOf, WatchStep, GateInv, VerdictOf, Reports;
    WorldGate(setup, w);
    OwnReports(setup.policy, w.watch, stream);
    var now := w.watch.published;
    assert Reports(now) + [] == Reports(now);
    if now == None && w.engine.sessionStamp == w.engine.stamp {
      UnpublishedSource(setup, w, stream);
      if w.source == None {
        NothingReported(setup, w);
      }
    }
  }

  lemma EmptySuffix(b: seq<Message>)
    ensures IsSuffix([], b)
  {}

  lemma FrameCarried(setup: Setup, w: World)
    requires WorldInv(setup, w) && w.out.frames != []
    ensures IsCarried(w.out.frames[0])
  {
    hide SourceInv, EngineInv, SessionFits, ClientHeard, DownInv, ReportsInv, ReadyFrameOk, IsCarried;
    assert w.out.frames[0] in w.out.frames;
  }

  lemma AgreementStep(setup: Setup, w: World, step: Step)
    requires AgreementInv(setup, w) && IsFenced(w.engine) && IsAccepted(w, step)
    ensures AR.Inv(w.watch.core.registry) && w.watch.player < 0x8000_0000
    ensures AgreementInv(setup, Take(setup, w, step))
  {
    hide AgreementInv, WorldInv, Take, AR.Inv, IsAccepted;
    AgreementWorld(setup, w);
    WorldFacts(setup, w);
    match step {
      case AtServer(event) =>
        if IsOwnInput(w, event) {
          OwnInputWaits(setup, w, event);
        } else {
          ServerArrives(setup, w, event);
        }
      case UpArrives => UpArrivesStep(setup, w);
      case DownArrives => DownArrivesStep(setup, w);
      case AtClient(noticed) => EventArrives(setup, w, noticed);
      case PumpResults => PumpArrives(setup, w);
      case _ => EngineStepArrives(setup, w, step);
    }
  }

  lemma AgreementWorld(setup: Setup, w: World)
    requires AgreementInv(setup, w)
    ensures WorldInv(setup, w)
  {}

  lemma OwnInputWaits(setup: Setup, w: World, event: ServerEvent)
    requires IsOwnInput(w, event) && AR.Inv(w.watch.core.registry) && w.watch.player < 0x8000_0000
    ensures Take(setup, w, AtServer(event)) == w
  {
    hide AR.Inv, ServerActs;
  }

  // What the last report about an asset says.

  /** The events about an asset, once finished, end in the report the server is to go by. */
  lemma {:induction false} FinalReport(trace: seq<Event>, id: u32, revision: u64, throws: bool)
    requires forall event | event in trace && ReportOf(event).Some? :: event.manifestRevision == revision
    ensures var (phase, last) := (S.PhaseOf(trace, id, throws), AP.LastReport(revision, id, ReportsOf(trace)));
            && (phase == S.Finished(true) ==> last == AP.ReadyReport)
            && (phase == S.Finished(false) ==> last.ErrorReport?)
  {
    hide AP.LastReport, S.Advance;
    if trace != [] {
      var (init, event) := (trace[..|trace| - 1], trace[|trace| - 1]);
      FinalReport(init, id, revision, throws);
      FinishedBy(S.PhaseOf(init, id, throws), event.kind, throws);
      assert event in trace;
      match ReportOf(event) {
        case None => assert ReportsOf(init) + [] == ReportsOf(init);
        case Some(m) => LastOf(revision, id, ReportsOf(init), m);
      }
    }
  }

  lemma FinishedBy(phase: S.Phase, kind: EventKind, throws: bool)
    ensures S.Advance(phase, kind, throws) == S.Finished(true) ==> kind == ReadyEvent
    ensures S.Advance(phase, kind, throws) == S.Finished(false) ==> kind == FailedEvent
  {}

  lemma LastOf(revision: u64, id: u32, ms: seq<Message>, m: Message)
    ensures AP.LastReport(revision, id, ms + [m]) ==
            if m == AssetReady(revision, id) then AP.ReadyReport
            else if m.AssetError? && m.manifestRevision == revision && m.assetId == id then AP.ErrorReport(m.reason)
            else AP.LastReport(revision, id, ms)
  {
    assert (ms + [m])[..|ms|] == ms;
  }

  lemma {:induction false} LastOfConcat(revision: u64, id: u32, a: seq<Message>, b: seq<Message>)
    ensures AP.LastReport(revision, id, a + b) ==
            if AP.LastReport(revision, id, b) != AP.NoReport then AP.LastReport(revision, id, b) else AP.LastReport(revision, id, a)
  {
    if b == [] {
      assert a + b == a;
    } else {
      var (init, m) := (b[..|b| - 1], b[|b| - 1]);
      LastOfConcat(revision, id, a, init);
      LastOf(revision, id, a + init, m);
      LastOf(revision, id, init, m);
      assert a + b == a + init + [m] && b == init + [m];
    }
  }

  /** Nothing is left to do or on its way: the manifest was sent and completed in a session of this connection, the
      worker is through, everything it had to say was pumped, and every frame going up has arrived. */
  predicate IsSettled(w: World) {
    && w.watch.published.Some? && w.watch.player in w.watch.core.assets
    && AP.IsPublished(w.watch.core.assets[w.watch.player])
    && w.engine.sessionStamp == w.engine.stamp && w.engine.manager.receiver.state == Complete
    && w.engine.worker == Waiting && w.engine.manager.queue == [] && !w.engine.manager.stopping
    && w.engine.manager.events == [] && w.out.frames == []
  }

  lemma SettledManifest(setup: Setup, w: World)
    requires AgreementInv(setup, w) && IsSettled(w)
    ensures w.engine.manager.receiver.completed == Some(w.watch.published.value.manifest)
    ensures S.Inv(w.engine)
  {
    hide OriginInv, DownInv, UpInv, ReportsInv, GenerationInv, S.SessionInv, T.TruthInv, ReceiverAfter, HeardTold, GateInv, ReportsArrive;
    CompletedIsTold(Told(w.source), w.engine.heard);
    RunDescribed(w.engine.heard);
  }

  lemma SettledHistory(setup: Setup, w: World)
    requires AgreementInv(setup, w) && IsSettled(w)
    ensures Trace(w.engine) == w.engine.history
    ensures IsSuffix(ReportsOf(w.engine.history), Reports(w.watch.published))
    ensures forall event | event in w.engine.history && ReportOf(event).Some? ::
              event.manifestRevision == w.watch.published.value.manifest.revision
  {
    hide WorldInv, ReportsOf, IsSuffix;
    SettledManifest(setup, w);
    assert w.engine.history + [] == w.engine.history;
    var reports := Reports(w.watch.published);
    assert reports + [] == reports;
    forall event | event in w.engine.history && ReportOf(event).Some?
      ensures event.manifestRevision == w.watch.published.value.manifest.revision
    {
      assert event in Trace(w.engine);
      assert EventFits(w.engine, event);
    }
  }

  /** One settled world: asset by asset, the server has on record what the client's table shows. */
  lemma SettledAsset(setup: Setup, w: World, id: u32)
    requires AgreementInv(setup, w) && IsSettled(w)
    requires id in IdsOf(w.watch.published.value.manifest.assets)
    ensures var x := w.watch.published.value;
            && (StateIn(w.engine.manager, id) == Ready <==> AP.LastReport(x.manifest.revision, id, x.reports) == AP.ReadyReport)
            && (StateIn(w.engine.manager, id) == AssetFailed <==> AP.LastReport(x.manifest.revision, id, x.reports).ErrorReport?)
            && (StateIn(w.engine.manager, id) == Ready || StateIn(w.engine.manager, id) == AssetFailed)
  {
    hide AgreementInv, S.Inv, ReportsOf, AP.LastReport, S.PhaseOf, Trace;
    SettledManifest(setup, w);
    SettledHistory(setup, w);
    var (e, x) := (w.engine, w.watch.published.value);
    var asset :| asset in x.manifest.assets && asset.assetId == id;
    S.AllFinished(e);
    PhaseShown(e, id);
    FinalReport(e.history, id, x.manifest.revision, e.throws);
    var said := ReportsOf(e.history);
    assert x.reports == x.reports[..|x.reports| - |said|] + said;
    LastOfConcat(x.manifest.revision, id, x.reports[..|x.reports| - |said|], said);
  }

  lemma PhaseShown(e: Engine, id: u32)
    requires S.Inv(e) && e.manager.receiver.completed.Some? && id in IdsOf(e.manager.receiver.completed.value.assets)
    ensures StateIn(e.manager, id) == S.StateOf(S.PhaseOf(Trace(e), id, e.throws))
  {
    hide GenerationInv, ReceiverAfter, IsManifest, S.PhaseOf, Trace, S.QueueInv;
    var m := e.manager.receiver.completed.value;
    var i :| 0 <= i < |m.assets| && m.assets[i].assetId == id;
    assert S.AssetInv(e, m, i);
  }

  lemma {:induction false} RunKeepsAgreement(setup: Setup, worlds: seq<World>, steps: seq<Step>, n: nat)
    requires IsRun(setup, worlds, steps) && IsFencedRun(worlds) && n <= |steps|
    requires forall i | 0 <= i < |steps| :: IsAccepted(worlds[i], steps[i])
    requires AgreementInv(setup, worlds[0])
    ensures AgreementInv(setup, worlds[n])
  {
    hide AgreementInv, Take, IsFenced, AR.Inv, IsAccepted;
    if n > 0 {
      RunKeepsAgreement(setup, worlds, steps, n - 1);
      AgreementStep(setup, worlds[n - 1], steps[n - 1]);
    }
  }

  lemma InitialAgreement(setup: Setup, policy: PC.HandshakePolicy, w: World)
    requires IsInitial(setup, policy, w)
    ensures AgreementInv(setup, w)
  {
    hide WorldInv, AR.Inv;
    InitialInv(setup, policy, w);
    NothingSaid(w.engine.files, w.engine.throws);
  }

  /** Settled agreement. On every run on which no report was refused by the client's transport, whatever else happened
      (lost Hellos, refused frames of the server, reconnections, failed downloads, exceptions, other players): once
      everything is settled, the server's ready assets are exactly the expected ones the client has ready, its failed
      assets exactly those the client gave up, together they are all of them, and the player's session is ready exactly
      when every asset is. */
  lemma SettledSidesAgree(setup: Setup, policy: PC.HandshakePolicy, worlds: seq<World>, steps: seq<Step>)
    requires IsRun(setup, worlds, steps) && IsFencedRun(worlds) && IsInitial(setup, policy, worlds[0])
    requires forall i | 0 <= i < |steps| :: IsAccepted(worlds[i], steps[i])
    ensures var w := worlds[|steps|];
            IsSettled(w) ==>
              var (p, shown) := (w.watch.core.assets[w.watch.player], w.engine.manager);
              && shown.receiver.completed == Some(w.watch.published.value.manifest)
              && p.expected == IdsOf(w.watch.published.value.manifest.assets)
              && p.ready == (set id | id in p.expected && StateIn(shown, id) == Ready)
              && p.failed.Keys == (set id | id in p.expected && StateIn(shown, id) == AssetFailed)
              && p.ready + p.failed.Keys == p.expected
              && (p.state == AP.SessionReady <==> forall id | id in p.expected :: StateIn(shown, id) == Ready)
  {
    hide AgreementInv, Take, IsFenced, AR.Inv, IsAccepted, IsInitial, IdsOf;
    InitialAgreement(setup, policy, worlds[0]);
    RunKeepsAgreement(setup, worlds, steps, |steps|);
    var w := worlds[|steps|];
    if IsSettled(w) {
      SettledRecord(setup, w);
      SettledManifest(setup, w);
      var x := w.watch.published.value;
      forall id | id in IdsOf(x.manifest.assets)
        ensures StateIn(w.engine.manager, id) == Ready <==> AP.LastReport(x.manifest.revision, id, x.reports) == AP.ReadyReport
        ensures StateIn(w.engine.manager, id) == AssetFailed <==> AP.LastReport(x.manifest.revision, id, x.reports).ErrorReport?
        ensures StateIn(w.engine.manager, id) == Ready || StateIn(w.engine.manager, id) == AssetFailed
      {
        SettledAsset(setup, w, id);
      }
    }
  }

  lemma SettledRecord(setup: Setup, w: World)
    requires AgreementInv(setup, w) && IsSettled(w)
    ensures var (p, x) := (w.watch.core.assets[w.watch.player], w.watch.published.value);
            && p.expected == IdsOf(x.manifest.assets)
            && p.ready == (set id | id in p.expected && AP.LastReport(x.manifest.revision, id, x.reports) == AP.ReadyReport)
            && p.failed.Keys == (set id | id in p.expected && AP.LastReport(x.manifest.revision, id, x.reports).ErrorReport?)
            && (p.state == AP.SessionReady <==> p.ready == p.expected)
  {
    hide EngineInv, SessionFits, ClientHeard, DownInv, UpInv, ReportsInv, OriginInv, ReportsArrive, PC.Inv, AR.Inv, TalkInv,
         IsManifest, StreamOf, Takes, IdsOf, AP.LastReport, AP.AfterMessages, AR.BuildManifest;
    var x := w.watch.published.value;
    AP.LastReportWins(x.manifest, x.reports);
  }
}
