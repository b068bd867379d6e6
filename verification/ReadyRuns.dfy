/** The end is reachable: from any loaded registry a run leads to a player whose every asset is ready at the server. */
module ReadyRuns {
  import opened Bytes
  import opened Assets
  import opened Protocol
  import opened ProtocolExactness
  import opened ManifestStream
  import opened TransportFrame
  import opened ServerTransport
  import opened ServerComponent
  import opened PublicationGate
  import opened AssetCache
  import opened AssetManager
  import opened AssetEngine
  import opened GenerationFence
  import opened SessionOrigin
  import opened ClientRuntime
  import opened EndToEnd
  import opened TruthfulReadiness
  import opened SettledAgreement
  import opened CacheRefinement
  import S = AssetSession
  import T = AssetTruth
  import CH = ClientHandshake
  import PC = PlayerCapabilities
  import HE = HandshakeEndpoint
  import HA = HandshakeAgreement
  import AP = AssetPublication
  import AR = AssetRegistry
  import MC = ManifestConfig

  /** The steps lead from one world to another, with no item overtaken and no report refused. */
  ghost predicate Leads(setup: Setup, w0: World, steps: seq<Step>, w: World) {
    exists worlds ::
      && IsRun(setup, worlds, steps) && IsFencedRun(worlds)
      && worlds[0] == w0 && worlds[|steps|] == w
      && forall i | 0 <= i < |steps| :: IsAccepted(worlds[i], steps[i])
  }

  lemma LeadsNowhere(setup: Setup, w: World)
    requires IsFenced(w.engine)
    ensures Leads(setup, w, [], w)
  {
    assert IsRun(setup, [w], []) && IsFencedRun([w]);
  }

  lemma LeadsOn(setup: Setup, w0: World, steps: seq<Step>, w: World, step: Step)
    requires Leads(setup, w0, steps, w) && IsAccepted(w, step)
    requires AR.Inv(w.watch.core.registry) && w.watch.player < 0x8000_0000
    requires IsFenced(Take(setup, w, step).engine)
    ensures Leads(setup, w0, steps + [step], Take(setup, w, step))
  {
    hide AR.Inv, Take, IsAccepted, IsFenced;
    var w' := Take(setup, w, step);
    var worlds :| IsRun(setup, worlds, steps) && IsFencedRun(worlds) && worlds[0] == w0 && worlds[|steps|] == w
                  && forall i | 0 <= i < |steps| :: IsAccepted(worlds[i], steps[i]);
    var worlds' := worlds + [w'];
    assert IsRun(setup, worlds', steps + [step]) && IsFencedRun(worlds');
  }

  lemma LeadsKeeps(setup: Setup, w0: World, steps: seq<Step>, w: World)
    requires Leads(setup, w0, steps, w) && AgreementInv(setup, w0)
    ensures AgreementInv(setup, w) && WorldInv(setup, w) && IsFenced(w.engine)
    ensures AR.Inv(w.watch.core.registry) && w.watch.player < 0x8000_0000
    ensures S.Inv(w.engine) && GateInv(setup.policy, w.watch)
  {
    hide AR.Inv, Take, IsAccepted, IsFenced, AgreementInv, WorldInv, S.Inv, GateInv;
    var worlds :| IsRun(setup, worlds, steps) && IsFencedRun(worlds) && worlds[0] == w0 && worlds[|steps|] == w
                  && forall i | 0 <= i < |steps| :: IsAccepted(worlds[i], steps[i]);
    RunKeepsAgreement(setup, worlds, steps, |steps|);
    AgreementWorld(setup, w);
    WorldGate(setup, w);
    WorldEngine(setup, w);
  }

  /** The frames deliver these messages, one each. */
  predicate Delivers(frames: seq<seq<byte>>, ms: seq<Message>) {
    |frames| == |ms| && forall i | 0 <= i < |ms| :: Deliver(frames[i]) == Some(ms[i])
  }

  // The server's frames.

  lemma {:induction false} SentFrames(before: seq<Attempt>, t: Line, playerId: u32, ms: seq<Message>)
    requires forall m | m in ms :: IsEncodable(m)
    requires Takes(t.answers, |ms|) && |before| <= |t.attempts|
    ensures var t' := SendAll(t, playerId, ms).0;
            && |before| <= |t'.attempts|
            && SendAll(t, playerId, ms).1
            && |NewFrames(before, t'.attempts, playerId)| == |NewFrames(before, t.attempts, playerId)| + |ms|
            && NewFrames(before, t'.attempts, playerId)[..|NewFrames(before, t.attempts, playerId)|] == NewFrames(before, t.attempts, playerId)
            && Delivers(NewFrames(before, t'.attempts, playerId)[|NewFrames(before, t.attempts, playerId)|..], ms)
    decreases ms
  {
    hide IsEncodable, Deliver, Wire;
    if ms != [] {
      assert ms[0] in ms;
      WireRoundTrip(ms[0]);
      var t1 := SendMessage(t, playerId, ms[0]).0;
      var (k, frame) := (NewFrames(before, t.attempts, playerId), Wire(ms[0]).value);
      assert t1.attempts[..|t1.attempts| - 1] == t.attempts;
      assert NewFrames(before, t1.attempts, playerId) == k + [frame];
      SentFrames(before, t1, playerId, ms[1..]);
      var all := NewFrames(before, SendAll(t1, playerId, ms[1..]).0.attempts, playerId);
      assert all[..|k|] == all[..|k| + 1][..|k|];
      assert all[|k|] == all[..|k| + 1][|k|];
      assert all[|k|..] == [frame] + all[|k| + 1..];
    }
  }

  lemma {:induction false} NoNewFrames(attempts: seq<Attempt>, playerId: u32)
    ensures NewFrames(attempts, attempts, playerId) == []
  {}

  // The handshake: Hello is under way before the server sees the player connect.

  /** Some bytes have the announced size and digest: the asset can be had at all. */
  ghost predicate IsObtainable(hash: Hash, asset: AssetDescription) {
    exists data: seq<byte> :: |data| == asset.fileSize && hash(data) == asset.sha256
  }

  /** A client the server takes, two transports that take what they are given, and assets that exist. The client's disk may
      hold anything. */
  ghost predicate IsPromising(setup: Setup, w: World)
    requires AR.Inv(w.watch.core.registry)
  {
    var m := AR.BuildManifest(w.watch.core.registry);
    && setup.config.sampVersion <= R4_FAMILY && AreCapabilitiesValid(setup.config.capabilities)
    && PC.Objection(setup.policy, CH.HelloOf(setup.config)) == None
    && Takes(w.watch.core.line.answers, 3 + |m.assets|)
    && Takes(w.out.answers, 1 + |m.assets|)
    && forall asset | asset in m.assets :: IsObtainable(setup.hash, asset)
  }

  lemma HelloGoes(setup: Setup, policy: PC.HandshakePolicy, w: World)
    requires IsInitial(setup, policy, w) && IsPromising(setup, w)
    ensures var w' := Take(setup, w, AtClient(ConnectedEvent));
            && w'.handshake == CH.Handshake(CH.HelloSent, None, None)
            && Delivers(w'.out.frames, [CH.HelloOf(setup.config)])
            && w'.out.attached && w'.out.answers == w.out.answers[1..]
            && w' == w.(handshake := w'.handshake, out := w'.out, engine := Next(setup.hash, setup.root, w.engine, AssetEngine.Reset))
  {
    hide AR.Inv, AR.BuildManifest, DecodePacket, PC.Objection, HasProtocolMagic, EncodePacket, AreCapabilitiesValid, IsEncodable, Next,
         AfterReset;
    HA.HelloTravels(setup.config);
    HelloFrame(setup.config, w.out);
    var hello := CH.Taken(setup.config, CH.AfterConnected(CH.UNCONNECTED)).1.value;
    assert Encode(hello).Some?;
  }

  /** The server sees the player connect, with the Hello already on its way. */
  lemma PlayerConnects(setup: Setup, w: World)
    requires AR.Inv(w.watch.core.registry) && w.watch.player < 0x8000_0000
    requires w.source == None && w.watch.player !in w.watch.core.assets && w.down == []
    ensures var (w', p) := (Take(setup, w, AtServer(Connects(w.watch.player))), w.watch.player);
            && w'.engine == w.engine && w'.handshake == w.handshake && w'.out == w.out && w'.down == [] && w'.source == None
            && w'.watch.core == Core(PC.Begin(w.watch.core.tracker, p), w.watch.core.assets[p := AP.PENDING],
                                     w.watch.core.registry, w.watch.core.line)
            && w'.watch.player == p && w'.watch.published == None
  {
    hide AR.Inv, TalkTo, NewFrames;
    NoNewFrames(w.watch.core.line.attempts, w.watch.player);
  }

  /** The server welcomes a waiting player it has nothing against. */
  lemma Welcomes(policy: PC.HandshakePolicy, config: CH.Configuration, s: Core, p: u32, bytes: seq<byte>)
    requires PC.Inv(policy, s.tracker) && HasProtocolMagic(bytes) && |bytes| <= MAXIMUM_PACKET_SIZE
    requires DecodePacket(bytes) == Decoded(CH.HelloOf(config)) && PC.Objection(policy, CH.HelloOf(config)) == None
    requires p in s.tracker && s.tracker[p] == PC.PENDING
    ensures var (o, (t', ok)) := (HE.DispatchPayload(policy, s.tracker, s.line, p, bytes),
                                  SendMessage(s.line, p, HA.Answer(config, policy)));
            o.line == t' && (ok ==> o.result == HE.WelcomeSent)
  {
    hide PC.Inv, DecodePacket, PC.Objection, HasProtocolMagic, BitAnd, SendMessage;
  }

  /** The Welcome and the whole stream reach the wire. */
  lemma GreetingSent(t: Line, p: u32, welcome: Message, m: Manifest)
    requires IsEncodable(welcome) && IsManifest(m) && |m.assets| <= MAXIMUM_ASSETS_PER_MANIFEST
    requires Takes(t.answers, 3 + |m.assets|)
    ensures var (t1, ok) := SendMessage(t, p, welcome);
            && ok && Takes(t1.answers, |StreamOf(m)|) && SendAll(t1, p, StreamOf(m)).1
            && Delivers(NewFrames(t.attempts, SendAll(t1, p, StreamOf(m)).0.attempts, p), [welcome] + StreamOf(m))
  {
    hide IsEncodable, Wire, IsManifest, SendMessage, Deliver, StreamOf, TalkTo, NewFrames, Delivers;
    var stream := StreamOf(m);
    AP.StreamPieces(m);
    AP.StreamEncodable(m);
    SendMessageTalk(t, p, welcome, p);
    var t1 := SendMessage(t, p, welcome).0;
    SendAllTalk(t1, p, stream, p);
    assert ([welcome] + stream)[1..] == stream;
    AP.SendAllStep(t, p, [welcome] + stream);
    NoNewFrames(t.attempts, p);
    SentFrames(t.attempts, t, p, [welcome] + stream);
    var all := NewFrames(t.attempts, SendAll(t1, p, stream).0.attempts, p);
    assert all[0..] == all;
  }

  /** What the server does with the Hello, in one piece. */
  lemma Greets(policy: PC.HandshakePolicy, config: CH.Configuration, s: Core, p: u32, bytes: seq<byte>)
    requires AR.Inv(s.registry) && PC.Inv(policy, s.tracker) && HasProtocolMagic(bytes) && |bytes| <= MAXIMUM_PACKET_SIZE
    requires DecodePacket(bytes) == Decoded(CH.HelloOf(config)) && PC.Objection(policy, CH.HelloOf(config)) == None
    requires p in s.tracker && s.tracker[p] == PC.PENDING && p in s.assets && s.assets[p] == AP.PENDING
    requires Takes(s.line.answers, 3 + |AR.BuildManifest(s.registry).assets|)
    ensures var (m, o, s') := (AR.BuildManifest(s.registry), HE.DispatchPayload(policy, s.tracker, s.line, p, bytes),
                               Greeted(policy, s, p, bytes));
            && |m.assets| <= MAXIMUM_ASSETS_PER_MANIFEST && IsManifest(m)
            && o.result == HE.WelcomeSent && Takes(o.line.answers, |StreamOf(m)|)
            && s'.assets == s.assets[p := AP.AfterSending(m, true)]
            && Delivers(NewFrames(s.line.attempts, s'.line.attempts, p), [HA.Answer(config, policy)] + StreamOf(m))
  {
    hide AR.Inv, PC.Inv, DecodePacket, AR.BuildManifest, PC.Objection, NewFrames, StreamOf, IsEncodable, AP.AfterSending,
         AreCapabilitiesValid, HasProtocolMagic, IsManifest, SendMessage, SendAll, Delivers, HE.DispatchPayload, HA.Answer, Takes;
    AR.PublishedSize(s.registry);
    AR.ManifestOfRegistry(s.registry);
    var m := AR.BuildManifest(s.registry);
    BuildSize(s.registry);
    PolicyValid(policy, s.tracker);
    HA.AnswerEncodable(config, policy);
    Welcomes(policy, config, s, p, bytes);
    GreetingSent(s.line, p, HA.Answer(config, policy), m);
  }

  lemma PolicyValid(policy: PC.HandshakePolicy, players: PC.Players)
    requires PC.Inv(policy, players)
    ensures AreCapabilitiesValid(policy.serverCapabilities)
  {}

  lemma DeliveredFrame(player: u32, frame: seq<byte>, m: Message)
    requires Deliver(frame) == Some(m) && player < 0x8000_0000
    ensures frame != [] && Inspect(frame) == CustomModel(frame[1..])
    ensures HasProtocolMagic(frame[1..]) && DecodePacket(frame[1..]) == Decoded(m) && |frame[1..]| <= MAXIMUM_PACKET_SIZE
    ensures VerdictOf(player, StreamOfFrame(frame)) == if m.Hello? then HelloInput(m) else OtherInput(m)
  {
    hide DecodePacket;
    FrameVerdict(player, frame);
    DecodedHeader(frame[1..]);
  }

  /** The world after the server has answered the Hello. */
  ghost predicate IsAnswered(setup: Setup, w: World, w': World, m: Manifest)
    requires |m.assets| <= MAXIMUM_ASSETS_PER_MANIFEST
  {
    && w'.engine == w.engine && w'.handshake == w.handshake && w'.out == w.out.(frames := [])
    && w'.watch.player == w.watch.player && w'.watch.player in w'.watch.core.assets
    && IsSentTo(w'.watch, m)
    && Delivers(w'.down, [HA.Answer(setup.config, setup.policy)] + StreamOf(m))
  }

  /** The manifest was published to the watched player, all of it taken by the transport. */
  predicate IsSentTo(w: Watch, m: Manifest)
    requires |m.assets| <= MAXIMUM_ASSETS_PER_MANIFEST
  {
    && w.published.Some? && w.published.value.manifest == m
    && Takes(w.published.value.answers, |StreamOf(m)|)
  }

  lemma HelloArrives(setup: Setup, w: World)
    requires AR.Inv(w.watch.core.registry) && w.watch.player < 0x8000_0000 && GateInv(setup.policy, w.watch)
    requires Delivers(w.out.frames, [CH.HelloOf(setup.config)]) && PC.Objection(setup.policy, CH.HelloOf(setup.config)) == None
    requires var (core, p) := (w.watch.core, w.watch.player);
             && p in core.tracker && core.tracker[p] == PC.PENDING && p in core.assets && core.assets[p] == AP.PENDING
             && Takes(core.line.answers, 3 + |AR.BuildManifest(core.registry).assets|)
    requires w.watch.published == None && w.source == None && w.down == []
    ensures var m := AR.BuildManifest(w.watch.core.registry);
            |m.assets| <= MAXIMUM_ASSETS_PER_MANIFEST && IsManifest(m) && IsAnswered(setup, w, Take(setup, w, UpArrives), m)
  {
    hide AR.Inv, PC.Inv, TalkInv, PlayerInv, DecodePacket, AR.BuildManifest, PC.Objection, NewFrames, StreamOf, AP.AfterSending,
         HasProtocolMagic, IsManifest, Delivers, HE.DispatchPayload, HA.Answer, Takes, TalkTo, VerdictOf, Greeted, StreamOfFrame, AP.PENDING;
    OneDelivered(w.out.frames, CH.HelloOf(setup.config));
    var (core, p, frame) := (w.watch.core, w.watch.player, w.out.frames[0]);
    DeliveredFrame(p, frame, CH.HelloOf(setup.config));
    Greets(setup.policy, setup.config, core, p, frame[1..]);
    assert StreamOfFrame(frame).unread == frame[1..] by {
      StrippedFrame(frame);
    }
    PendingWaits();
    var sent := NewFrames(core.line.attempts, Greeted(setup.policy, core, p, frame[1..]).line.attempts, p);
    assert w.down + sent == sent;
  }

  lemma StrippedFrame(frame: seq<byte>)
    requires frame != []
    ensures StreamOfFrame(frame).unread == frame[1..]
  {}

  lemma PendingWaits()
    ensures AP.PENDING.state == AP.SessionPending
  {}

  lemma OneDelivered(frames: seq<seq<byte>>, m: Message)
    requires Delivers(frames, [m])
    ensures |frames| == 1 && Deliver(frames[0]) == Some(m) && frames[1..] == []
  {
    hide Deliver;
  }

  // The client hears the answer and the stream.

  lemma WelcomeComes(setup: Setup, w: World, rest: seq<Message>)
    requires w.handshake == CH.Handshake(CH.HelloSent, None, None)
    requires AreCapabilitiesValid(setup.policy.serverCapabilities) && PC.Objection(setup.policy, CH.HelloOf(setup.config)) == None
    requires Delivers(w.down, [HA.Answer(setup.config, setup.policy)] + rest)
    requires AR.Inv(w.watch.core.registry) && w.watch.player < 0x8000_0000
    ensures var w' := Take(setup, w, DownArrives);
            && w' == w.(handshake := w'.handshake, down := w.down[1..])
            && w'.handshake.state == CH.ClientCompatible
            && Delivers(w'.down, rest)
  {
    hide AR.Inv, DecodePacket, PC.Objection, AreCapabilitiesValid, BitAnd, Inspect, Wire, CH.IsAcceptable;
    var (frame, welcome) := (w.down[0], HA.Answer(setup.config, setup.policy));
    assert ([welcome] + rest)[0] == welcome && ([welcome] + rest)[1..] == rest;
    WireExactness(welcome, frame);
    HA.AnswerTaken(setup.config, setup.policy, frame);
    forall i | 0 <= i < |rest|
      ensures Deliver(w.down[1..][i]) == Some(rest[i])
    {
      assert Deliver(w.down[i + 1]) == Some(([welcome] + rest)[i + 1]);
    }
  }

  /** A client listening in a fresh session, with nothing to report and nothing given up. */
  ghost predicate IsCalm(setup: Setup, w: World, m: Manifest) {
    var e := w.engine;
    && IsManifest(m) && |m.assets| <= MAXIMUM_ASSETS_PER_MANIFEST
    && w.handshake.state == CH.ClientCompatible
    && w.out.frames == [] && w.out.attached && Takes(w.out.answers, |m.assets|)
    && w.watch.player in w.watch.core.assets && IsSentTo(w.watch, m)
    && e.sessionStamp == e.stamp && !e.manager.stopping
    && (forall id | id in e.manager.states :: e.manager.states[id] != AssetFailed)
    && (forall asset | asset in m.assets :: IsObtainable(setup.hash, asset))
  }

  ghost predicate IsListening(setup: Setup, w: World, m: Manifest, i: nat) {
    && IsCalm(setup, w, m)
    && w.engine.worker == Waiting && w.engine.taken == 0
    && (forall event | event in w.engine.manager.events :: ReportOf(event) == None)
    && i <= |StreamOf(m)|
    && Delivers(w.down, StreamOf(m)[i..])
    && w.engine.heard == StreamOf(m)[..i]
  }

  lemma {:induction false} QueuedStates(m: Manager, revision: u64, assets: seq<AssetDescription>)
    ensures forall id | id in QueueAssets(m, revision, assets).states ::
              QueueAssets(m, revision, assets).states[id] == Queued || (id in m.states && QueueAssets(m, revision, assets).states[id] == m.states[id])
  {
    if assets != [] {
      QueuedStates(m, revision, assets[..|assets| - 1]);
    }
  }

  /** Hearing an accepted or completing message reports nothing and gives nothing up. */
  lemma HearsCalmly(m: Manager, x: Message)
    requires HandleMessage(m.receiver, x).1 == Accepted || HandleMessage(m.receiver, x).1 == Completed
    requires forall event | event in m.events :: ReportOf(event) == None
    requires forall id | id in m.states :: m.states[id] != AssetFailed
    ensures var m' := ReceiveMessage(m, x).0;
            && (forall event | event in m'.events :: ReportOf(event) == None)
            && (forall id | id in m'.states :: m'.states[id] != AssetFailed)
            && ComplaintAbout(x, ReceiveMessage(m, x).1) == None
            && m'.stopping == m.stopping
  {
    hide HandleMessage, IdsOf, QueueAssets;
    var (receiver, result) := HandleMessage(m.receiver, x);
    ReceiveKeeps(m, x);
    if result == Completed && receiver.completed.Some? {
      var manifest := receiver.completed.value;
      var said := Event(CompleteEvent, manifest.revision, 0, |manifest.assets| % 0x1_0000_0000, INTERNAL_ERROR);
      var announced := m.(receiver := receiver, events := m.events + [said]);
      QueuedEvents(announced, manifest.revision, manifest.assets);
      QueuedStates(announced, manifest.revision, manifest.assets);
    }
  }

  lemma HearOne(setup: Setup, w: World, m: Manifest, i: nat)
    requires IsListening(setup, w, m, i) && i < |StreamOf(m)| && S.Inv(w.engine)
    requires AR.Inv(w.watch.core.registry) && w.watch.player < 0x8000_0000
    ensures IsListening(setup, Take(setup, w, DownArrives), m, i + 1)
  {
    hide AR.Inv, DecodePacket, Inspect, S.Inv, HandleMessage, ReceiverAfter, IsManifest, IsObtainable, Takes, IsSentTo, ReceiveMessage,
         StreamOf;
    var (stream, e) := (StreamOf(m), w.engine);
    var (frame, x) := (w.down[0], stream[i]);
    assert stream[i..][0] == x && stream[i..][1..] == stream[i + 1..] && stream[..i] + [x] == stream[..i + 1];
    StreamKinds(m, i);
    DeliveredFrame(w.watch.player, frame, x);
    S.InvReceiver(e);
    AP.StreamAnswers(m, i);
    HearsCalmly(e.manager, x);
    var w' := Take(setup, w, DownArrives);
    assert Heeded(setup.config, ClientOf(w), frame[1..]) == TakeIn(ClientOf(w), x);
    forall k | 0 <= k < |stream| - i - 1
      ensures Deliver(w'.down[k]) == Some(stream[i + 1..][k])
    {
      assert Deliver(w.down[k + 1]) == Some(stream[i..][k + 1]);
    }
  }

  lemma StreamKinds(m: Manifest, i: nat)
    requires |m.assets| <= MAXIMUM_ASSETS_PER_MANIFEST && i < |StreamOf(m)|
    ensures IsManifestMessage(StreamOf(m)[i])
  {
    AP.StreamPieces(m);
  }

  lemma {:induction false} HearAll(setup: Setup, w0: World, steps: seq<Step>, w: World, m: Manifest, i: nat)
      returns (steps': seq<Step>, w': World)
    requires |m.assets| <= MAXIMUM_ASSETS_PER_MANIFEST
    requires Leads(setup, w0, steps, w) && AgreementInv(setup, w0) && IsListening(setup, w, m, i)
    ensures steps <= steps' && Leads(setup, w0, steps', w') && IsListening(setup, w', m, |StreamOf(m)|)
    decreases |StreamOf(m)| - i
  {
    hide Leads, AgreementInv, WorldInv, IsCalm, Take, AR.Inv, S.Inv, GateInv, Delivers, StreamOf;
    steps', w' := steps, w;
    if i < |StreamOf(m)| {
      LeadsKeeps(setup, w0, steps, w);
      HearOne(setup, w, m, i);
      WaitingFenced(Take(setup, w, DownArrives).engine);
      LeadsOn(setup, w0, steps, w, DownArrives);
      steps', w' := HearAll(setup, w0, steps + [DownArrives], Take(setup, w, DownArrives), m, i + 1);
    }
  }

  lemma WaitingFenced(e: Engine)
    requires e.worker == Waiting
    ensures IsFenced(e)
  {}

  // The worker serves every item, from the cache or by a download.

  /** No call fails, and a download delivers this. */
  function Calm(data: seq<byte>, size: u64): Outcome {
    Outcome(LookupFaults(false, false, false, false, false), false, Some(File(data)), NoError, size, false, false, false,
            CommitFaults(false, false, LookupFaults(false, false, false, false, false), false, false))
  }

  /** What to wish the worker: the bytes of the asset in hand. */
  ghost function Wish(hash: Hash, e: Engine): Outcome {
    if e.worker.Busy? && IsObtainable(hash, e.worker.work.asset) then
      var data: seq<byte> :| |data| == e.worker.work.asset.fileSize && hash(data) == e.worker.work.asset.sha256;
      Calm(data, e.worker.work.asset.fileSize)
    else Calm([], 0)
  }

  /** The worker has met no failure, and what it has downloaded is good. */
  ghost predicate IsServing(hash: Hash, root: Path, files: FileSystem, pc: Pc, asset: AssetDescription) {
    !pc.SayFailed? && (HoldsTemporary(pc) ==> T.HoldsVerified(hash, root, files, asset))
  }

  /** A client whose manifest is complete and whose worker has met no failure; each item it has let go of has made one
      report. */
  ghost predicate IsWorking(setup: Setup, w: World, m: Manifest) {
    var e := w.engine;
    && IsCalm(setup, w, m)
    && e.manager.receiver.completed == Some(m) && e.manager.receiver.state == Complete
    && (e.worker.Busy? ==> e.worker.origin == e.session && IsServing(setup.hash, setup.root, e.files, e.worker.pc, e.worker.work.asset))
    && |ReportsOf(e.manager.events)| + (if e.worker.Busy? then 1 else 0) <= e.taken <= |m.assets|
  }

  lemma HeardAll(setup: Setup, w: World, m: Manifest)
    requires |m.assets| <= MAXIMUM_ASSETS_PER_MANIFEST && IsListening(setup, w, m, |StreamOf(m)|) && S.Inv(w.engine)
    ensures IsWorking(setup, w, m)
  {
    hide S.Inv, ReceiverAfter, IsManifest, IsObtainable, Takes, IsSentTo, IsOpen, IsClosed, HandleMessage;
    var stream := StreamOf(m);
    assert stream[..|stream|] == stream;
    S.InvReceiver(w.engine);
    AP.ReceiverHolds(m);
    RunDescribed(stream);
    forall i | 0 <= i < |stream|
      ensures IsManifestMessage(stream[i])
    {
      StreamKinds(m, i);
    }
    OnlyManifestMessages(stream);
    FailedExactlyOffStream(stream);
    StreamCloses(m);
    ClosedNotOpen(stream);
    NoReportsOf(w.engine.manager.events);
  }

  lemma ItemInHand(e: Engine, m: Manifest)
    requires S.Inv(e) && e.manager.receiver.completed == Some(m)
    ensures e.taken <= |m.assets|
    ensures e.worker.Busy? && e.worker.origin == e.session ==>
              e.worker.work.asset in m.assets && e.worker.work.generation == e.manager.generation
    ensures !e.manager.stopping ==> |e.manager.queue| == |m.assets| - e.taken
  {
    hide GenerationInv, ReceiverAfter, IsManifest, S.AssetInv, S.NothingElse;
  }

  lemma ReportAppended(events: seq<Event>, event: Event)
    ensures |ReportsOf(events + [event])| == |ReportsOf(events)| + if ReportOf(event).Some? then 1 else 0
  {
    assert (events + [event])[..|events|] == events;
  }

  lemma CommitSucceeds(hash: Hash, root: Path, files: FileSystem, asset: AssetDescription)
    requires T.HoldsVerified(hash, root, files, asset)
    ensures CommitIn(hash, root, files, asset, TemporaryPathFor(root, asset), Calm([], 0).commit).1
  {
    hide PathFor, TemporaryPathFor, LookupIn, Matches;
    PathsIdentifyContent(root, asset, asset);
    LookupSound(hash, root, files, asset, Calm([], 0).lookup);
  }

  /** A wished-for step goes on without failure, and lets go of its item with a Ready report only. */
  lemma ServeEffect(
      hash: Hash, root: Path, m: Manager, files: FileSystem, pc: Pc, work: WorkItem, data: seq<byte>, size: u64)
    requires IsServing(hash, root, files, pc, work.asset) && IsCurrent(m, work.generation)
    requires |data| == size == work.asset.fileSize && hash(data) == work.asset.sha256
    ensures var effect := EffectOf(hash, root, m, files, pc, work, Calm(data, size));
            && (effect.next.Some? ==> IsServing(hash, root, effect.files, effect.next.value, work.asset))
            && (effect.say.Some? ==> effect.say.value.state != AssetFailed && effect.say.value.kind != FailedEvent)
            && (effect.say.Some? && effect.say.value.kind == ReadyEvent <==> effect.next == None)
  {
    hide PathFor, TemporaryPathFor, LookupIn, CommitIn;
    if pc == Lookup {
      LookupSound(hash, root, files, work.asset, Calm(data, size).lookup);
    } else if pc == Commit {
      CommitSucceeds(hash, root, files, work.asset);
    }
  }

  /** One step of the worker when nothing fails. */
  lemma ServeStep(hash: Hash, root: Path, e: Engine, m: Manifest)
    requires S.Inv(e) && e.manager.receiver.completed == Some(m) && !e.manager.stopping
    requires e.worker.Busy? ==> e.worker.origin == e.session && IsServing(hash, root, e.files, e.worker.pc, e.worker.work.asset)
    requires |ReportsOf(e.manager.events)| + (if e.worker.Busy? then 1 else 0) <= e.taken
    requires forall id | id in e.manager.states :: e.manager.states[id] != AssetFailed
    requires forall asset | asset in m.assets :: IsObtainable(hash, asset)
    ensures var e' := WorkerStep(hash, root, e, Wish(hash, e));
            && e'.session == e.session && e'.stamp == e.stamp && e'.sessionStamp == e.sessionStamp
            && e'.manager.receiver == e.manager.receiver && !e'.manager.stopping
            && (e'.worker.Busy? ==> e'.worker.origin == e'.session && IsServing(hash, root, e'.files, e'.worker.pc, e'.worker.work.asset))
            && |ReportsOf(e'.manager.events)| + (if e'.worker.Busy? then 1 else 0) <= e'.taken
            && (forall id | id in e'.manager.states :: e'.manager.states[id] != AssetFailed)
  {
    hide S.Inv, EffectOf, T.HoldsVerified, ReportsOf, RecordOf, Calm;
    ItemInHand(e, m);
    if e.worker.Busy? {
      var (work, o) := (e.worker.work, Wish(hash, e));
      assert IsObtainable(hash, work.asset);
      var data: seq<byte> :| |data| == work.asset.fileSize && hash(data) == work.asset.sha256 && o == Calm(data, work.asset.fileSize);
      ServeEffect(hash, root, e.manager, e.files, e.worker.pc, work, data, work.asset.fileSize);
      var effect := EffectOf(hash, root, e.manager, e.files, e.worker.pc, work, o);
      if effect.say.Some? {
        var said := effect.say.value;
        ReportAppended(e.manager.events, Event(said.kind, work.manifestRevision, work.asset.assetId, 0, said.error));
      }
    }
  }

  lemma WorkOne(setup: Setup, w: World, m: Manifest)
    requires IsWorking(setup, w, m) && S.Inv(w.engine) && IsFenced(w.engine)
    requires AR.Inv(w.watch.core.registry) && w.watch.player < 0x8000_0000
    ensures var w' := Take(setup, w, WorkerMoves(Wish(setup.hash, w.engine)));
            && IsWorking(setup, w', m) && IsFenced(w'.engine)
            && (S.StepsLeft(w.engine) > 0 ==> S.StepsLeft(w'.engine) < S.StepsLeft(w.engine))
            && (S.StepsLeft(w.engine) == 0 ==> w.engine.worker == Waiting && w.engine.manager.queue == [])
  {
    hide AR.Inv, S.Inv, IsManifest, IsObtainable, Takes, IsSentTo, WorkerStep, ReportsOf, Wish, IsServing;
    var o := Wish(setup.hash, w.engine);
    ServeStep(setup.hash, setup.root, w.engine, m);
    S.WorkShrinks(setup.hash, setup.root, w.engine, o);
    S.StepKeeps(setup.hash, setup.root, w.engine, Work(o));
    ItemInHand(Take(setup, w, WorkerMoves(o)).engine, m);
    NoStepsLeft(w.engine);
  }

  lemma NoStepsLeft(e: Engine)
    ensures S.StepsLeft(e) == 0 ==> e.worker == Waiting && e.manager.queue == []
  {}

  lemma {:induction false} WorkAll(setup: Setup, w0: World, steps: seq<Step>, w: World, m: Manifest)
      returns (steps': seq<Step>, w': World)
    requires Leads(setup, w0, steps, w) && AgreementInv(setup, w0) && IsWorking(setup, w, m)
    ensures steps <= steps' && Leads(setup, w0, steps', w') && IsWorking(setup, w', m)
    ensures w'.engine.worker == Waiting && w'.engine.manager.queue == []
    decreases S.StepsLeft(w.engine)
  {
    hide Leads, AgreementInv, WorldInv, IsWorking, Take, AR.Inv, S.Inv, GateInv, S.StepsLeft, IsFenced;
    steps', w' := steps, w;
    LeadsKeeps(setup, w0, steps, w);
    WorkOne(setup, w, m);
    if S.StepsLeft(w.engine) > 0 {
      var step := WorkerMoves(Wish(setup.hash, w.engine));
      LeadsOn(setup, w0, steps, w, step);
      steps', w' := WorkAll(setup, w0, steps + [step], Take(setup, w, step), m);
    }
  }

  // The reports go up.

  /** A client that has said everything. */
  ghost predicate IsThrough(w: World, m: Manifest)
    requires |m.assets| <= MAXIMUM_ASSETS_PER_MANIFEST
  {
    var e := w.engine;
    && w.watch.player in w.watch.core.assets && IsSentTo(w.watch, m)
    && e.sessionStamp == e.stamp && !e.manager.stopping
    && e.manager.receiver.completed == Some(m) && e.manager.receiver.state == Complete
    && e.worker == Waiting && e.manager.queue == [] && e.manager.events == []
    && (forall id | id in e.manager.states :: e.manager.states[id] != AssetFailed)
  }

  lemma PumpAll(setup: Setup, w: World, m: Manifest)
    requires IsWorking(setup, w, m) && w.engine.worker == Waiting && w.engine.manager.queue == []
    requires AR.Inv(w.watch.core.registry) && w.watch.player < 0x8000_0000
    ensures IsAccepted(w, PumpResults) && |m.assets| <= MAXIMUM_ASSETS_PER_MANIFEST
    ensures IsThrough(Take(setup, w, PumpResults), m)
  {
    hide AR.Inv, IsManifest, IsObtainable, IsSentTo, ReportsOf, SendReports, Takes;
    var n := |ReportsOf(w.engine.manager.events)|;
    TakesMore(w.out.answers, n, |m.assets| - n);
  }

  lemma DrainOne(setup: Setup, w: World, m: Manifest)
    requires |m.assets| <= MAXIMUM_ASSETS_PER_MANIFEST && IsThrough(w, m) && w.out.frames != []
    requires AgreementInv(setup, w) && IsFenced(w.engine)
    requires AR.Inv(w.watch.core.registry) && w.watch.player < 0x8000_0000 && GateInv(setup.policy, w.watch)
    ensures var w' := Take(setup, w, UpArrives);
            IsThrough(w', m) && w'.out.frames == w.out.frames[1..]
  {
    hide AR.Inv, AgreementInv, WatchStep, GateInv, StreamOf, Takes, NewFrames, StreamOfFrame;
    var event := Sends(w.watch.player, StreamOfFrame(w.out.frames[0]));
    EventKeeps(setup.policy, w.watch, event);
    PlayerKept(setup.policy, w.watch, event);
    PublicationRecord(setup.policy, WatchStep(setup.policy, w.watch, event));
  }

  lemma {:induction false} DrainAll(setup: Setup, w0: World, steps: seq<Step>, w: World, m: Manifest)
      returns (steps': seq<Step>, w': World)
    requires |m.assets| <= MAXIMUM_ASSETS_PER_MANIFEST
    requires Leads(setup, w0, steps, w) && AgreementInv(setup, w0) && IsThrough(w, m)
    ensures steps <= steps' && Leads(setup, w0, steps', w') && IsThrough(w', m) && w'.out.frames == []
    decreases |w.out.frames|
  {
    hide Leads, AgreementInv, WorldInv, Take, AR.Inv, S.Inv, GateInv, IsSentTo;
    steps', w' := steps, w;
    if w.out.frames != [] {
      LeadsKeeps(setup, w0, steps, w);
      DrainOne(setup, w, m);
      WaitingFenced(Take(setup, w, UpArrives).engine);
      LeadsOn(setup, w0, steps, w, UpArrives);
      steps', w' := DrainAll(setup, w0, steps + [UpArrives], Take(setup, w, UpArrives), m);
    }
  }

  /** Then everything is settled, and the player is ready. */
  lemma ThroughIsReady(setup: Setup, w: World, m: Manifest)
    requires |m.assets| <= MAXIMUM_ASSETS_PER_MANIFEST
    requires AgreementInv(setup, w) && IsThrough(w, m) && w.out.frames == [] && GateInv(setup.policy, w.watch)
    ensures IsSettled(w) && w.watch.core.assets[w.watch.player].state == AP.SessionReady
    ensures w.watch.core.assets[w.watch.player].ready == IdsOf(m.assets)
  {
    hide AgreementInv, IdsOf, StreamOf, Takes, AP.LastReport;
    SentIsPublished(setup.policy, w.watch, m);
    SettledRecord(setup, w);
    var x := w.watch.published.value;
    forall id | id in IdsOf(m.assets)
      ensures AP.LastReport(m.revision, id, x.reports) == AP.ReadyReport
    {
      SettledAsset(setup, w, id);
    }
  }

  lemma SentIsPublished(policy: PC.HandshakePolicy, w: Watch, m: Manifest)
    requires |m.assets| <= MAXIMUM_ASSETS_PER_MANIFEST && GateInv(policy, w) && IsSentTo(w, m)
    ensures w.player in w.core.assets && AP.IsPublished(w.core.assets[w.player])
  {
    hide PC.Inv, AR.Inv, TalkInv, StreamOf, Takes, IsManifest, AP.AfterMessages, AP.AfterSending;
    AP.LastReportWins(m, w.published.value.reports);
  }

  // All of it.

  /** Readiness is reached: whatever registry is loaded and whatever the client's disk holds, if the server has nothing
      against the client, both transports take what they are given and every asset exists, there is a run, Hello first and
      the player's connection after it, that settles with every asset ready at the server: found in the cache, or downloaded,
      verified and committed. */
  lemma ReadinessReached(setup: Setup, policy: PC.HandshakePolicy, w0: World) returns (steps: seq<Step>, w: World)
    requires IsInitial(setup, policy, w0) && IsPromising(setup, w0)
    ensures |steps| >= 2 && steps[0] == AtClient(ConnectedEvent) && steps[1] == AtServer(Connects(w0.watch.player))
    ensures Leads(setup, w0, steps, w) && IsSettled(w)
    ensures w.watch.published.value.manifest == AR.BuildManifest(w0.watch.core.registry)
    ensures w.watch.core.assets[w.watch.player].state == AP.SessionReady
    ensures w.watch.core.assets[w.watch.player].ready == IdsOf(AR.BuildManifest(w0.watch.core.registry).assets)
  {
    hide Leads, AgreementInv, WorldInv, IsWorking, IsListening, IsPromising, Take, AR.Inv, S.Inv, GateInv, IsThrough,
         IsSettled, IsFenced, AR.BuildManifest, IdsOf;
    var w4, m := Answered(setup, policy, w0);
    steps := [AtClient(ConnectedEvent), AtServer(Connects(w0.watch.player)), UpArrives, DownArrives];
    steps, w := HearAll(setup, w0, steps, w4, m, 0);
    LeadsKeeps(setup, w0, steps, w);
    HeardAll(setup, w, m);
    steps, w := WorkAll(setup, w0, steps, w, m);
    LeadsKeeps(setup, w0, steps, w);
    PumpAll(setup, w, m);
    ThroughFenced(Take(setup, w, PumpResults), m);
    LeadsOn(setup, w0, steps, w, PumpResults);
    steps, w := DrainAll(setup, w0, steps + [PumpResults], Take(setup, w, PumpResults), m);
    LeadsKeeps(setup, w0, steps, w);
    ThroughIsReady(setup, w, m);
    ThroughPublished(w, m);
  }

  lemma ThroughFenced(w: World, m: Manifest)
    requires |m.assets| <= MAXIMUM_ASSETS_PER_MANIFEST && IsThrough(w, m)
    ensures IsFenced(w.engine)
  {}

  lemma ThroughPublished(w: World, m: Manifest)
    requires |m.assets| <= MAXIMUM_ASSETS_PER_MANIFEST && IsThrough(w, m)
    ensures w.watch.published.Some? && w.watch.published.value.manifest == m
  {}

  /** Up to the client hearing its Welcome. */
  lemma Answered(setup: Setup, policy: PC.HandshakePolicy, w0: World) returns (w: World, m: Manifest)
    requires IsInitial(setup, policy, w0) && IsPromising(setup, w0)
    ensures m == AR.BuildManifest(w0.watch.core.registry) && |m.assets| <= MAXIMUM_ASSETS_PER_MANIFEST
    ensures AgreementInv(setup, w0) && IsListening(setup, w, m, 0)
    ensures Leads(setup, w0, [AtClient(ConnectedEvent), AtServer(Connects(w0.watch.player)), UpArrives, DownArrives], w)
  {
    hide Leads, AgreementInv, WorldInv, IsWorking, Take, AR.Inv, S.Inv, GateInv, AR.BuildManifest, IsManifest, Delivers, Takes,
         StreamOf, HA.Answer, PC.Objection, AreCapabilitiesValid, TalkTo, IsObtainable, IsSentTo;
    InitialAgreement(setup, policy, w0);
    LeadsNowhere(setup, w0);
    m := AR.BuildManifest(w0.watch.core.registry);
    var (s1, s2) := (AtClient(ConnectedEvent), AtServer(Connects(w0.watch.player)));
    HelloGoes(setup, policy, w0);
    var w1 := Take(setup, w0, s1);
    LeadsOn(setup, w0, [], w0, s1);
    assert [] + [s1] == [s1];
    PlayerConnects(setup, w1);
    var w2 := Take(setup, w1, s2);
    LeadsOn(setup, w0, [s1], w1, s2);
    assert [s1] + [s2] == [s1, s2];
    LeadsKeeps(setup, w0, [s1, s2], w2);
    HelloArrives(setup, w2);
    var w3 := Take(setup, w2, UpArrives);
    LeadsOn(setup, w0, [s1, s2], w2, UpArrives);
    assert [s1, s2] + [UpArrives] == [s1, s2, UpArrives];
    LeadsKeeps(setup, w0, [s1, s2, UpArrives], w3);
    GatePolicy(setup.policy, w3.watch);
    WelcomeComes(setup, w3, StreamOf(m));
    w := Take(setup, w3, DownArrives);
    LeadsOn(setup, w0, [s1, s2, UpArrives], w3, DownArrives);
    assert [s1, s2, UpArrives] + [DownArrives] == [s1, s2, UpArrives, DownArrives];
    assert StreamOf(m)[0..] == StreamOf(m) && StreamOf(m)[..0] == [];
    LeadsKeeps(setup, w0, [s1, s2, UpArrives, DownArrives], w);
    TakesMore(w0.out.answers, 1, |m.assets|);
  }

  lemma GatePolicy(policy: PC.HandshakePolicy, w: Watch)
    requires GateInv(policy, w)
    ensures AreCapabilitiesValid(policy.serverCapabilities)
  {
    hide AR.Inv, TalkInv, PlayerInv, AreCapabilitiesValid;
  }

  // And such a start exists.

  const ONE_BYTE: seq<byte> := [0]

  /** A server of this version that requires what the component requires, a client of the same, one registered asset of one
      byte, and an empty cache. */
  function SampleSetup(hash: Hash, root: Path): Setup {
    var version := RuntimeVersion(0, 2, 0);
    Setup(hash, root, CH.Configuration(version, PC.R1, 31), PC.Masked(PC.HandshakePolicy(version, version, 31, 28)))
  }

  function SampleAsset(hash: Hash): AssetDescription {
    MC.SAMPLE.(sha256 := hash(ONE_BYTE))
  }

  ghost function SampleWorld(hash: Hash): World {
    World(Start(map[], false), CH.UNCONNECTED, Outbox(true, [true, true], []),
          Loaded(AR.RunOps([AR.RegisterOp(SampleAsset(hash))]), [true, true, true, true], 0), [], None)
  }

  lemma SampleAgrees(hash: Hash, root: Path)
    ensures PC.Objection(SampleSetup(hash, root).policy, CH.HelloOf(SampleSetup(hash, root).config)) == None
    ensures AreCapabilitiesValid(31)
  {
    assert BitAnd(31, 31) == 31 by {
      FullMask();
    }
    assert BitAnd(28, 31) == 28 && BitAnd(31, 28) == 28 by {
      PartMask();
    }
    hide BitAnd;
    PC.TransportBuilds(PC.R1);
  }

  lemma FullMask()
    ensures BitAnd(31, 31) == 31
  {
    assert BitAnd(1, 1) == 1;
    assert BitAnd(3, 3) == 3;
    assert BitAnd(7, 7) == 7;
    assert BitAnd(15, 15) == 15;
  }

  lemma PartMask()
    ensures BitAnd(28, 31) == 28 && BitAnd(31, 28) == 28
  {
    FullMask();
    assert BitAnd(1, 1) == 1;
    assert BitAnd(3, 3) == 3;
    assert BitAnd(7, 7) == 7;
    assert BitAnd(14, 15) == 14;
    BitAndCommutes(28, 31);
  }

  lemma SampleManifest(hash: Hash)
    ensures var r := AR.RunOps([AR.RegisterOp(SampleAsset(hash))]);
            AR.Inv(r) && AR.BuildManifest(r).assets == [SampleAsset(hash)]
  {
    hide AR.Inv, IsDescriptionValid;
    var asset := SampleAsset(hash);
    var r := AR.RunOps([AR.RegisterOp(asset)]);
    AR.RunOpsAppend([], AR.RegisterOp(asset));
    assert [] + [AR.RegisterOp(asset)] == [AR.RegisterOp(asset)];
    MC.NoOps();
    SampleDescription(hash);
    assert AR.Register(AR.EMPTY, asset).1 == AR.Added;
    AR.RegisterKeeps(AR.EMPTY, asset);
    AR.EmptyTables();
  }

  lemma SampleDescription(hash: Hash)
    ensures IsDescriptionValid(SampleAsset(hash))
  {
    hide IsLogicalName, IsDownloadUrl;
    MC.SampleValid();
  }

  lemma SamplePromises(hash: Hash, root: Path)
    ensures AR.Inv(SampleWorld(hash).watch.core.registry)
    ensures IsPromising(SampleSetup(hash, root), SampleWorld(hash))
    ensures AR.BuildManifest(SampleWorld(hash).watch.core.registry).assets == [SampleAsset(hash)]
  {
    hide AR.Inv, AR.BuildManifest, PC.Objection, PathFor, PC.Masked, AR.RunOps, AreCapabilitiesValid;
    SampleManifest(hash);
    SampleAgrees(hash, root);
    assert hash(ONE_BYTE) == SampleAsset(hash).sha256 && |ONE_BYTE| == SampleAsset(hash).fileSize;
    assert Takes([true, true, true, true], 4) by {
      FourTaken();
    }
    assert Takes([true, true], 2) by {
      FourTaken();
    }
  }

  lemma FourTaken()
    ensures Takes([true, true, true, true], 4) && Takes([true, true], 2)
  {
    var two := [true, true];
    var four := [true, true, true, true];
    assert two[1..] == [true] && Takes(two[1..], 1);
    assert four[1..] == [true] + two && four[1..][1..] == two;
    assert Takes(two, 2);
    assert Takes(four[1..], 3);
  }

  /** For every hash and cache root a whole run, from a Hello that overtakes the player's connection, through a download, to a
      settled world in which the server holds the one registered asset ready. */
  lemma SampleRun(hash: Hash, root: Path) returns (steps: seq<Step>, w: World)
    ensures var (setup, w0) := (SampleSetup(hash, root), SampleWorld(hash));
            && Leads(setup, w0, steps, w) && IsSettled(w)
            && |steps| >= 2 && steps[0] == AtClient(ConnectedEvent) && steps[1] == AtServer(Connects(0))
            && w.watch.core.assets[w.watch.player].state == AP.SessionReady
            && w.watch.core.assets[w.watch.player].ready == {1}
  {
    hide Leads, AR.Inv, AR.BuildManifest, IsSettled, IsPromising, PathFor, PC.Masked, AR.RunOps;
    SamplePromises(hash, root);
    var version := RuntimeVersion(0, 2, 0);
    steps, w := ReadinessReached(SampleSetup(hash, root), PC.HandshakePolicy(version, version, 31, 28), SampleWorld(hash));
  }
}
