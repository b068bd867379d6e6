/** One client session: the life of each asset, told by the events about it, over every interleaving. */
module AssetSession {
  import opened Bytes
  import opened Assets
  import opened Protocol
  import opened ManifestStream
  import opened AssetCache
  import opened AssetManager
  import opened AssetEngine
  import opened GenerationFence

  // The grammar of one asset's events, as an automaton:
  //   Queued ( CacheHit Ready | Failed | Downloading ( Failed | Verifying ( Failed | Verified ( Ready | Failed ))))
  // An exception may put Failed behind CacheHit.

  datatype Phase = Unheard | InQueue | HitSeen | Fetching | Checking | Checked | Finished(ready: bool) | Broken

  function Advance(phase: Phase, kind: EventKind, throws: bool): Phase {
    match (phase, kind)
    case (Unheard, QueuedEvent) => InQueue
    case (InQueue, CacheHitEvent) => HitSeen
    case (InQueue, FailedEvent) => Finished(false)
    case (InQueue, DownloadingEvent) => Fetching
    case (HitSeen, ReadyEvent) => Finished(true)
    case (HitSeen, FailedEvent) => if throws then Finished(false) else Broken
    case (Fetching, FailedEvent) => Finished(false)
    case (Fetching, VerifyingEvent) => Checking
    case (Checking, FailedEvent) => Finished(false)
    case (Checking, VerifiedEvent) => Checked
    case (Checked, ReadyEvent) => Finished(true)
    case (Checked, FailedEvent) => Finished(false)
    case _ => Broken
  }

  predicate Concerns(event: Event, id: u32) {
    event.kind != BeginEvent && event.kind != CompleteEvent && event.assetId == id
  }

  /** How far the events have taken an asset; Broken as soon as they leave the grammar. */
  function PhaseOf(trace: seq<Event>, id: u32, throws: bool): Phase {
    if trace == [] then Unheard
    else
      var earlier := PhaseOf(trace[..|trace| - 1], id, throws);
      var last := trace[|trace| - 1];
      if Concerns(last, id) then Advance(earlier, last.kind, throws) else earlier
  }

  /** The kinds of the events about one asset, in order. */
  function KindsAbout(trace: seq<Event>, id: u32): seq<EventKind> {
    if trace == [] then []
    else
      var last := trace[|trace| - 1];
      KindsAbout(trace[..|trace| - 1], id) + if Concerns(last, id) then [last.kind] else []
  }

  /** The words of the grammar that end in each phase. */
  predicate IsWord(word: seq<EventKind>, phase: Phase, throws: bool) {
    match phase
    case Unheard => word == []
    case InQueue => word == [QueuedEvent]
    case HitSeen => word == [QueuedEvent, CacheHitEvent]
    case Fetching => word == [QueuedEvent, DownloadingEvent]
    case Checking => word == [QueuedEvent, DownloadingEvent, VerifyingEvent]
    case Checked => word == [QueuedEvent, DownloadingEvent, VerifyingEvent, VerifiedEvent]
    case Finished(ready) =>
      if ready then
        word == [QueuedEvent, CacheHitEvent, ReadyEvent] ||
        word == [QueuedEvent, DownloadingEvent, VerifyingEvent, VerifiedEvent, ReadyEvent]
      else
        || word == [QueuedEvent, FailedEvent]
        || word == [QueuedEvent, DownloadingEvent, FailedEvent]
        || word == [QueuedEvent, DownloadingEvent, VerifyingEvent, FailedEvent]
        || word == [QueuedEvent, DownloadingEvent, VerifyingEvent, VerifiedEvent, FailedEvent]
        || (throws && word == [QueuedEvent, CacheHitEvent, FailedEvent])
    case Broken => false
  }

  /** An unbroken phase spells out the events so far. */
  lemma {:induction false} PhaseHasWord(trace: seq<Event>, id: u32, throws: bool)
    ensures PhaseOf(trace, id, throws) != Broken ==> IsWord(KindsAbout(trace, id), PhaseOf(trace, id, throws), throws)
  {
    if trace != [] {
      PhaseHasWord(trace[..|trace| - 1], id, throws);
    }
  }

  /** Where a word takes the automaton. */
  function PhaseOfWord(word: seq<EventKind>, throws: bool): Phase {
    if word == [] then Unheard else Advance(PhaseOfWord(word[..|word| - 1], throws), word[|word| - 1], throws)
  }

  lemma {:induction false} PhaseOfKinds(trace: seq<Event>, id: u32, throws: bool)
    ensures PhaseOf(trace, id, throws) == PhaseOfWord(KindsAbout(trace, id), throws)
  {
    hide Advance;
    if trace != [] {
      var (init, last) := (trace[..|trace| - 1], trace[|trace| - 1]);
      PhaseOfKinds(init, id, throws);
      var kinds := KindsAbout(init, id);
      assert kinds + [] == kinds && (kinds + [last.kind])[..|kinds|] == kinds;
    }
  }

  /** Every word of a phase leads there. */
  lemma {:induction false} WordLeads(word: seq<EventKind>, phase: Phase, throws: bool)
    requires IsWord(word, phase, throws)
    ensures PhaseOfWord(word, throws) == phase
  {
    if word != [] {
      var (init, last) := (word[..|word| - 1], word[|word| - 1]);
      var before :=
        if |word| == 1 then Unheard
        else if |word| == 2 then InQueue
        else if |word| == 3 then (if word[1] == CacheHitEvent then HitSeen else Fetching)
        else if |word| == 4 then Checking
        else Checked;
      WordLeads(init, before, throws);
    }
  }

  /** The automaton accepts exactly those words: the events about an asset have taken it to a phase exactly when they spell
      a word that ends there. */
  lemma PhaseSpells(trace: seq<Event>, id: u32, phase: Phase, throws: bool)
    requires phase != Broken
    ensures PhaseOf(trace, id, throws) == phase <==> IsWord(KindsAbout(trace, id), phase, throws)
  {
    hide IsWord, PhaseOf, KindsAbout, PhaseOfWord;
    PhaseHasWord(trace, id, throws);
    PhaseOfKinds(trace, id, throws);
    if IsWord(KindsAbout(trace, id), phase, throws) {
      WordLeads(KindsAbout(trace, id), phase, throws);
    }
  }

  /** The state the manager shows for an asset in a phase. */
  function StateOf(phase: Phase): AssetState {
    match phase
    case Unheard => Unknown
    case InQueue => Queued
    case HitSeen => Ready
    case Fetching => Downloading
    case Checking => AssetState.Verifying
    case Checked => AssetState.Verifying
    case Finished(ready) => if ready then Ready else AssetFailed
    case Broken => Unknown
  }

  /** The phases an asset can be in while the worker stands at `pc` with it. */
  predicate Fits(pc: Pc, phase: Phase, throws: bool) {
    match pc
    case Check => phase == InQueue
    case Lookup => phase == InQueue
    case SayCacheHit => phase == InQueue
    case SayHitReady => phase == HitSeen
    case SayDownloading => phase == InQueue
    case Fetch => phase == Fetching
    case SayVerifying => phase == Fetching
    case Verify => phase == Checking
    case SayVerified => phase == Checking
    case Commit => phase == Checked
    case SayReady => phase == Checked
    case SayFailed(_) =>
      phase == InQueue || phase == Fetching || phase == Checking || phase == Checked || (throws && phase == HitSeen)
  }

  lemma PhaseAppend(trace: seq<Event>, event: Event, id: u32, throws: bool)
    ensures PhaseOf(trace + [event], id, throws) ==
            if Concerns(event, id) then Advance(PhaseOf(trace, id, throws), event.kind, throws) else PhaseOf(trace, id, throws)
  {
    assert (trace + [event])[..|trace|] == trace;
  }

  // What holds of a session at every moment.

  function ItemOf(e: Engine, m: Manifest, i: nat): WorkItem
    requires i < |m.assets|
  {
    WorkItem(e.manager.generation, m.revision, m.assets[i])
  }

  /** The queue holds the assets not yet taken, in manifest order; a stop may have emptied it. */
  ghost predicate QueueInv(e: Engine, m: Manifest) {
    && e.taken <= |m.assets|
    && ((e.manager.stopping && e.manager.queue == []) ||
        (|e.manager.queue| == |m.assets| - e.taken &&
         forall j | 0 <= j < |e.manager.queue| :: e.manager.queue[j] == ItemOf(e, m, e.taken + j)))
  }

  /** An asset is queued, in the worker's hands, or finished, and the manager shows that state. */
  ghost predicate AssetInv(e: Engine, m: Manifest, i: nat)
    requires i < |m.assets|
  {
    var id := m.assets[i].assetId;
    var phase := PhaseOf(Trace(e), id, e.throws);
    && StateIn(e.manager, id) == StateOf(phase)
    && if i >= e.taken then phase == InQueue
       else if i == e.taken - 1 && IsCurrentWork(e) then Fits(e.worker.pc, phase, e.throws)
       else phase.Finished? || (phase == InQueue && i == e.taken - 1 && e.manager.stopping)
  }

  ghost predicate NothingElse(e: Engine, ids: set<u32>) {
    forall id: u32 | id !in ids :: PhaseOf(Trace(e), id, e.throws) == Unheard && id !in e.manager.states
  }

  ghost predicate SessionInv(e: Engine) {
    match e.manager.receiver.completed
    case None => e.manager.queue == [] && e.taken == 0 && !IsCurrentWork(e) && NothingElse(e, {})
    case Some(m) =>
      && IsManifest(m)
      && QueueInv(e, m)
      && (IsCurrentWork(e) ==> 1 <= e.taken && e.worker.work == ItemOf(e, m, e.taken - 1))
      && (forall i | 0 <= i < |m.assets| :: AssetInv(e, m, i))
      && NothingElse(e, IdsOf(m.assets))
  }

  ghost predicate Inv(e: Engine) {
    && GenerationInv(e)
    && e.manager.receiver == ReceiverAfter(e.heard)
    && SessionInv(e)
  }

  lemma StartInv(files: FileSystem, throws: bool)
    ensures Inv(Start(files, throws))
  {
    assert Trace(Start(files, throws)) == [];
  }

  // Network-thread steps.

  /** Queueing a fresh manifest: every asset enters the queue once, in order; the skip is never taken. */
  lemma {:induction false} QueueAll(m: Manager, history: seq<Event>, revision: u64, assets: seq<AssetDescription>, throws: bool)
    requires DistinctIds(assets)
    requires m.queue == [] && m.states == map[]
    requires forall id: u32 :: PhaseOf(history + m.events, id, throws) == Unheard
    ensures var m' := QueueAssets(m, revision, assets);
            && |m'.queue| == |assets|
            && (forall j | 0 <= j < |assets| :: m'.queue[j] == WorkItem(m.generation, revision, assets[j]))
            && m'.states.Keys == IdsOf(assets)
            && (forall id | id in m'.states :: m'.states[id] == Queued)
            && (forall id: u32 :: PhaseOf(history + m'.events, id, throws) == if id in IdsOf(assets) then InQueue else Unheard)
  {
    hide PhaseOf, DistinctIds;
    if assets != [] {
      hide IdsOf;
      var (init, last) := (assets[..|assets| - 1], assets[|assets| - 1]);
      LastIsNew(assets);
      QueueAll(m, history, revision, init, throws);
      var m1 := QueueAssets(m, revision, init);
      var event := Event(QueuedEvent, revision, last.assetId, 0, INTERNAL_ERROR);
      var m' := QueueAsset(m1, revision, last);
      assert m' == m1.(states := m1.states[last.assetId := Queued], queue := m1.queue + [WorkItem(m.generation, revision, last)],
                       events := m1.events + [event]) by {
        QueueAssetsKeeps(m, revision, init);
      }
      assert history + m'.events == (history + m1.events) + [event];
      forall id: u32
        ensures PhaseOf(history + m'.events, id, throws) == if id in IdsOf(assets) then InQueue else Unheard
      {
        PhaseAppend(history + m1.events, event, id, throws);
      }
    }
  }

  lemma LastIsNew(assets: seq<AssetDescription>)
    requires assets != [] && DistinctIds(assets)
    ensures var (init, last) := (assets[..|assets| - 1], assets[|assets| - 1]);
            && DistinctIds(init)
            && last.assetId !in IdsOf(init)
            && IdsOf(assets) == IdsOf(init) + {last.assetId}
  {
    var (init, last) := (assets[..|assets| - 1], assets[|assets| - 1]);
    assert assets == init + [last];
    DistinctAppend(init, last);
  }

  lemma SilentEvent(trace: seq<Event>, event: Event, throws: bool)
    requires event.kind == BeginEvent || event.kind == CompleteEvent
    ensures forall id: u32 :: PhaseOf(trace + [event], id, throws) == PhaseOf(trace, id, throws)
  {
    forall id: u32
      ensures PhaseOf(trace + [event], id, throws) == PhaseOf(trace, id, throws)
    {
      PhaseAppend(trace, event, id, throws);
    }
  }

  lemma HeardBegin(hash: Hash, root: Path, e: Engine, message: Message)
    requires Inv(e)
    requires HandleMessage(e.manager.receiver, message).1 != Completed
    ensures SessionInv(Next(hash, root, e, Hear(message)))
  {
    hide HandleMessage, ReceiverAfter, IsManifest, PhaseOf;
    CompletedOnce(e.heard, message);
    var e' := Next(hash, root, e, Hear(message));
    if e'.manager.events != e.manager.events {
      var event := e'.manager.events[|e.manager.events|];
      assert e.history + (e.manager.events + [event]) == Trace(e) + [event];
      SilentEvent(Trace(e), event, e.throws);
    }
    SamePhases(e, e');
  }

  /** The session invariant reads the manager through these fields only. */
  lemma SamePhases(e: Engine, e': Engine)
    requires SessionInv(e)
    requires e'.manager == e.manager.(events := e'.manager.events, receiver := e'.manager.receiver)
    requires e'.manager.receiver.completed == e.manager.receiver.completed
    requires e'.worker == e.worker && e'.session == e.session && e'.throws == e.throws && e'.taken == e.taken
    requires forall id: u32 :: PhaseOf(Trace(e'), id, e.throws) == PhaseOf(Trace(e), id, e.throws)
    ensures SessionInv(e')
  {
    hide IsManifest, PhaseOf, Trace;
    match e.manager.receiver.completed {
      case None =>
      case Some(m) =>
        forall i | 0 <= i < |m.assets|
          ensures AssetInv(e', m, i)
        {
          assert AssetInv(e, m, i);
        }
    }
  }

  lemma HeardEnd(hash: Hash, root: Path, e: Engine, message: Message)
    requires Inv(e)
    requires HandleMessage(e.manager.receiver, message).1 == Completed
    ensures SessionInv(Next(hash, root, e, Hear(message)))
  {
    hide HandleMessage, ReceiverAfter, PhaseOf, IsManifest, QueueAssets;
    CompletedOnce(e.heard, message);
    assert ReceiverAfter(e.heard + [message]) == HandleMessage(e.manager.receiver, message).0 by {
      ReceiverAppend(e.heard, message);
    }
    CompletedIsManifest(e.heard + [message]);
    var receiver := HandleMessage(e.manager.receiver, message).0;
    var m := receiver.completed.value;
    ManifestIds(m);
    var event := Event(CompleteEvent, m.revision, 0, |m.assets| % 0x1_0000_0000, INTERNAL_ERROR);
    var announced := e.manager.(receiver := receiver, events := e.manager.events + [event]);
    assert e.history + announced.events == Trace(e) + [event];
    SilentEvent(Trace(e), event, e.throws);
    assert announced.states == map[] by {
      assert forall id: u32 :: id !in e.manager.states;
    }
    QueueAll(announced, e.history, m.revision, m.assets, e.throws);
    QueueAssetsKeeps(announced, m.revision, m.assets);
    var e' := Next(hash, root, e, Hear(message));
    FreshSession(e', m);
  }

  lemma ReceiverAppend(ms: seq<Message>, m: Message)
    ensures ReceiverAfter(ms + [m]) == HandleMessage(ReceiverAfter(ms), m).0
  {
    hide HandleMessage;
    assert (ms + [m])[..|ms|] == ms;
  }

  lemma ManifestIds(m: Manifest)
    requires IsManifest(m)
    ensures DistinctIds(m.assets)
  {}

  /** A session right after its manifest completed. */
  lemma FreshSession(e: Engine, m: Manifest)
    requires e.manager.receiver.completed == Some(m) && IsManifest(m)
    requires e.taken == 0 && !IsCurrentWork(e)
    requires |e.manager.queue| == |m.assets|
    requires forall j | 0 <= j < |m.assets| :: e.manager.queue[j] == WorkItem(e.manager.generation, m.revision, m.assets[j])
    requires e.manager.states.Keys == IdsOf(m.assets) && forall id | id in e.manager.states :: e.manager.states[id] == Queued
    requires forall id: u32 :: PhaseOf(Trace(e), id, e.throws) == if id in IdsOf(m.assets) then InQueue else Unheard
    ensures SessionInv(e)
  {
    hide IsManifest, PhaseOf, Trace;
    forall i | 0 <= i < |m.assets|
      ensures AssetInv(e, m, i)
    {
      assert m.assets[i].assetId in IdsOf(m.assets);
    }
  }

  lemma NetworkStep(hash: Hash, root: Path, e: Engine, a: Action)
    requires Inv(e) && !a.Work? && !a.Throw?
    ensures Inv(Next(hash, root, e, a))
  {
    hide HandleMessage, ReceiverAfter, PhaseOf, IsManifest, ReceiveMessage;
    GenerationStep(hash, root, e, a);
    var e' := Next(hash, root, e, a);
    match a {
      case Hear(message) =>
        ReceiverAppend(e.heard, message);
        ReceiveKeeps(e.manager, message);
        if HandleMessage(e.manager.receiver, message).1 == Completed {
          HeardEnd(hash, root, e, message);
        } else {
          HeardBegin(hash, root, e, message);
        }
      case Drain =>
        assert Trace(e') == Trace(e);
        SamePhases(e, e');
      case Reset => ResetStep(hash, root, e);
      case Stop => StopStep(hash, root, e);
      case Tick => SamePhases(e, e');
    }
  }

  lemma ResetStep(hash: Hash, root: Path, e: Engine)
    requires Inv(e)
    ensures var e' := Next(hash, root, e, Reset); e'.manager.receiver == ReceiverAfter(e'.heard) && SessionInv(e')
  {
    var e' := Next(hash, root, e, Reset);
    assert Trace(e') == [];
  }

  lemma StopStep(hash: Hash, root: Path, e: Engine)
    requires Inv(e)
    ensures SessionInv(Next(hash, root, e, Stop))
  {
    hide PhaseOf, IsManifest, ReceiverAfter, GenerationInv;
    var e' := Next(hash, root, e, Stop);
    assert Trace(e') == Trace(e);
    match e.manager.receiver.completed {
      case None =>
      case Some(m) =>
        forall i | 0 <= i < |m.assets|
          ensures AssetInv(e', m, i)
        {
          assert AssetInv(e, m, i);
        }
    }
  }

  // Worker steps.

  /** A step keeps the worker and the asset's phase together. */
  ghost predicate FollowsGrammar(effect: Effect, phase: Phase, throws: bool, dropped: bool) {
    match effect.say
    case None => if effect.next.Some? then Fits(effect.next.value, phase, throws) else phase == InQueue && dropped
    case Some(s) =>
      var phase' := Advance(phase, s.kind, throws);
      && s.kind != BeginEvent && s.kind != CompleteEvent
      && s.state == StateOf(phase')
      && if effect.next.Some? then Fits(effect.next.value, phase', throws) else phase'.Finished?
  }

  predicate IsSilent(pc: Pc) {
    pc == Check || pc == Lookup || pc == Fetch || pc == Verify || pc == Commit
  }

  lemma SilentFollows(
      hash: Hash, root: Path, m: Manager, files: FileSystem, pc: Pc, work: WorkItem, o: Outcome, phase: Phase, throws: bool)
    requires Fits(pc, phase, throws) && IsSilent(pc)
    ensures FollowsGrammar(EffectOf(hash, root, m, files, pc, work, o), phase, throws, !IsCurrent(m, work.generation))
  {
    hide LookupIn, CommitIn, TemporaryPathFor, PathFor, RemoveIn, Advance;
  }

  lemma SpokenFollows(
      hash: Hash, root: Path, m: Manager, files: FileSystem, pc: Pc, work: WorkItem, o: Outcome, phase: Phase, throws: bool)
    requires Fits(pc, phase, throws) && !IsSilent(pc)
    ensures FollowsGrammar(EffectOf(hash, root, m, files, pc, work, o), phase, throws, !IsCurrent(m, work.generation))
  {
    hide LookupEffect, FetchEffect, VerifyEffect, CommitEffect;
  }

  /** The worker's table against the grammar: every step keeps the worker and the asset's phase in step, and
      only a finished asset, or one dropped unstarted because of a stop or a reset, is let go. */
  lemma TableFollowsGrammar(
      hash: Hash, root: Path, m: Manager, files: FileSystem, pc: Pc, work: WorkItem, o: Outcome, phase: Phase, throws: bool)
    requires Fits(pc, phase, throws)
    ensures FollowsGrammar(EffectOf(hash, root, m, files, pc, work, o), phase, throws, !IsCurrent(m, work.generation))
  {
    hide EffectOf, Fits, FollowsGrammar, IsSilent;
    if IsSilent(pc) {
      SilentFollows(hash, root, m, files, pc, work, o, phase, throws);
    } else {
      SpokenFollows(hash, root, m, files, pc, work, o, phase, throws);
    }
  }

  lemma TakeStep(hash: Hash, root: Path, e: Engine, o: Outcome)
    requires Inv(e) && e.worker == Waiting
    ensures SessionInv(WorkerStep(hash, root, e, o))
  {
    hide PhaseOf, IsManifest, ReceiverAfter;
    var e' := WorkerStep(hash, root, e, o);
    assert Trace(e') == Trace(e);
    if e' != e {
      var m := e.manager.receiver.completed.value;
      forall i | 0 <= i < |m.assets|
        ensures AssetInv(e', m, i)
      {
        assert AssetInv(e, m, i);
      }
    }
  }

  lemma StaleStep(hash: Hash, root: Path, e: Engine, a: Action)
    requires Inv(e) && IsFenced(e) && e.worker.Busy? && !IsCurrentWork(e) && (a.Work? || a.Throw?)
    ensures SessionInv(Next(hash, root, e, a))
  {
    hide PhaseOf, IsManifest, ReceiverAfter, GenerationInv, EffectOf;
    StaleWorkIsSilent(hash, root, e, a);
    var e' := Next(hash, root, e, a);
    assert Trace(e') == Trace(e) && !IsCurrentWork(e') && e'.taken == e.taken && e'.throws == e.throws;
    UntouchedSession(e, e');
  }

  lemma UntouchedSession(e: Engine, e': Engine)
    requires SessionInv(e) && !IsCurrentWork(e)
    requires e'.manager == e.manager && Trace(e') == Trace(e) && !IsCurrentWork(e')
    requires e'.taken == e.taken && e'.throws == e.throws
    ensures SessionInv(e')
  {
    hide PhaseOf, IsManifest, Trace;
    match e.manager.receiver.completed {
      case None =>
      case Some(m) =>
        forall i | 0 <= i < |m.assets|
          ensures AssetInv(e', m, i)
        {
          assert AssetInv(e, m, i);
        }
    }
  }

  /** The worker's own asset moves on; every other asset stays where it was. */
  lemma CurrentStep(hash: Hash, root: Path, e: Engine, o: Outcome)
    requires Inv(e) && IsFenced(e) && IsCurrentWork(e)
    ensures SessionInv(WorkerStep(hash, root, e, o))
  {
    hide PhaseOf, IsManifest, ReceiverAfter, GenerationInv, EffectOf, Fits;
    FenceDecides(e);
    var m := e.manager.receiver.completed.value;
    var mine := e.taken - 1;
    var Busy(pc, work, origin) := e.worker;
    var phase := PhaseOf(Trace(e), work.asset.assetId, e.throws);
    assert AssetInv(e, m, mine);
    TableFollowsGrammar(hash, root, e.manager, e.files, pc, work, o, phase, e.throws);
    var effect := EffectOf(hash, root, e.manager, e.files, pc, work, o);
    var e' := WorkerStep(hash, root, e, o);
    ManifestIds(m);
    if effect.say == None {
      assert Trace(e') == Trace(e);
    } else {
      var s := effect.say.value;
      var event := Event(s.kind, work.manifestRevision, work.asset.assetId, 0, s.error);
      assert Trace(e') == Trace(e) + [event];
      forall id: u32
        ensures PhaseOf(Trace(e'), id, e.throws) ==
                if id == work.asset.assetId then Advance(phase, s.kind, e.throws) else PhaseOf(Trace(e), id, e.throws)
      {
        PhaseAppend(Trace(e), event, id, e.throws);
      }
    }
    MovedOn(e, e', m, mine);
  }

  /** One asset of the manifest changed phase, and the worker with it. */
  lemma MovedOn(e: Engine, e': Engine, m: Manifest, mine: nat)
    requires SessionInv(e) && IsCurrentWork(e)
    requires e.manager.receiver.completed == Some(m) && DistinctIds(m.assets) && mine == e.taken - 1
    requires e'.manager == e.manager.(events := e'.manager.events, states := e'.manager.states)
    requires e'.session == e.session && e'.taken == e.taken && e'.throws == e.throws
    requires e'.worker == Waiting || (e'.worker.Busy? && e'.worker.work == e.worker.work && e'.worker.origin == e.worker.origin)
    requires forall id: u32 | id != m.assets[mine].assetId ::
               && PhaseOf(Trace(e'), id, e.throws) == PhaseOf(Trace(e), id, e.throws)
               && (id in e'.manager.states <==> id in e.manager.states)
               && StateIn(e'.manager, id) == StateIn(e.manager, id)
    requires AssetInv(e', m, mine)
    ensures SessionInv(e')
  {
    hide PhaseOf, IsManifest, Trace, Fits;
    forall i | 0 <= i < |m.assets|
      ensures AssetInv(e', m, i)
    {
      assert AssetInv(e, m, i);
    }
    assert m.assets[mine] in m.assets;
  }

  lemma ThrowKeeps(hash: Hash, root: Path, e: Engine)
    requires Inv(e) && IsCurrentWork(e)
    ensures SessionInv(Next(hash, root, e, Throw))
  {
    hide PhaseOf, IsManifest, ReceiverAfter, GenerationInv, AssetInv, Fits, NothingElse;
    var e' := Next(hash, root, e, Throw);
    assert Trace(e') == Trace(e);
    if e' != e {
      var m := e.manager.receiver.completed.value;
      ManifestIds(m);
      ThrowFits(e, m);
      MovedOn(e, e', m, e.taken - 1);
    }
  }

  lemma ThrowFits(e: Engine, m: Manifest)
    requires IsCurrentWork(e) && 1 <= e.taken <= |m.assets| && AssetInv(e, m, e.taken - 1)
    ensures AssetInv(ThrowStep(e), m, e.taken - 1)
  {
    hide PhaseOf;
    assert Trace(ThrowStep(e)) == Trace(e);
  }

  /** Every step of every thread keeps the session invariant, as long as the worker's item is fenced. */
  lemma StepKeeps(hash: Hash, root: Path, e: Engine, a: Action)
    requires Inv(e) && IsFenced(e)
    ensures Inv(Next(hash, root, e, a))
  {
    hide SessionInv, GenerationInv, ReceiverAfter, EffectOf;
    if !a.Work? && !a.Throw? {
      NetworkStep(hash, root, e, a);
    } else {
      GenerationStep(hash, root, e, a);
      if e.worker == Waiting {
        if a.Work? {
          TakeStep(hash, root, e, a.outcome);
        }
      } else if !IsCurrentWork(e) {
        StaleStep(hash, root, e, a);
      } else if a.Work? {
        CurrentStep(hash, root, e, a.outcome);
      } else {
        ThrowKeeps(hash, root, e);
      }
    }
  }

  // Whole runs.

  /** The worker's item stays fenced at every moment of a run. */
  ghost predicate FencedRun(hash: Hash, root: Path, e: Engine, actions: seq<Action>) {
    forall n | 0 <= n <= |actions| :: IsFenced(Run(hash, root, e, actions[..n]))
  }

  lemma {:induction false} RunKeeps(hash: Hash, root: Path, e: Engine, actions: seq<Action>)
    requires Inv(e) && FencedRun(hash, root, e, actions)
    ensures Inv(Run(hash, root, e, actions))
  {
    hide Inv, Next;
    if actions != [] {
      var init := actions[..|actions| - 1];
      assert forall n | 0 <= n <= |init| :: actions[..n] == init[..n];
      assert init[..|init|] == init;
      RunKeeps(hash, root, e, init);
      assert IsFenced(Run(hash, root, e, init));
      StepKeeps(hash, root, Run(hash, root, e, init), actions[|actions| - 1]);
    }
  }

  /** In every reachable state the events of the session about any id follow the grammar, say nothing about an
      id outside the session's manifest, and agree with the state the manager shows. */
  lemma EventsFollowGrammar(hash: Hash, root: Path, files: FileSystem, throws: bool, actions: seq<Action>, id: u32)
    requires FencedRun(hash, root, Start(files, throws), actions)
    ensures var e := Run(hash, root, Start(files, throws), actions);
            var phase := PhaseOf(Trace(e), id, throws);
            && phase != Broken
            && StateIn(e.manager, id) == StateOf(phase)
            && (phase != Unheard ==> e.manager.receiver.completed.Some? && id in IdsOf(e.manager.receiver.completed.value.assets))
  {
    hide FencedRun, PhaseOf, Run, IsManifest, ReceiverAfter, GenerationInv, Trace;
    StartInv(files, throws);
    RunKeeps(hash, root, Start(files, throws), actions);
    RunConstants(hash, root, Start(files, throws), actions);
    var e := Run(hash, root, Start(files, throws), actions);
    match e.manager.receiver.completed {
      case None =>
      case Some(m) =>
        if id in IdsOf(m.assets) {
          var i :| 0 <= i < |m.assets| && m.assets[i].assetId == id;
          assert AssetInv(e, m, i);
        }
    }
  }

  lemma {:induction false} RunConstants(hash: Hash, root: Path, e: Engine, actions: seq<Action>)
    ensures Run(hash, root, e, actions).throws == e.throws
  {
    hide EffectOf;
    if actions != [] {
      RunConstants(hash, root, e, actions[..|actions| - 1]);
    }
  }

  /** Conservation: while no stop was requested, an asset of the completed manifest that is not finished is in the
      queue, once, at its place in manifest order, or is the worker's current item; never both, never neither. */
  lemma UnfinishedIsQueuedOrHeld(hash: Hash, root: Path, files: FileSystem, throws: bool, actions: seq<Action>, i: nat)
    requires FencedRun(hash, root, Start(files, throws), actions)
    ensures var e := Run(hash, root, Start(files, throws), actions);
            e.manager.receiver.completed.Some? && !e.manager.stopping && i < |e.manager.receiver.completed.value.assets| ==>
              var m := e.manager.receiver.completed.value;
              var phase := PhaseOf(Trace(e), m.assets[i].assetId, throws);
              var place := i - e.taken;
              && |e.manager.queue| == |m.assets| - e.taken
              && (!phase.Finished? <==> 0 <= place || (place == -1 && IsCurrentWork(e)))
              && (0 <= place ==> e.manager.queue[place] == ItemOf(e, m, i) && phase == InQueue)
              && (place == -1 && IsCurrentWork(e) ==> e.worker.work == ItemOf(e, m, i))
  {
    hide FencedRun, PhaseOf, Run, IsManifest, ReceiverAfter, GenerationInv, Trace;
    StartInv(files, throws);
    RunKeeps(hash, root, Start(files, throws), actions);
    RunConstants(hash, root, Start(files, throws), actions);
    var e := Run(hash, root, Start(files, throws), actions);
    if e.manager.receiver.completed.Some? && !e.manager.stopping && i < |e.manager.receiver.completed.value.assets| {
      var m := e.manager.receiver.completed.value;
      assert AssetInv(e, m, i);
      assert 0 <= i - e.taken ==> e.manager.queue[i - e.taken] == ItemOf(e, m, i);
    }
  }

  // Progress.

  /** Steps the worker needs at most before it lets its item go. */
  function Rank(pc: Pc): nat {
    match pc
    case Check => 9
    case Lookup => 8
    case SayDownloading => 7
    case Fetch => 6
    case SayVerifying => 5
    case Verify => 4
    case SayVerified => 3
    case Commit => 2
    case SayCacheHit => 2
    case SayHitReady => 1
    case SayReady => 1
    case SayFailed(_) => 1
  }

  function StepsLeft(e: Engine): nat {
    10 * |e.manager.queue| + if e.worker.Busy? then Rank(e.worker.pc) else 0
  }

  /** How many of the actions are steps of the worker. */
  function WorkSteps(actions: seq<Action>): nat {
    if actions == [] then 0 else WorkSteps(actions[..|actions| - 1]) + if actions[|actions| - 1].Work? then 1 else 0
  }

  /** The session goes on: nobody resets it or stops the manager. */
  predicate Continues(a: Action) {
    !a.Reset? && !a.Stop?
  }

  lemma EffectShrinks(hash: Hash, root: Path, m: Manager, files: FileSystem, pc: Pc, work: WorkItem, o: Outcome)
    ensures var next := EffectOf(hash, root, m, files, pc, work, o).next; next.Some? ==> Rank(next.value) < Rank(pc)
  {
    hide LookupIn, CommitIn, TemporaryPathFor, PathFor, RemoveIn;
  }

  lemma WorkShrinks(hash: Hash, root: Path, e: Engine, o: Outcome)
    requires !e.manager.stopping
    ensures var e' := WorkerStep(hash, root, e, o);
            && !e'.manager.stopping
            && e'.manager.receiver == e.manager.receiver
            && e'.session == e.session && e'.throws == e.throws
            && (e'.worker.Busy? ==> e'.worker.origin == if e.worker.Busy? then e.worker.origin else e.session)
            && (StepsLeft(e) == 0 ==> e' == e)
            && (StepsLeft(e) > 0 ==> StepsLeft(e') < StepsLeft(e))
  {
    hide EffectOf, RecordOf;
    if e.worker.Busy? {
      EffectShrinks(hash, root, e.manager, e.files, e.worker.pc, e.worker.work, o);
    }
  }

  /** One action of anybody, in a session whose manifest is complete: nothing adds work, and a step of the worker takes
      some away as long as there is any. */
  lemma ProgressStep(hash: Hash, root: Path, e: Engine, a: Action)
    requires Inv(e) && IsFenced(e) && !e.manager.stopping && e.manager.receiver.completed.Some? && Continues(a)
    ensures var e' := Next(hash, root, e, a);
            && Inv(e') && IsFenced(e') && !e'.manager.stopping
            && e'.manager.receiver.completed == e.manager.receiver.completed && e'.throws == e.throws
            && StepsLeft(e') <= StepsLeft(e)
            && (a.Work? && StepsLeft(e) > 0 ==> StepsLeft(e') < StepsLeft(e))
  {
    hide Inv, WorkerStep, HandleMessage, ReceiverAfter, QueueAssets;
    StepKeeps(hash, root, e, a);
    match a {
      case Work(outcome) => WorkShrinks(hash, root, e, outcome);
      case Hear(message) =>
        InvReceiver(e);
        LatchedUntilReset(e.heard, message);
        ReceiveKeeps(e.manager, message);
      case _ =>
    }
  }

  lemma InvReceiver(e: Engine)
    requires Inv(e)
    ensures e.manager.receiver == ReceiverAfter(e.heard)
  {}

  /** Progress: worker steps count down what is left, however the other actions fall between them. */
  lemma {:induction false} WorkDrains(hash: Hash, root: Path, e: Engine, actions: seq<Action>)
    requires Inv(e) && IsFenced(e) && !e.manager.stopping && e.manager.receiver.completed.Some?
    requires forall a | a in actions :: Continues(a)
    ensures var e' := Run(hash, root, e, actions);
            && Inv(e') && IsFenced(e') && !e'.manager.stopping
            && e'.manager.receiver.completed == e.manager.receiver.completed && e'.throws == e.throws
            && (StepsLeft(e') == 0 || StepsLeft(e') + WorkSteps(actions) <= StepsLeft(e))
  {
    hide Inv, Next, StepsLeft, Continues;
    if actions != [] {
      var (init, last) := (actions[..|actions| - 1], actions[|actions| - 1]);
      WorkDrains(hash, root, e, init);
      assert last in actions;
      ProgressStep(hash, root, Run(hash, root, e, init), last);
    }
  }

  /** With a completed manifest and no reset or stop, the worker finishes it: whatever else is heard, drained or thrown
      between its steps, and whatever the disk and the downloads do, after at most ten steps per waiting item and nine
      for the one in hand, every asset is Ready or Failed. */
  lemma WorkerFinishes(hash: Hash, root: Path, e: Engine, actions: seq<Action>)
    requires Inv(e) && IsFenced(e) && !e.manager.stopping && e.manager.receiver.completed.Some?
    requires forall a | a in actions :: Continues(a)
    requires WorkSteps(actions) >= 10 * |e.manager.queue| + 9
    ensures var e' := Run(hash, root, e, actions);
            && e'.worker == Waiting && e'.manager.queue == []
            && forall asset | asset in e.manager.receiver.completed.value.assets ::
                 && PhaseOf(Trace(e'), asset.assetId, e.throws).Finished?
                 && (StateIn(e'.manager, asset.assetId) == Ready || StateIn(e'.manager, asset.assetId) == AssetFailed)
  {
    hide Run, PhaseOf, Trace, Inv;
    WorkDrains(hash, root, e, actions);
    var e' := Run(hash, root, e, actions);
    assert StepsLeft(e') == 0;
    AllFinished(e');
  }

  /** A waiting worker and an empty queue mean that every asset of the session is finished. */
  lemma AllFinished(e: Engine)
    requires Inv(e) && !e.manager.stopping && e.manager.receiver.completed.Some?
    requires e.worker == Waiting && e.manager.queue == []
    ensures forall asset | asset in e.manager.receiver.completed.value.assets ::
              && PhaseOf(Trace(e), asset.assetId, e.throws).Finished?
              && (StateIn(e.manager, asset.assetId) == Ready || StateIn(e.manager, asset.assetId) == AssetFailed)
  {
    hide PhaseOf, Trace, IsManifest, ReceiverAfter, GenerationInv;
    var m := e.manager.receiver.completed.value;
    forall asset | asset in m.assets
      ensures PhaseOf(Trace(e), asset.assetId, e.throws).Finished?
      ensures StateIn(e.manager, asset.assetId) == Ready || StateIn(e.manager, asset.assetId) == AssetFailed
    {
      var i :| 0 <= i < |m.assets| && m.assets[i] == asset;
      assert AssetInv(e, m, i);
    }
  }
}
