/** The worker as the straight code it is: one item from start to finish, and the loop that serves the queue. */
module AssetWorker {
  import opened Bytes
  import opened Protocol
  import opened AssetCache
  import opened AssetManager
  import opened AssetEngine
  import opened GenerationFence
  import opened AssetSession

  /** The engine after the worker has let go of its item, when nothing else happens meanwhile. */
  function Settled(hash: Hash, root: Path, e: Engine, o: Outcome): (r: Engine)
    decreases if e.worker.Busy? then Rank(e.worker.pc) else 0
  {
    if e.worker == Waiting then e
    else
      StepShrinks(hash, root, e, o);
      Settled(hash, root, WorkerStep(hash, root, e, o), o)
  }

  lemma StepShrinks(hash: Hash, root: Path, e: Engine, o: Outcome)
    requires e.worker.Busy?
    ensures var e' := WorkerStep(hash, root, e, o);
            (if e'.worker.Busy? then Rank(e'.worker.pc) else 0) < Rank(e.worker.pc)
  {
    hide EffectOf, RecordOf;
    EffectShrinks(hash, root, e.manager, e.files, e.worker.pc, e.worker.work, o);
  }

  /** The step tells the object's story: the manager and the disk after one step. */
  lemma StepShows(hash: Hash, root: Path, e: Engine, o: Outcome)
    requires e.worker.Busy?
    ensures var (e', effect) := (WorkerStep(hash, root, e, o),
                                 EffectOf(hash, root, e.manager, e.files, e.worker.pc, e.worker.work, o));
            && e'.files == effect.files
            && e'.manager == (match effect.say
                              case None => e.manager
                              case Some(s) => AfterReport(e.manager, e.worker.work, s.state, s.kind, s.error))
            && e'.worker == (match effect.next case None => Waiting case Some(pc) => Busy(pc, e.worker.work, e.worker.origin))
            && Settled(hash, root, e, o) == Settled(hash, root, e', o)
  {
    hide EffectOf, RecordOf, AfterReport;
  }

  /** The engine after the worker has served the queue, one outcome for each item. */
  function Served(hash: Hash, root: Path, e: Engine, outcomes: seq<Outcome>): Engine
    decreases outcomes
  {
    if outcomes == [] || e.manager.stopping || e.manager.queue == [] then e
    else
      var o := outcomes[0];
      Served(hash, root, Settled(hash, root, WorkerStep(hash, root, e, o), o), outcomes[1..])
  }

  /** Settling and serving are engine steps, so they keep what every step keeps, and an item served is an item less. */
  lemma {:induction false} SettledKeeps(hash: Hash, root: Path, e: Engine, o: Outcome)
    requires Inv(e) && IsFenced(e) && !e.manager.stopping
    ensures var e' := Settled(hash, root, e, o);
            && Inv(e') && e'.worker == Waiting && !e'.manager.stopping
            && e'.manager.queue == e.manager.queue && e'.manager.receiver == e.manager.receiver && e'.throws == e.throws
    decreases if e.worker.Busy? then Rank(e.worker.pc) else 0
  {
    hide Inv, WorkerStep;
    if e.worker.Busy? {
      StepShrinks(hash, root, e, o);
      StepKeeps(hash, root, e, Work(o));
      WorkShrinks(hash, root, e, o);
      QueueKept(hash, root, e, o);
      SettledKeeps(hash, root, WorkerStep(hash, root, e, o), o);
    }
  }

  lemma QueueKept(hash: Hash, root: Path, e: Engine, o: Outcome)
    requires e.worker.Busy?
    ensures WorkerStep(hash, root, e, o).manager.queue == e.manager.queue
  {
    hide EffectOf, RecordOf;
  }

  /** The worker loop finishes the session: with a completed manifest, no stop and no reset, serving the queue leaves
      every asset ready or failed. */
  lemma {:induction false} ServedFinishes(hash: Hash, root: Path, e: Engine, outcomes: seq<Outcome>)
    requires Inv(e) && e.worker == Waiting && !e.manager.stopping && e.manager.receiver.completed.Some?
    requires |outcomes| >= |e.manager.queue|
    ensures var e' := Served(hash, root, e, outcomes);
            && e'.manager.queue == [] && e'.worker == Waiting
            && forall asset | asset in e.manager.receiver.completed.value.assets ::
                 && PhaseOf(Trace(e'), asset.assetId, e.throws).Finished?
                 && (StateIn(e'.manager, asset.assetId) == Ready || StateIn(e'.manager, asset.assetId) == AssetFailed)
    decreases outcomes
  {
    hide Inv, PhaseOf, Trace, Settled, EffectOf;
    if e.manager.queue == [] {
      AllFinished(e);
    } else {
      var o := outcomes[0];
      var taken := WorkerStep(hash, root, e, o);
      StepKeeps(hash, root, e, Work(o));
      SettledKeeps(hash, root, taken, o);
      ServedFinishes(hash, root, Settled(hash, root, taken, o), outcomes[1..]);
    }
  }

  class AssetWorker {
    const manager: ClientAssetManager
    const cache: AssetCache

    constructor (manager: ClientAssetManager, cache: AssetCache)
      ensures this.manager == manager && this.cache == cache
    {
      this.manager, this.cache := manager, cache;
    }

    /** The objects are in the state the engine describes. */
    ghost predicate Shows(e: Engine)
      reads manager, manager.receiver, cache
    {
      e.manager == manager.View() && e.files == cache.files
    }

    method Fail(work: WorkItem, reason: u16)
      modifies manager
      ensures manager.View() == AfterReport(old(manager.View()), work, AssetFailed, FailedEvent, reason)
    {
      manager.SetState(work, AssetFailed, FailedEvent, reason);
    }

    /** One item, with nothing in between, is the engine's worker stepping until it waits again. */
    method Process(work: WorkItem, o: Outcome, ghost e: Engine)
      requires Shows(e) && e.worker.Busy? && e.worker.pc == Check && e.worker.work == work
      modifies manager, cache
      ensures Shows(Settled(cache.hash, cache.root, e, o))
    {
      hide LookupIn, CommitIn, RemoveIn, TemporaryPathFor, PathFor, Settled, WorkerStep, AfterReport;
      ghost var g := Advance(e, o);
      var current := manager.generation == work.generation && !manager.stopping;
      if !current {
        SettledWaiting(g, o);
        return;
      }
      var found := cache.Lookup(work.asset, o.lookup);
      g := Advance(g, o);
      if found == Hit {
        manager.SetState(work, Ready, CacheHitEvent, INTERNAL_ERROR);
        g := Advance(g, o);
        manager.SetState(work, Ready, ReadyEvent, INTERNAL_ERROR);
        g := Advance(g, o);
        SettledWaiting(g, o);
        return;
      }
      if found == DiskFailure {
        Fail(work, DISK_FAILURE);
        g := Advance(g, o);
        SettledWaiting(g, o);
        return;
      }
      manager.SetState(work, Downloading, DownloadingEvent, INTERNAL_ERROR);
      g := Advance(g, o);
      Download(work, o, g);
    }

    method Download(work: WorkItem, o: Outcome, ghost e: Engine)
      requires Shows(e) && e.worker.Busy? && e.worker.pc == Fetch && e.worker.work == work
      modifies manager, cache
      ensures Shows(Settled(cache.hash, cache.root, e, o))
    {
      hide LookupIn, CommitIn, RemoveIn, TemporaryPathFor, PathFor, Settled, WorkerStep, AfterReport;
      var temporary := TemporaryPathFor(cache.root, work.asset);
      ghost var g := Advance(e, o);
      cache.RemoveTemporary(temporary, o.cleanFault);
      cache.files := if o.fetched.Some? then cache.files[temporary := o.fetched.value] else cache.files - {temporary};
      if o.fetchError != NoError {
        GiveUpWith(work, temporary, o, MapFetchError(o.fetchError), g);
        return;
      }
      if o.bytesReceived != work.asset.fileSize {
        GiveUpWith(work, temporary, o, SIZE_MISMATCH, g);
        return;
      }
      manager.SetState(work, Verifying, VerifyingEvent, INTERNAL_ERROR);
      g := Advance(g, o);
      VerifyDownload(work, temporary, o, g);
    }

    method VerifyDownload(work: WorkItem, temporary: Path, o: Outcome, ghost e: Engine)
      requires Shows(e) && e.worker.Busy? && e.worker.pc == Verify && e.worker.work == work
      requires temporary == TemporaryPathFor(cache.root, work.asset)
      modifies manager, cache
      ensures Shows(Settled(cache.hash, cache.root, e, o))
    {
      hide LookupIn, CommitIn, RemoveIn, TemporaryPathFor, PathFor, Settled, WorkerStep, AfterReport;
      ghost var g := Advance(e, o);
      if o.sizeFault || temporary !in cache.files || cache.files[temporary].Other? {
        GiveUpWith(work, temporary, o, DISK_FAILURE, g);
        return;
      }
      var data := cache.files[temporary].data;
      if |data| != work.asset.fileSize {
        GiveUpWith(work, temporary, o, SIZE_MISMATCH, g);
        return;
      }
      if o.readFault {
        GiveUpWith(work, temporary, o, DISK_FAILURE, g);
        return;
      }
      if cache.hash(data) != work.asset.sha256 {
        GiveUpWith(work, temporary, o, HASH_MISMATCH, g);
        return;
      }
      manager.SetState(work, Verifying, VerifiedEvent, INTERNAL_ERROR);
      g := Advance(g, o);
      CommitDownload(work, temporary, o, g);
    }

    method CommitDownload(work: WorkItem, temporary: Path, o: Outcome, ghost e: Engine)
      requires Shows(e) && e.worker.Busy? && e.worker.pc == Pc.Commit && e.worker.work == work
      requires temporary == TemporaryPathFor(cache.root, work.asset)
      modifies manager, cache
      ensures Shows(Settled(cache.hash, cache.root, e, o))
    {
      hide LookupIn, CommitIn, RemoveIn, TemporaryPathFor, PathFor, Settled, WorkerStep, AfterReport;
      var done := cache.CommitVerified(work.asset, temporary, o.commit);
      ghost var g := Advance(e, o);
      if !done {
        GiveUpWith(work, temporary, o, DISK_FAILURE, g);
        return;
      }
      manager.SetState(work, Ready, ReadyEvent, INTERNAL_ERROR);
      g := Advance(g, o);
      SettledWaiting(g, o);
    }

    /** The temporary file goes, and the failure is reported. */
    method GiveUpWith(work: WorkItem, temporary: Path, o: Outcome, reason: u16, ghost e: Engine)
      requires e.worker.Busy? && e.worker.pc == SayFailed(reason) && e.worker.work == work
      requires e.manager == manager.View() && e.files == RemoveIn(cache.files, temporary, o.discardFault)
      modifies manager, cache
      ensures Shows(Settled(cache.hash, cache.root, e, o))
    {
      hide RemoveIn, Settled, WorkerStep, AfterReport;
      cache.RemoveTemporary(temporary, o.discardFault);
      ghost var g := Advance(e, o);
      Fail(work, reason);
      SettledWaiting(g, o);
    }

    /** The loop, left alone: it takes the front item and processes it until there is none. */
    method WorkerLoop(outcomes: seq<Outcome>, ghost e: Engine)
      requires Shows(e) && e.worker == Waiting && |outcomes| >= |manager.queue|
      modifies manager, cache
      ensures Shows(Served(cache.hash, cache.root, e, outcomes))
    {
      hide Settled, EffectOf;
      ghost var g := e;
      var next := 0;
      while !manager.stopping && manager.queue != []
        invariant Shows(g) && g.worker == Waiting
        invariant next <= |outcomes| && |manager.queue| <= |outcomes| - next
        invariant Served(cache.hash, cache.root, e, outcomes) == Served(cache.hash, cache.root, g, outcomes[next..])
        decreases |outcomes| - next
      {
        var o := outcomes[next];
        var work := manager.TakeWork();
        g := WorkerStep(cache.hash, cache.root, g, o);
        assert outcomes[next..][1..] == outcomes[next + 1..];
        ghost var settled := Settled(cache.hash, cache.root, g, o);
        SettledShape(g, o);
        Process(work.value, o, g);
        g := settled;
        next := next + 1;
      }
    }

    lemma {:induction false} SettledShape(e: Engine, o: Outcome)
      ensures var e' := Settled(cache.hash, cache.root, e, o);
              e'.worker == Waiting && e'.manager.queue == e.manager.queue
      decreases if e.worker.Busy? then Rank(e.worker.pc) else 0
    {
      hide WorkerStep;
      if e.worker.Busy? {
        StepShrinks(cache.hash, cache.root, e, o);
        QueueKept(cache.hash, cache.root, e, o);
        SettledShape(WorkerStep(cache.hash, cache.root, e, o), o);
      }
    }

    lemma SettledWaiting(e: Engine, o: Outcome)
      requires e.worker == Waiting
      ensures Settled(cache.hash, cache.root, e, o) == e
    {}

    ghost function Advance(e: Engine, o: Outcome): (e': Engine)
      requires e.worker.Busy?
      ensures var effect := EffectOf(cache.hash, cache.root, e.manager, e.files, e.worker.pc, e.worker.work, o);
              && e'.files == effect.files
              && e'.manager == (match effect.say
                                case None => e.manager
                                case Some(s) => AfterReport(e.manager, e.worker.work, s.state, s.kind, s.error))
              && e'.worker == (match effect.next case None => Waiting case Some(pc) => Busy(pc, e.worker.work, e.worker.origin))
              && Settled(cache.hash, cache.root, e, o) == Settled(cache.hash, cache.root, e', o)
    {
      StepShows(cache.hash, cache.root, e, o);
      WorkerStep(cache.hash, cache.root, e, o)
    }
  }
}
