/** What the engine does to the disk over whole runs: cache paths hold only their own content, temporary files
    do not stay, and nothing is downloaded into the cache twice. */
module CacheRefinement {
  import opened Bytes
  import opened Assets
  import opened Protocol
  import opened ManifestStream
  import opened AssetCache
  import opened AssetManager
  import opened AssetEngine
  import opened GenerationFence
  import opened AssetSession
  import opened AssetTruth

  // Cache paths hold only their own content.

  /** Going from one disk to another, nothing was put at a cache path but bytes with that path's digest. */
  ghost predicate OnlyOwnContent(hash: Hash, root: Path, before: FileSystem, after: FileSystem) {
    forall a: AssetDescription | PathFor(root, a) in after ::
      || (PathFor(root, a) in before && before[PathFor(root, a)] == after[PathFor(root, a)])
      || (after[PathFor(root, a)].File? && hash(after[PathFor(root, a)].data) == a.sha256)
  }

  lemma EffectWritesOwnContent(hash: Hash, root: Path, m: Manager, files: FileSystem, pc: Pc, work: WorkItem, o: Outcome)
    requires DiskFits(hash, root, files, pc, work.asset)
    ensures OnlyOwnContent(hash, root, files, EffectOf(hash, root, m, files, pc, work, o).files)
  {
    hide PathFor, TemporaryPathFor, LookupIn, CommitIn;
    var after := EffectOf(hash, root, m, files, pc, work, o).files;
    LookupSound(hash, root, files, work.asset, o.lookup);
    if pc == Commit {
      CommitSound(hash, root, files, work.asset, o.commit);
    }
    forall a: AssetDescription | PathFor(root, a) in after
      ensures || (PathFor(root, a) in files && files[PathFor(root, a)] == after[PathFor(root, a)])
              || (after[PathFor(root, a)].File? && hash(after[PathFor(root, a)].data) == a.sha256)
    {
      PathsIdentifyContent(root, a, work.asset);
    }
  }

  lemma StepWritesOwnContent(hash: Hash, root: Path, e: Engine, a: Action)
    requires DiskInv(hash, root, e)
    ensures OnlyOwnContent(hash, root, e.files, Next(hash, root, e, a).files)
  {
    hide PathFor, DiskFits, EffectOf;
    if a.Work? && e.worker.Busy? {
      var Busy(pc, work, origin) := e.worker;
      EffectWritesOwnContent(hash, root, e.manager, e.files, pc, work, a.outcome);
    }
  }

  /** Over a whole run, whatever the disk, the server and the downloads do: a file at a cache path is the one
      that was there before the run, or has the path's digest. */
  lemma {:induction false} CacheHoldsOwnContent(hash: Hash, root: Path, e: Engine, actions: seq<Action>)
    requires Inv(e) && TruthInv(hash, root, e) && FencedRun(hash, root, e, actions)
    ensures OnlyOwnContent(hash, root, e.files, Run(hash, root, e, actions).files)
  {
    hide Inv, DiskInv, LogInv, EventsBacked, Next, PathFor;
    if actions != [] {
      var init := actions[..|actions| - 1];
      assert forall n | 0 <= n <= |init| :: actions[..n] == init[..n];
      CacheHoldsOwnContent(hash, root, e, init);
      RunTruth(hash, root, e, init);
      StepWritesOwnContent(hash, root, Run(hash, root, e, init), actions[|actions| - 1]);
    }
  }

  // Temporary files.

  /** The only temporary file is that of the item between its download and its commit. */
  ghost predicate TemporariesHeld(root: Path, e: Engine) {
    forall a: AssetDescription | TemporaryPathFor(root, a) in e.files ::
      && e.worker.Busy?
      && HoldsTemporary(e.worker.pc)
      && TemporaryPathFor(root, a) == TemporaryPathFor(root, e.worker.work.asset)
  }

  /** No exception strikes, and removing a temporary file does not fail. */
  predicate Removes(a: Action) {
    a != Throw && (a.Work? ==> !a.outcome.discardFault && !a.outcome.commit.remove)
  }

  predicate HoldsTemporary(pc: Pc) {
    pc == SayVerifying || pc == Verify || pc == SayVerified || pc == Commit
  }

  /** What one step does at temporary paths: it keeps or adds at most that of its own asset, and that only while it goes on
      towards a commit. */
  lemma EffectAtTemporary(
      hash: Hash, root: Path, m: Manager, files: FileSystem, pc: Pc, work: WorkItem, o: Outcome, a: AssetDescription)
    requires Removes(Work(o))
    requires TemporaryPathFor(root, a) in files ==>
               HoldsTemporary(pc) && TemporaryPathFor(root, a) == TemporaryPathFor(root, work.asset)
    ensures var effect := EffectOf(hash, root, m, files, pc, work, o);
            TemporaryPathFor(root, a) in effect.files ==>
              && effect.next.Some? && HoldsTemporary(effect.next.value)
              && TemporaryPathFor(root, a) == TemporaryPathFor(root, work.asset)
  {
    hide PathFor, TemporaryPathFor, LookupIn, CommitIn, Matches;
    PathsIdentifyContent(root, work.asset, a);
    if pc == Lookup {
      LookupSound(hash, root, files, work.asset, o.lookup);
    } else if pc == Commit {
      CommitTemporaries(hash, root, files, work.asset, o.commit);
    }
  }

  lemma EffectTemporaries(hash: Hash, root: Path, e: Engine, o: Outcome)
    requires e.worker.Busy? && TemporariesHeld(root, e) && Removes(Work(o))
    ensures TemporariesHeld(root, WorkerStep(hash, root, e, o))
  {
    hide EffectOf, TemporaryPathFor, RecordOf, Removes;
    forall a: AssetDescription
      ensures var effect := EffectOf(hash, root, e.manager, e.files, e.worker.pc, e.worker.work, o);
              TemporaryPathFor(root, a) in effect.files ==>
                && effect.next.Some? && HoldsTemporary(effect.next.value)
                && TemporaryPathFor(root, a) == TemporaryPathFor(root, e.worker.work.asset)
    {
      EffectAtTemporary(hash, root, e.manager, e.files, e.worker.pc, e.worker.work, o, a);
    }
  }

  /** A commit touches the two paths of its asset only, and takes the temporary file away when it succeeds. */
  lemma CommitTemporaries(hash: Hash, root: Path, files: FileSystem, asset: AssetDescription, f: CommitFaults)
    ensures var (after, done) := CommitIn(hash, root, files, asset, TemporaryPathFor(root, asset), f);
            && (done && !f.remove ==> TemporaryPathFor(root, asset) !in after)
            && (forall p | p in after :: p in files || p == PathFor(root, asset))
  {
    hide PathFor, TemporaryPathFor, LookupIn;
    PathsIdentifyContent(root, asset, asset);
    LookupSound(hash, root, files, asset, f.lookup);
  }

  lemma StepTemporaries(hash: Hash, root: Path, e: Engine, a: Action)
    requires TemporariesHeld(root, e) && Removes(a)
    ensures TemporariesHeld(root, Next(hash, root, e, a))
  {
    hide PathFor, TemporaryPathFor, EffectOf;
    if a.Work? && e.worker.Busy? {
      EffectTemporaries(hash, root, e, a.outcome);
    }
  }

  /** Starting from a disk without temporary files, none is left whenever the worker waits, and none is left of
      an item whose handling is past its commit or has failed. */
  lemma {:induction false} NoTemporaryStays(hash: Hash, root: Path, e: Engine, actions: seq<Action>)
    requires TemporariesHeld(root, e)
    requires forall a | a in actions :: Removes(a)
    ensures TemporariesHeld(root, Run(hash, root, e, actions))
    ensures var e' := Run(hash, root, e, actions);
            e'.worker == Waiting ==> forall a: AssetDescription :: TemporaryPathFor(root, a) !in e'.files
  {
    hide Next, TemporaryPathFor;
    if actions != [] {
      NoTemporaryStays(hash, root, e, actions[..|actions| - 1]);
      StepTemporaries(hash, root, Run(hash, root, e, actions[..|actions| - 1]), actions[|actions| - 1]);
    }
  }

  // One handling on any disk.

  /** The temporary path of an asset is free, unless the item in hand is between its download and its commit there. */
  ghost predicate PathHeld(root: Path, e: Engine, a: AssetDescription) {
    TemporaryPathFor(root, a) in e.files ==> IsHandled(root, e, a) && HoldsTemporary(e.worker.pc)
  }

  /** The item in hand works at the temporary path of the asset. */
  predicate IsHandled(root: Path, e: Engine, a: AssetDescription) {
    e.worker.Busy? && TemporaryPathFor(root, a) == TemporaryPathFor(root, e.worker.work.asset)
  }

  predicate Fetches(root: Path, e: Engine, action: Action, a: AssetDescription) {
    action.Work? && IsHandled(root, e, a) && e.worker.pc == Fetch
  }

  /** While an item works at the path, no exception strikes and removing the file does not fail. */
  predicate Spares(root: Path, e: Engine, action: Action, a: AssetDescription) {
    IsHandled(root, e, a) ==> Removes(action)
  }

  /** Handling another content puts nothing at the path. */
  lemma EffectAway(hash: Hash, root: Path, m: Manager, files: FileSystem, pc: Pc, work: WorkItem, o: Outcome, a: AssetDescription)
    requires TemporaryPathFor(root, a) != TemporaryPathFor(root, work.asset)
    ensures TemporaryPathFor(root, a) in EffectOf(hash, root, m, files, pc, work, o).files ==> TemporaryPathFor(root, a) in files
  {
    hide PathFor, TemporaryPathFor, LookupIn, CommitIn, Matches;
    PathsIdentifyContent(root, work.asset, a);
    if pc == Lookup {
      LookupSound(hash, root, files, work.asset, o.lookup);
    } else if pc == Commit {
      CommitTemporaries(hash, root, files, work.asset, o.commit);
    }
  }

  /** A fetch starts from a removed file: afterwards there is one only if the item goes on to verify it. */
  lemma FetchClears(hash: Hash, root: Path, m: Manager, files: FileSystem, work: WorkItem, o: Outcome)
    requires Removes(Work(o))
    ensures var effect := EffectOf(hash, root, m, files, Fetch, work, o);
            TemporaryPathFor(root, work.asset) in effect.files ==> effect.next == Some(SayVerifying)
  {
    hide TemporaryPathFor;
  }

  lemma PathStep(hash: Hash, root: Path, e: Engine, action: Action, a: AssetDescription)
    requires Spares(root, e, action, a) && (PathHeld(root, e, a) || Fetches(root, e, action, a))
    ensures PathHeld(root, Next(hash, root, e, action), a)
  {
    hide EffectOf, TemporaryPathFor, RecordOf, Removes;
    if action.Work? && e.worker.Busy? {
      var (m, pc, work, o) := (e.manager, e.worker.pc, e.worker.work, action.outcome);
      if !IsHandled(root, e, a) {
        EffectAway(hash, root, m, e.files, pc, work, o, a);
      } else if pc == Fetch {
        FetchClears(hash, root, m, e.files, work, o);
      } else {
        EffectAtTemporary(hash, root, m, e.files, pc, work, o, a);
      }
    } else if action == Throw {
      ThrowRemoves();
    }
  }

  lemma ThrowRemoves()
    ensures !Removes(Throw)
  {}

  /** From any engine on any disk, whatever a crash or an exception has left there: once an item for an asset has been
      fetched, no temporary file of that asset is left whenever the worker waits or handles anything else, as long as no
      exception strikes and no removal fails in the handlings at that same path. Other assets may fail as they like. */
  lemma {:induction false} FetchLeavesNothing(hash: Hash, root: Path, e: Engine, actions: seq<Action>, i: nat, a: AssetDescription)
    requires i < |actions| && Fetches(root, Run(hash, root, e, actions[..i]), actions[i], a)
    requires forall k | i <= k < |actions| :: Spares(root, Run(hash, root, e, actions[..k]), actions[k], a)
    ensures PathHeld(root, Run(hash, root, e, actions), a)
    ensures var e' := Run(hash, root, e, actions);
            !IsHandled(root, e', a) ==> TemporaryPathFor(root, a) !in e'.files
  {
    hide Next, TemporaryPathFor, IsHandled, Fetches, Spares, HoldsTemporary;
    var (init, last) := (actions[..|actions| - 1], actions[|actions| - 1]);
    assert forall k | 0 <= k <= |init| :: actions[..k] == init[..k];
    assert init[..|init|] == init;
    if i < |init| {
      FetchLeavesNothing(hash, root, e, init, i, a);
    }
    PathStep(hash, root, Run(hash, root, e, init), last, a);
  }

  /** What the exclusion is for: an exception between download and commit leaves the file. */
  lemma ThrowLeavesTemporary(hash: Hash, root: Path, e: Engine, o: Outcome)
    requires e.throws && e.worker.Busy? && HoldsTemporary(e.worker.pc)
    requires TemporaryPathFor(root, e.worker.work.asset) in e.files
    ensures var e' := Run(hash, root, e, [Throw, Work(o)]);
            e'.worker == Waiting && TemporaryPathFor(root, e.worker.work.asset) in e'.files
  {
    hide TemporaryPathFor, PathFor, RecordOf;
    assert [Throw, Work(o)][..1] == [Throw] && [Throw][..0] == [];
    assert Run(hash, root, e, []) == e;
    assert Run(hash, root, e, [Throw]) == ThrowStep(e);
  }

  // One download per content.

  /** No lookup takes a good file for a bad one and removes it. */
  predicate LooksUp(a: Action) {
    a.Work? ==> !MissesCached(a.outcome.lookup)
  }

  /** The announced size is the one size known for the content. */
  predicate SizeAgrees(root: Path, sizes: Path -> u64, asset: AssetDescription) {
    asset.fileSize == sizes(PathFor(root, asset))
  }

  predicate MessageAgrees(root: Path, sizes: Path -> u64, m: Message) {
    m.ManifestAsset? ==> SizeAgrees(root, sizes, m.asset)
  }

  predicate ActionAgrees(root: Path, sizes: Path -> u64, a: Action) {
    a.Hear? ==> MessageAgrees(root, sizes, a.message)
  }

  /** Every description the engine has taken in agrees with the sizes. */
  ghost predicate AllAgree(root: Path, sizes: Path -> u64, e: Engine) {
    && (forall asset | asset in e.manager.receiver.manifest.assets :: SizeAgrees(root, sizes, asset))
    && (forall w | w in e.manager.queue :: SizeAgrees(root, sizes, w.asset))
    && (e.worker.Busy? ==> SizeAgrees(root, sizes, e.worker.work.asset))
  }

  lemma HeardAgrees(root: Path, sizes: Path -> u64, r: Receiver, m: Message)
    requires forall asset | asset in r.manifest.assets :: SizeAgrees(root, sizes, asset)
    requires MessageAgrees(root, sizes, m)
    ensures var r' := HandleMessage(r, m).0;
            && (forall asset | asset in r'.manifest.assets :: SizeAgrees(root, sizes, asset))
            && (HandleMessage(r, m).1 == Completed ==> r'.completed == Some(r'.manifest))
  {
    hide IsDescriptionValid, SizeAgrees;
  }

  lemma {:induction false} QueuedAgree(root: Path, sizes: Path -> u64, m: Manager, revision: u64, assets: seq<AssetDescription>)
    requires forall w | w in m.queue :: SizeAgrees(root, sizes, w.asset)
    requires forall asset | asset in assets :: SizeAgrees(root, sizes, asset)
    ensures forall w | w in QueueAssets(m, revision, assets).queue :: SizeAgrees(root, sizes, w.asset)
  {
    hide SizeAgrees;
    if assets != [] {
      QueuedAgree(root, sizes, m, revision, assets[..|assets| - 1]);
    }
  }

  lemma StepAgrees(hash: Hash, root: Path, sizes: Path -> u64, e: Engine, a: Action)
    requires AllAgree(root, sizes, e) && ActionAgrees(root, sizes, a)
    ensures AllAgree(root, sizes, Next(hash, root, e, a))
  {
    hide SizeAgrees, HandleMessage, EffectOf;
    if a.Hear? {
      HeardAgrees(root, sizes, e.manager.receiver, a.message);
      ReceiveKeeps(e.manager, a.message);
      var (receiver, result) := HandleMessage(e.manager.receiver, a.message);
      if result == Completed {
        var m := receiver.completed.value;
        var event := Event(CompleteEvent, m.revision, 0, |m.assets| % 0x1_0000_0000, INTERNAL_ERROR);
        QueuedAgree(root, sizes, e.manager.(receiver := receiver, events := e.manager.events + [event]), m.revision, m.assets);
      }
    }
  }

  /** The item in hand was missing when looked up, and has not been committed since. */
  predicate IsPastMiss(pc: Pc) {
    pc == SayDownloading || pc == Fetch || pc == SayVerifying || pc == Verify || pc == SayVerified || pc == Commit
  }

  ghost predicate HoldsCommitted(hash: Hash, root: Path, sizes: Path -> u64, files: FileSystem, path: Path) {
    forall a: AssetDescription | PathFor(root, a) == path && SizeAgrees(root, sizes, a) :: IsCached(hash, root, files, a)
  }

  ghost predicate CommitsInv(hash: Hash, root: Path, sizes: Path -> u64, e: Engine) {
    && (forall i, j | 0 <= i < j < |e.commits| :: e.commits[i] != e.commits[j])
    && (forall p | p in e.commits :: HoldsCommitted(hash, root, sizes, e.files, p))
    && (e.worker.Busy? && IsPastMiss(e.worker.pc) ==> PathFor(root, e.worker.work.asset) !in e.commits)
  }

  /** The two disks hold the same at a path. */
  predicate SameAt(files: FileSystem, files': FileSystem, path: Path) {
    (path in files <==> path in files') && (path in files ==> files'[path] == files[path])
  }

  lemma SameServes(hash: Hash, root: Path, sizes: Path -> u64, files: FileSystem, files': FileSystem, path: Path)
    requires HoldsCommitted(hash, root, sizes, files, path) && SameAt(files, files', path)
    ensures HoldsCommitted(hash, root, sizes, files', path)
  {
    hide PathFor, Matches;
  }

  /** Handling an item touches the paths of its own content only. */
  lemma EffectElsewhere(
      hash: Hash, root: Path, m: Manager, files: FileSystem, pc: Pc, work: WorkItem, o: Outcome, path: Path)
    requires DiskFits(hash, root, files, pc, work.asset)
    requires path != PathFor(root, work.asset) && path != TemporaryPathFor(root, work.asset)
    ensures SameAt(files, EffectOf(hash, root, m, files, pc, work, o).files, path)
  {
    hide PathFor, TemporaryPathFor, LookupIn, CommitIn, Matches, IsCached;
    if pc == Lookup {
      LookupSound(hash, root, files, work.asset, o.lookup);
    } else if pc == Commit {
      CommitSound(hash, root, files, work.asset, o.commit);
    }
  }

  lemma StepElsewhere(hash: Hash, root: Path, e: Engine, o: Outcome, path: Path)
    requires e.worker.Busy? && DiskInv(hash, root, e)
    requires path != PathFor(root, e.worker.work.asset) && path != TemporaryPathFor(root, e.worker.work.asset)
    ensures SameAt(e.files, WorkerStep(hash, root, e, o).files, path)
  {
    hide PathFor, TemporaryPathFor, EffectOf, DiskFits, RecordOf, SameAt;
    EffectElsewhere(hash, root, e.manager, e.files, e.worker.pc, e.worker.work, o, path);
  }

  /** An item whose content is in the cache is served from there: it does not touch the file, and never gets to a download. */
  lemma EffectServed(hash: Hash, root: Path, e: Engine, o: Outcome)
    requires e.worker.Busy? && !IsPastMiss(e.worker.pc) && LooksUp(Work(o))
    requires IsCached(hash, root, e.files, e.worker.work.asset)
    ensures var e' := WorkerStep(hash, root, e, o);
            && SameAt(e.files, e'.files, PathFor(root, e.worker.work.asset))
            && (e'.worker.Busy? ==> !IsPastMiss(e'.worker.pc))
  {
    hide PathFor, TemporaryPathFor, LookupIn, CommitIn, Matches;
    if e.worker.pc == Lookup {
      LookupSound(hash, root, e.files, e.worker.work.asset, o.lookup);
      LookupSpares(hash, root, e.files, e.worker.work.asset, e.worker.work.asset, o.lookup);
    }
  }

  lemma SameItem(hash: Hash, root: Path, e: Engine, o: Outcome)
    requires e.worker.Busy?
    ensures var e' := WorkerStep(hash, root, e, o); e'.worker.Busy? ==> e'.worker.work == e.worker.work
  {
    hide EffectOf, RecordOf;
  }

  /** Committed content is not touched by handling any item, and no item for it gets past its lookup. */
  lemma EffectSparesCommitted(hash: Hash, root: Path, sizes: Path -> u64, e: Engine, o: Outcome, path: Path)
    requires e.worker.Busy? && DiskInv(hash, root, e) && AllAgree(root, sizes, e) && LooksUp(Work(o))
    requires HoldsCommitted(hash, root, sizes, e.files, path)
    requires IsPastMiss(e.worker.pc) ==> path != PathFor(root, e.worker.work.asset)
    ensures HoldsCommitted(hash, root, sizes, WorkerStep(hash, root, e, o).files, path)
    ensures var e' := WorkerStep(hash, root, e, o);
            e'.worker.Busy? && IsPastMiss(e'.worker.pc) ==> path != PathFor(root, e'.worker.work.asset)
  {
    hide PathFor, TemporaryPathFor, WorkerStep, DiskInv, IsPastMiss, IsCached, SizeAgrees, LooksUp;
    var (asset, e') := (e.worker.work.asset, WorkerStep(hash, root, e, o));
    SameItem(hash, root, e, o);
    if path == PathFor(root, asset) {
      EffectServed(hash, root, e, o);
      SameServes(hash, root, sizes, e.files, e'.files, path);
    } else if path == TemporaryPathFor(root, asset) {
      forall a: AssetDescription
        ensures PathFor(root, a) != path
      {
        PathsIdentifyContent(root, a, asset);
      }
    } else {
      StepElsewhere(hash, root, e, o, path);
      SameServes(hash, root, sizes, e.files, e'.files, path);
    }
  }

  /** What a commit puts in place serves every later item for that path. */
  lemma CommittedServes(hash: Hash, root: Path, sizes: Path -> u64, files: FileSystem, asset: AssetDescription)
    requires IsCached(hash, root, files, asset) && SizeAgrees(root, sizes, asset)
    ensures HoldsCommitted(hash, root, sizes, files, PathFor(root, asset))
  {
    hide PathFor;
    forall a: AssetDescription | PathFor(root, a) == PathFor(root, asset) && SizeAgrees(root, sizes, a)
      ensures IsCached(hash, root, files, a)
    {
      PathsIdentifyContent(root, a, asset);
    }
  }

  lemma CommitEffectServes(hash: Hash, root: Path, e: Engine, o: Outcome)
    requires e.worker.Busy? && DiskInv(hash, root, e)
    ensures var e' := WorkerStep(hash, root, e, o);
            && (e'.commits == e.commits || e'.commits == e.commits + [PathFor(root, e.worker.work.asset)])
            && (e'.commits != e.commits ==>
                  e.worker.pc == Commit && IsCached(hash, root, e'.files, e.worker.work.asset) &&
                  e'.worker.Busy? && e'.worker.pc == SayReady)
  {
    hide PathFor, TemporaryPathFor, LookupIn, CommitIn, Matches;
    if e.worker.pc == Commit {
      CommitSound(hash, root, e.files, e.worker.work.asset, o.commit);
    }
  }

  lemma StepCommits(hash: Hash, root: Path, sizes: Path -> u64, e: Engine, a: Action)
    requires DiskInv(hash, root, e) && AllAgree(root, sizes, e) && LooksUp(a)
    requires CommitsInv(hash, root, sizes, e)
    ensures CommitsInv(hash, root, sizes, Next(hash, root, e, a))
  {
    hide PathFor, DiskInv, AllAgree, HoldsCommitted, WorkerStep, SizeAgrees, IsCached;
    var e' := Next(hash, root, e, a);
    if a.Work? && e.worker.Busy? {
      CommitEffectServes(hash, root, e, a.outcome);
      forall p | p in e.commits
        ensures HoldsCommitted(hash, root, sizes, e'.files, p)
        ensures e'.worker.Busy? && IsPastMiss(e'.worker.pc) ==> p != PathFor(root, e'.worker.work.asset)
      {
        EffectSparesCommitted(hash, root, sizes, e, a.outcome, p);
      }
      if e'.commits != e.commits {
        AgreesItem(root, sizes, e);
        CommittedServes(hash, root, sizes, e'.files, e.worker.work.asset);
      }
    } else if a.Work? {
      TakenUnmissed(hash, root, e, a.outcome);
    }
  }

  lemma AgreesItem(root: Path, sizes: Path -> u64, e: Engine)
    requires AllAgree(root, sizes, e) && e.worker.Busy?
    ensures SizeAgrees(root, sizes, e.worker.work.asset)
  {}

  lemma TakenUnmissed(hash: Hash, root: Path, e: Engine, o: Outcome)
    requires e.worker == Waiting
    ensures var e' := WorkerStep(hash, root, e, o);
            e'.files == e.files && e'.commits == e.commits && (e'.worker.Busy? ==> !IsPastMiss(e'.worker.pc))
  {}

  /** When every description of a content announces the same size and no lookup removes a good file, no cache path is
      committed twice in a whole run, across all sessions: later items for the content are served from the cache. */
  lemma {:induction false} CommittedAtMostOnce(
      hash: Hash, root: Path, sizes: Path -> u64, files: FileSystem, throws: bool, actions: seq<Action>)
    requires FencedRun(hash, root, Start(files, throws), actions)
    requires forall a | a in actions :: LooksUp(a) && ActionAgrees(root, sizes, a)
    ensures var e := Run(hash, root, Start(files, throws), actions);
            && AllAgree(root, sizes, e)
            && CommitsInv(hash, root, sizes, e)
  {
    hide Next, AllAgree, CommitsInv, Inv, LogInv, DiskInv, EventsBacked, LooksUp, ActionAgrees;
    var start := Start(files, throws);
    if actions == [] {
      StartAgrees(hash, root, sizes, files, throws);
    } else {
      var (init, last) := (actions[..|actions| - 1], actions[|actions| - 1]);
      assert forall n | 0 <= n <= |init| :: actions[..n] == init[..n];
      CommittedAtMostOnce(hash, root, sizes, files, throws, init);
      StartInv(files, throws);
      StartTruth(hash, root, files, throws);
      RunTruth(hash, root, start, init);
      assert last in actions;
      StepAgrees(hash, root, sizes, Run(hash, root, start, init), last);
      StepCommits(hash, root, sizes, Run(hash, root, start, init), last);
    }
  }

  lemma StartAgrees(hash: Hash, root: Path, sizes: Path -> u64, files: FileSystem, throws: bool)
    ensures AllAgree(root, sizes, Start(files, throws)) && CommitsInv(hash, root, sizes, Start(files, throws))
  {}

  // Ready stays ready.

  /** What was recorded as ready is served by the cache, now and to every later item. */
  ghost predicate RecordsHeld(hash: Hash, root: Path, sizes: Path -> u64, e: Engine) {
    forall r | r in e.readyLog ::
      && SizeAgrees(root, sizes, r.asset)
      && HoldsCommitted(hash, root, sizes, e.files, PathFor(root, r.asset))
      && (e.worker.Busy? && IsPastMiss(e.worker.pc) ==> PathFor(root, r.asset) != PathFor(root, e.worker.work.asset))
  }

  /** A step records only the item in hand, and only where its file has been found good. */
  lemma NewRecord(hash: Hash, root: Path, e: Engine, o: Outcome)
    requires e.worker.Busy? && DiskInv(hash, root, e)
    ensures var e' := WorkerStep(hash, root, e, o);
            e'.readyLog == e.readyLog ||
            (&& e'.readyLog == e.readyLog + [RecordOf(root, e, e.worker.work)]
             && e'.files == e.files && IsCached(hash, root, e.files, e.worker.work.asset)
             && !(e'.worker.Busy? && IsPastMiss(e'.worker.pc)))
  {
    hide PathFor, TemporaryPathFor, LookupIn, CommitIn, RemoveIn, Matches, RecordOf, AfterReport;
    ReadyOnlyWhenCached(hash, root, e.manager, e.files, e.worker.pc, e.worker.work, o);
  }

  lemma StepHolds(hash: Hash, root: Path, sizes: Path -> u64, e: Engine, a: Action)
    requires DiskInv(hash, root, e) && AllAgree(root, sizes, e) && LooksUp(a) && RecordsHeld(hash, root, sizes, e)
    ensures RecordsHeld(hash, root, sizes, Next(hash, root, e, a))
  {
    hide PathFor, DiskInv, AllAgree, HoldsCommitted, WorkerStep, SizeAgrees, IsCached, IsPastMiss;
    var e' := Next(hash, root, e, a);
    if a.Work? && e.worker.Busy? {
      NewRecord(hash, root, e, a.outcome);
      forall r | r in e.readyLog
        ensures HoldsCommitted(hash, root, sizes, e'.files, PathFor(root, r.asset))
        ensures e'.worker.Busy? && IsPastMiss(e'.worker.pc) ==> PathFor(root, r.asset) != PathFor(root, e'.worker.work.asset)
      {
        EffectSparesCommitted(hash, root, sizes, e, a.outcome, PathFor(root, r.asset));
      }
      if e'.readyLog != e.readyLog {
        AgreesItem(root, sizes, e);
        CommittedServes(hash, root, sizes, e.files, e.worker.work.asset);
      }
    } else if a.Work? {
      TakenUnmissed(hash, root, e, a.outcome);
      TakenLog(hash, root, e, a.outcome);
    } else {
      FailingIsPast();
    }
  }

  lemma TakenLog(hash: Hash, root: Path, e: Engine, o: Outcome)
    requires e.worker == Waiting
    ensures WorkerStep(hash, root, e, o).readyLog == e.readyLog
  {}

  lemma FailingIsPast()
    ensures forall reason :: !IsPastMiss(SayFailed(reason))
  {}

  lemma {:induction false} RunHolds(hash: Hash, root: Path, sizes: Path -> u64, files: FileSystem, throws: bool, actions: seq<Action>)
    requires FencedRun(hash, root, Start(files, throws), actions)
    requires forall a | a in actions :: LooksUp(a) && ActionAgrees(root, sizes, a)
    ensures var e := Run(hash, root, Start(files, throws), actions);
            TruthInv(hash, root, e) && RecordsHeld(hash, root, sizes, e)
  {
    hide Next, AllAgree, CommitsInv, RecordsHeld, Inv, LogInv, DiskInv, EventsBacked, LooksUp, ActionAgrees;
    var start := Start(files, throws);
    StartInv(files, throws);
    StartTruth(hash, root, files, throws);
    RunTruth(hash, root, start, actions);
    if actions == [] {
      NoRecords(hash, root, sizes, files, throws);
    } else {
      var (init, last) := (actions[..|actions| - 1], actions[|actions| - 1]);
      assert forall n | 0 <= n <= |init| :: actions[..n] == init[..n];
      RunHolds(hash, root, sizes, files, throws, init);
      CommittedAtMostOnce(hash, root, sizes, files, throws, init);
      assert last in actions;
      StepHolds(hash, root, sizes, Run(hash, root, start, init), last);
    }
  }

  lemma NoRecords(hash: Hash, root: Path, sizes: Path -> u64, files: FileSystem, throws: bool)
    ensures RecordsHeld(hash, root, sizes, Start(files, throws))
  {}

  /** Ready stays true: with one announced size per content and no lookup that removes a good file, whatever was recorded
      ready in any session of the run is in the cache still, and so is the asset of every Ready event of the session. */
  lemma ReadyStaysCached(
      hash: Hash, root: Path, sizes: Path -> u64, files: FileSystem, throws: bool, actions: seq<Action>, event: Event)
    requires FencedRun(hash, root, Start(files, throws), actions)
    requires forall a | a in actions :: LooksUp(a) && ActionAgrees(root, sizes, a)
    ensures var e := Run(hash, root, Start(files, throws), actions);
            && (forall r | r in e.readyLog :: IsCached(hash, root, e.files, r.asset))
            && (event in Trace(e) && event.kind == ReadyEvent ==>
                  && e.manager.receiver.completed.Some?
                  && exists asset ::
                       && asset in e.manager.receiver.completed.value.assets && asset.assetId == event.assetId
                       && IsCached(hash, root, e.files, asset))
  {
    hide Run, FencedRun, LooksUp, ActionAgrees, DiskInv, LogInv, PathFor, IsCached, SizeAgrees, Trace;
    RunHolds(hash, root, sizes, files, throws, actions);
    var e := Run(hash, root, Start(files, throws), actions);
    forall r | r in e.readyLog
      ensures IsCached(hash, root, e.files, r.asset)
    {
      assert HoldsCommitted(hash, root, sizes, e.files, PathFor(root, r.asset));
    }
    if event in Trace(e) && event.kind == ReadyEvent {
      assert IsBacked(e, event);
    }
  }
}
