/** What the reason in a failure report says: which call went wrong, and how. */
module FailureReasons {
  import opened Bytes
  import opened Assets
  import opened Protocol
  import opened AssetCache
  import opened AssetManager
  import opened AssetEngine
  import opened ClientRuntime

  predicate Fails(w: Worker, reason: u16) {
    w.Busy? && w.pc == SayFailed(reason)
  }

  /** The file a lookup would not accept is still in its place, or the lookup could not look at all. */
  ghost predicate LookupFails(hash: Hash, root: Path, files: FileSystem, asset: AssetDescription, f: LookupFaults) {
    || f.exists_
    || (PathFor(root, asset) in files && f.remove
        && (!IsCached(hash, root, files, asset) || f.kind || f.size || f.read))
  }

  /** A commit that finds the announced bytes in place needs no rename; any other one does. */
  ghost predicate CommitFails(hash: Hash, root: Path, files: FileSystem, asset: AssetDescription, f: CommitFaults) {
    || f.makeDirectory
    || (f.rename && (f.exists_ || !IsCached(hash, root, files, asset)
                     || f.lookup.exists_ || f.lookup.kind || f.lookup.size || f.lookup.read))
  }

  /** One step of the worker decides to give up for a reason exactly in these cases, numbered as on the wire: 2, 3 and 4 for
      what the download says of its scheme, the network and the time; 5 for any size that differs from the announced one; 6
      for other bytes of the right size; 7 for the disk; 8 for a download that cannot say; and 1, a bad manifest, never. In all
      other cases it goes on. */
  lemma GivesUpFor(hash: Hash, root: Path, e: Engine, o: Outcome, reason: u16)
    requires e.worker.Busy? && !e.worker.pc.SayFailed?
    requires e.worker.pc == Pc.Commit ==> TemporaryPathFor(root, e.worker.work.asset) in e.files
    ensures var (pc, asset, files) := (e.worker.pc, e.worker.work.asset, e.files);
            var temporary := TemporaryPathFor(root, asset);
            var there := temporary in files && files[temporary].File? && !o.sizeFault;
            var sized := there && |files[temporary].data| == asset.fileSize;
            Fails(WorkerStep(hash, root, e, o).worker, reason) <==>
              || (reason == 2 && pc == Fetch && o.fetchError == UnsupportedSchemeError)
              || (reason == 3 && pc == Fetch && o.fetchError == NetworkError)
              || (reason == 4 && pc == Fetch && o.fetchError == TimeoutError)
              || (reason == 5 && pc == Fetch && o.fetchError == SizeError)
              || (reason == 5 && pc == Fetch && o.fetchError == NoError && o.bytesReceived != asset.fileSize)
              || (reason == 5 && pc == Verify && there && !sized)
              || (reason == 6 && pc == Verify && sized && !o.readFault && hash(files[temporary].data) != asset.sha256)
              || (reason == 7 && pc == Lookup && LookupFails(hash, root, files, asset, o.lookup))
              || (reason == 7 && pc == Fetch && o.fetchError == DiskError)
              || (reason == 7 && pc == Verify && (!there || (sized && o.readFault)))
              || (reason == 7 && pc == Pc.Commit && CommitFails(hash, root, files, asset, o.commit))
              || (reason == 8 && pc == Fetch && o.fetchError == UnknownError)
  {
    hide PathFor, TemporaryPathFor, LookupIn, CommitIn, RemoveIn, RecordOf, AfterReport, IsCached;
    var asset := e.worker.work.asset;
    match e.worker.pc {
      case Lookup => LookupExactly(hash, root, e.files, asset, o.lookup);
      case Commit => CommitExactly(hash, root, e.files, asset, o.commit);
      case _ =>
    }
  }

  /** ... and the next step says so: the item's state, its event and the message about it carry that reason, its revision and
      its id, or nothing is said at all because the session has changed. */
  lemma SaysWhy(hash: Hash, root: Path, e: Engine, o: Outcome, reason: u16)
    requires Fails(e.worker, reason)
    ensures var (e', work) := (WorkerStep(hash, root, e, o), e.worker.work);
            && e'.worker == Waiting && e'.files == e.files
            && (work.generation != e.manager.generation ==> e'.manager == e.manager)
            && (work.generation == e.manager.generation ==>
                && StateIn(e'.manager, work.asset.assetId) == AssetFailed
                && |e'.manager.events| == |e.manager.events| + 1 && e.manager.events <= e'.manager.events
                && ReportOf(e'.manager.events[|e.manager.events|]) ==
                   Some(AssetError(work.manifestRevision, work.asset.assetId, reason)))
  {
    hide RecordOf;
  }

  /** An exception anywhere else than in a failure's own report becomes one of reason 8. */
  lemma ThrowsAs(e: Engine)
    requires e.throws && e.worker.Busy? && !e.worker.pc.SayFailed?
    ensures Fails(ThrowStep(e).worker, 8) && ThrowStep(e).manager == e.manager && ThrowStep(e).files == e.files
  {}

  /** The record of commits is what it says: a path is added exactly by a commit that succeeds. */
  lemma CommitsRecorded(hash: Hash, root: Path, e: Engine, o: Outcome)
    requires e.worker.Busy? && TemporaryPathFor(root, e.worker.work.asset) in e.files
    ensures var (asset, e') := (e.worker.work.asset, WorkerStep(hash, root, e, o));
            e'.commits == e.commits +
              if e.worker.pc == Pc.Commit && !CommitFails(hash, root, e.files, asset, o.commit) then [PathFor(root, asset)] else []
  {
    hide PathFor, TemporaryPathFor, LookupIn, CommitIn, RemoveIn, RecordOf, AfterReport, IsCached;
    assert e.commits + [] == e.commits;
    CommitExactly(hash, root, e.files, e.worker.work.asset, o.commit);
  }

  /** Before anything else an item is looked at: one of another generation, or any after a stop, is dropped without touching the
      disk or saying a word, and every other one goes on to the cache. */
  lemma DropsStale(hash: Hash, root: Path, e: Engine, o: Outcome)
    requires e.worker.Busy? && e.worker.pc == Check
    ensures var (e', work) := (WorkerStep(hash, root, e, o), e.worker.work);
            && e'.manager == e.manager && e'.files == e.files
            && e'.worker == if e.manager.stopping || work.generation != e.manager.generation then Waiting
                            else Busy(Lookup, work, e.worker.origin)
  {}
}
