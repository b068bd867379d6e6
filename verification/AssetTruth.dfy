/** Ready means verified, and the cache holds only what its paths promise. */
module AssetTruth {
  import opened Bytes
  import opened Assets
  import opened Protocol
  import opened ManifestStream
  import opened AssetCache
  import opened AssetManager
  import opened AssetEngine
  import opened GenerationFence
  import opened AssetSession
  import opened SessionOrigin

  // What the disk holds while the worker stands at each step.

  ghost predicate HoldsVerified(hash: Hash, root: Path, files: FileSystem, asset: AssetDescription) {
    var temporary := TemporaryPathFor(root, asset);
    temporary in files && Matches(hash, files[temporary], asset)
  }

  ghost predicate DiskFits(hash: Hash, root: Path, files: FileSystem, pc: Pc, asset: AssetDescription) {
    && (pc == SayCacheHit || pc == SayHitReady || pc == SayReady ==> IsCached(hash, root, files, asset))
    && (pc == SayVerified || pc == Commit ==> HoldsVerified(hash, root, files, asset))
  }

  ghost predicate DiskInv(hash: Hash, root: Path, e: Engine) {
    e.worker.Busy? ==> DiskFits(hash, root, e.files, e.worker.pc, e.worker.work.asset)
  }

  lemma EffectKeepsDisk(hash: Hash, root: Path, m: Manager, files: FileSystem, pc: Pc, work: WorkItem, o: Outcome)
    requires DiskFits(hash, root, files, pc, work.asset)
    ensures var effect := EffectOf(hash, root, m, files, pc, work, o);
            effect.next.Some? ==> DiskFits(hash, root, effect.files, effect.next.value, work.asset)
  {
    hide PathFor, TemporaryPathFor, LookupIn, CommitIn, RemoveIn;
    if pc == Lookup {
      LookupSound(hash, root, files, work.asset, o.lookup);
    } else if pc == Commit {
      CommitSound(hash, root, files, work.asset, o.commit);
    }
  }

  // What the log of Ready reports says.

  ghost predicate RecordTrue(hash: Hash, e: Engine, r: ReadyRecord) {
    && r.file.Some? && Matches(hash, r.file.value, r.asset)
    && r.session <= e.session && r.stamp <= e.stamp
    && (r.session == e.session ==> e.sessionStamp <= r.stamp)
  }

  ghost predicate LogInv(hash: Hash, e: Engine) {
    && e.sessionStamp <= e.stamp
    && forall r | r in e.readyLog :: RecordTrue(hash, e, r)
  }

  /** A Ready event of this session stands on a record of this session, for an asset of its manifest. */
  ghost predicate IsBacked(e: Engine, event: Event) {
    && e.manager.receiver.completed.Some?
    && var m := e.manager.receiver.completed.value;
    && event.manifestRevision == m.revision
    && exists r ::
         && r in e.readyLog
         && r.session == e.session && r.revision == m.revision
         && r.asset in m.assets && r.asset.assetId == event.assetId
  }

  ghost predicate EventsBacked(e: Engine) {
    forall event | event in Trace(e) && event.kind == ReadyEvent :: IsBacked(e, event)
  }

  ghost predicate TruthInv(hash: Hash, root: Path, e: Engine) {
    DiskInv(hash, root, e) && LogInv(hash, e) && EventsBacked(e)
  }

  lemma StartTruth(hash: Hash, root: Path, files: FileSystem, throws: bool)
    ensures TruthInv(hash, root, Start(files, throws))
  {
    assert Trace(Start(files, throws)) == [];
  }

  /** A backed event stays backed while the session and its manifest stay and the log only grows. */
  lemma StillBacked(e: Engine, e': Engine, event: Event)
    requires IsBacked(e, event)
    requires e'.manager.receiver.completed == e.manager.receiver.completed && e'.session == e.session
    requires forall r | r in e.readyLog :: r in e'.readyLog
    ensures IsBacked(e', event)
  {}

  lemma ReceiveSaysNoReady(m: Manager, message: Message)
    ensures forall event | event in ReceiveMessage(m, message).0.events :: event in m.events || event.kind != ReadyEvent
  {
    hide HandleMessage;
    var (receiver, result) := HandleMessage(m.receiver, message);
    if result == Completed && receiver.completed.Some? {
      var manifest := receiver.completed.value;
      var event := Event(CompleteEvent, manifest.revision, 0, |manifest.assets| % 0x1_0000_0000, INTERNAL_ERROR);
      var announced := m.(receiver := receiver, events := m.events + [event]);
      QueuedEvents(announced, manifest.revision, manifest.assets);
    }
  }

  lemma NetworkTruth(hash: Hash, root: Path, e: Engine, a: Action)
    requires Inv(e) && TruthInv(hash, root, e) && !a.Work? && !a.Throw?
    ensures TruthInv(hash, root, Next(hash, root, e, a))
  {
    hide ReceiveMessage, SessionInv, GenerationInv, ReceiverAfter, HandleMessage, DiskFits, Matches, IsBacked;
    var e' := Next(hash, root, e, a);
    match a {
      case Hear(message) =>
        ReceiveSaysNoReady(e.manager, message);
        ReceiveKeeps(e.manager, message);
        CompletedOnce(e.heard, message);
        forall event | event in Trace(e') && event.kind == ReadyEvent
          ensures event in Trace(e)
        {
          assert event in e'.history || event in e'.manager.events;
          assert event in e.history || event in e.manager.events;
        }
        if e.manager.receiver.completed == None {
          NoneBacked(e);
        } else {
          Rebacked(e, e');
        }
      case Drain =>
        assert Trace(e') == Trace(e);
        Rebacked(e, e');
      case Reset =>
        assert Trace(e') == [];
      case Stop =>
        assert Trace(e') == Trace(e);
        Rebacked(e, e');
      case Tick =>
        assert Trace(e') == Trace(e);
        Rebacked(e, e');
    }
  }

  lemma NoneBacked(e: Engine)
    requires EventsBacked(e) && e.manager.receiver.completed == None
    ensures forall event | event in Trace(e) :: event.kind != ReadyEvent
  {}

  lemma Rebacked(e: Engine, e': Engine)
    requires EventsBacked(e)
    requires forall event | event in Trace(e') && event.kind == ReadyEvent :: event in Trace(e)
    requires e'.manager.receiver.completed == e.manager.receiver.completed && e'.session == e.session
    requires forall r | r in e.readyLog :: r in e'.readyLog
    ensures EventsBacked(e')
  {
    hide IsBacked;
    forall event | event in Trace(e') && event.kind == ReadyEvent
      ensures IsBacked(e', event)
    {
      StillBacked(e, e', event);
    }
  }

  /** A report made by the session's own worker. */
  lemma SpokenTruth(hash: Hash, root: Path, e: Engine, s: Saying)
    requires Inv(e) && TruthInv(hash, root, e) && IsFenced(e) && IsCurrentWork(e)
    requires s.kind == ReadyEvent ==> IsCached(hash, root, e.files, e.worker.work.asset)
    ensures var e' := Speak(root, e, e.worker.work, s); LogInv(hash, e') && EventsBacked(e')
  {
    hide GenerationInv, ReceiverAfter, IsManifest, PhaseOf, PathFor;
    FenceDecides(e);
    var e' := Speak(root, e, e.worker.work, s);
    var work := e.worker.work;
    var m := e.manager.receiver.completed.value;
    var spoken := Event(s.kind, work.manifestRevision, work.asset.assetId, 0, s.error);
    assert Trace(e') == Trace(e) + [spoken];
    forall event | event in Trace(e') && event.kind == ReadyEvent
      ensures IsBacked(e', event)
    {
      if event in Trace(e) {
        StillBacked(e, e', event);
      } else {
        var record := RecordOf(root, e, work);
        assert record in e'.readyLog && work.asset in m.assets;
      }
    }
  }

  lemma WorkTruth(hash: Hash, root: Path, e: Engine, o: Outcome)
    requires Inv(e) && TruthInv(hash, root, e) && IsFenced(e)
    ensures TruthInv(hash, root, Next(hash, root, e, Work(o)))
  {
    hide Inv, LogInv, DiskFits, EffectOf, Matches, IsBacked, PathFor;
    var e' := Next(hash, root, e, Work(o));
    if e.worker == Waiting {
      hide LogInv;
      assert Trace(e') == Trace(e);
      Rebacked(e, e');
      SameLog(hash, e, e');
      FreshItemFits(hash, root, e');
    } else {
      var Busy(pc, work, origin) := e.worker;
      EffectKeepsDisk(hash, root, e.manager, e.files, pc, work, o);
      var effect := EffectOf(hash, root, e.manager, e.files, pc, work, o);
      if !IsCurrentWork(e) {
        InvGeneration(e);
        StaleWorkIsSilent(hash, root, e, Work(o));
        assert Trace(e') == Trace(e);
        Rebacked(e, e');
        SameLog(hash, e, e');
      } else if effect.say.Some? {
        ReadyOnlyWhenCached(hash, root, e.manager, e.files, pc, work, o);
        SpokenTruth(hash, root, e, effect.say.value);
        var spoken := Speak(root, e, work, effect.say.value);
        assert Trace(e') == Trace(spoken);
        Rebacked(spoken, e');
        SameLog(hash, spoken, e');
      } else {
        assert Trace(e') == Trace(e);
        Rebacked(e, e');
        SameLog(hash, e, e');
      }
    }
  }

  lemma InvGeneration(e: Engine)
    requires Inv(e)
    ensures GenerationInv(e)
  {}

  lemma SameLog(hash: Hash, e: Engine, e': Engine)
    requires LogInv(hash, e) && e'.readyLog == e.readyLog && e'.session == e.session
    requires e'.stamp == e.stamp && e'.sessionStamp == e.sessionStamp
    ensures LogInv(hash, e')
  {
    hide Matches;
  }

  lemma FreshItemFits(hash: Hash, root: Path, e: Engine)
    requires e.worker.Busy? ==> e.worker.pc == Check
    ensures DiskInv(hash, root, e)
  {}

  /** The worker says Ready only where the disk has just been found to hold the announced bytes. */
  lemma ReadyOnlyWhenCached(hash: Hash, root: Path, m: Manager, files: FileSystem, pc: Pc, work: WorkItem, o: Outcome)
    requires DiskFits(hash, root, files, pc, work.asset)
    ensures var effect := EffectOf(hash, root, m, files, pc, work, o);
            && (effect.say.Some? && effect.say.value.kind == ReadyEvent ==> IsCached(hash, root, files, work.asset))
            && (effect.say.Some? ==> effect.files == files)
  {
    hide PathFor, TemporaryPathFor, LookupIn, CommitIn, RemoveIn;
  }

  lemma StepTruth(hash: Hash, root: Path, e: Engine, a: Action)
    requires Inv(e) && TruthInv(hash, root, e) && IsFenced(e)
    ensures TruthInv(hash, root, Next(hash, root, e, a))
  {
    hide Inv, TruthInv, EffectOf;
    if a.Work? {
      WorkTruth(hash, root, e, a.outcome);
    } else if a.Throw? {
      ThrowTruth(hash, root, e);
    } else {
      NetworkTruth(hash, root, e, a);
    }
  }

  lemma ThrowTruth(hash: Hash, root: Path, e: Engine)
    requires TruthInv(hash, root, e)
    ensures TruthInv(hash, root, ThrowStep(e))
  {
    hide Matches, IsBacked;
    var e' := ThrowStep(e);
    assert Trace(e') == Trace(e);
    Rebacked(e, e');
  }

  lemma {:induction false} RunTruth(hash: Hash, root: Path, e: Engine, actions: seq<Action>)
    requires Inv(e) && TruthInv(hash, root, e) && FencedRun(hash, root, e, actions)
    ensures Inv(Run(hash, root, e, actions)) && TruthInv(hash, root, Run(hash, root, e, actions))
  {
    hide Inv, TruthInv, Next;
    RunKeeps(hash, root, e, actions);
    if actions != [] {
      var init := actions[..|actions| - 1];
      assert forall n | 0 <= n <= |init| :: actions[..n] == init[..n];
      assert init[..|init|] == init;
      RunTruth(hash, root, e, init);
      assert IsFenced(Run(hash, root, e, init));
      StepTruth(hash, root, Run(hash, root, e, init), actions[|actions| - 1]);
    }
  }

  /** Ready means verified: in every reachable state, a Ready event of the session is about an asset of the
      session's manifest, and was recorded in this session while the asset's cache path held a file of exactly the
      announced size and digest. */
  lemma ReadyMeansVerified(hash: Hash, root: Path, files: FileSystem, throws: bool, actions: seq<Action>, event: Event)
    requires FencedRun(hash, root, Start(files, throws), actions)
    ensures var e := Run(hash, root, Start(files, throws), actions);
            event in Trace(e) && event.kind == ReadyEvent ==>
              && e.manager.receiver.completed.Some?
              && var m := e.manager.receiver.completed.value;
              exists r ::
                && r in e.readyLog && r.session == e.session && r.revision == m.revision == event.manifestRevision
                && r.asset in m.assets && r.asset.assetId == event.assetId
                && r.file.Some? && Matches(hash, r.file.value, r.asset)
  {
    hide FencedRun, Run, Inv, DiskInv, Matches;
    StartInv(files, throws);
    StartTruth(hash, root, files, throws);
    RunTruth(hash, root, Start(files, throws), actions);
  }
}
