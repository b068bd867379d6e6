/** Everything the manager shows comes from the session it belongs to. */
module SessionOrigin {
  import opened Bytes
  import opened Assets
  import opened Protocol
  import opened ManifestStream
  import opened AssetCache
  import opened AssetManager
  import opened AssetEngine
  import opened GenerationFence
  import opened AssetSession

  /** An event stems from what this session has heard: a beginning from a begin message, everything else from its completed
      manifest and, but for the completion itself, from one of its assets. */
  ghost predicate EventFits(e: Engine, event: Event) {
    if event.kind == BeginEvent then ManifestBeginHeard(e.heard, event)
    else
      && e.manager.receiver.completed.Some?
      && var m := e.manager.receiver.completed.value;
      && event.manifestRevision == m.revision
      && (event.kind != CompleteEvent ==> event.assetId in IdsOf(m.assets))
      && (event.kind == FailedEvent ==> IsAssetErrorReasonValid(event.error))
  }

  ghost predicate ManifestBeginHeard(heard: seq<Message>, event: Event) {
    exists m :: m in heard && m.ManifestBegin? && m.manifestRevision == event.manifestRevision && m.assetCount == event.assetCount
  }

  ghost predicate OriginInv(e: Engine) {
    && (forall event | event in Trace(e) :: EventFits(e, event))
    && (e.worker.Busy? && e.worker.pc.SayFailed? ==> IsAssetErrorReasonValid(e.worker.pc.reason))
  }

  lemma StillFits(e: Engine, e': Engine, event: Event)
    requires EventFits(e, event)
    requires forall m | m in e.heard :: m in e'.heard
    requires e.manager.receiver.completed.Some? ==> e'.manager.receiver.completed == e.manager.receiver.completed
    ensures EventFits(e', event)
  {}

  lemma TraceFits(e: Engine, e': Engine)
    requires forall event | event in Trace(e) :: EventFits(e, event)
    requires forall m | m in e.heard :: m in e'.heard
    requires e.manager.receiver.completed.Some? ==> e'.manager.receiver.completed == e.manager.receiver.completed
    requires forall event | event in Trace(e') :: event in Trace(e) || EventFits(e', event)
    ensures forall event | event in Trace(e') :: EventFits(e', event)
  {
    hide EventFits, Trace;
    forall event | event in Trace(e')
      ensures EventFits(e', event)
    {
      if event in Trace(e) {
        StillFits(e, e', event);
      }
    }
  }

  lemma {:induction false} QueuedEvents(m: Manager, revision: u64, assets: seq<AssetDescription>)
    ensures forall event | event in QueueAssets(m, revision, assets).events ::
              event in m.events || (event.kind == QueuedEvent && event.manifestRevision == revision && event.assetId in IdsOf(assets))
  {
    hide IdsOf;
    if assets != [] {
      var (init, last) := (assets[..|assets| - 1], assets[|assets| - 1]);
      QueuedEvents(m, revision, init);
      IdsAppend(init, last);
      assert init + [last] == assets;
    }
  }

  lemma IdsAppend(assets: seq<AssetDescription>, asset: AssetDescription)
    ensures IdsOf(assets + [asset]) == IdsOf(assets) + {asset.assetId}
  {}

  lemma HearFits(hash: Hash, root: Path, e: Engine, message: Message)
    requires Inv(e) && OriginInv(e)
    ensures OriginInv(Next(hash, root, e, Hear(message)))
  {
    hide HandleMessage, ReceiverAfter, SessionInv, GenerationInv, IdsOf, QueueAssets;
    var e' := Next(hash, root, e, Hear(message));
    var (receiver, result) := HandleMessage(e.manager.receiver, message);
    CompletedOnce(e.heard, message);
    LatchedUntilReset(e.heard, message);
    ReceiveKeeps(e.manager, message);
    if result == Completed && receiver.completed.Some? {
      var m := receiver.completed.value;
      var said := Event(CompleteEvent, m.revision, 0, |m.assets| % 0x1_0000_0000, INTERNAL_ERROR);
      QueuedEvents(e.manager.(receiver := receiver, events := e.manager.events + [said]), m.revision, m.assets);
    } else if result == Accepted && message.ManifestBegin? {
      assert message in e'.heard;
    }
    TraceFits(e, e');
  }

  lemma WorkFits(hash: Hash, root: Path, e: Engine, o: Outcome)
    requires Inv(e) && IsFenced(e) && OriginInv(e)
    ensures OriginInv(Next(hash, root, e, Work(o)))
  {
    hide Inv, EffectOf, RecordOf, EventFits;
    var e' := Next(hash, root, e, Work(o));
    if e.worker.Busy? {
      GenerationOfInv(e);
      FenceDecides(e);
      EffectReasons(hash, root, e.manager, e.files, e.worker.pc, e.worker.work, o);
      var effect := EffectOf(hash, root, e.manager, e.files, e.worker.pc, e.worker.work, o);
      if effect.say.Some? && IsCurrentWork(e) {
        var s := effect.say.value;
        var said := Event(s.kind, e.worker.work.manifestRevision, e.worker.work.asset.assetId, 0, s.error);
        assert Trace(e') == Trace(e) + [said];
        CurrentSays(e, said);
        StillFits(e, e', said);
      } else {
        assert Trace(e') == Trace(e);
      }
    } else {
      assert Trace(e') == Trace(e);
    }
    TraceFits(e, e');
  }

  lemma GenerationOfInv(e: Engine)
    requires Inv(e)
    ensures GenerationInv(e)
  {}

  /** The session's own item speaks about its completed manifest. */
  lemma CurrentSays(e: Engine, event: Event)
    requires Inv(e) && IsCurrentWork(e)
    requires event.kind != BeginEvent && event.kind != CompleteEvent
    requires event.manifestRevision == e.worker.work.manifestRevision && event.assetId == e.worker.work.asset.assetId
    requires event.kind == FailedEvent ==> IsAssetErrorReasonValid(event.error)
    ensures EventFits(e, event)
  {
    hide GenerationInv, ReceiverAfter, IsManifest, PhaseOf;
    var m := e.manager.receiver.completed.value;
    assert e.worker.work.asset in m.assets;
  }

  lemma EffectReasons(hash: Hash, root: Path, m: Manager, files: FileSystem, pc: Pc, work: WorkItem, o: Outcome)
    requires pc.SayFailed? ==> IsAssetErrorReasonValid(pc.reason)
    ensures var effect := EffectOf(hash, root, m, files, pc, work, o);
            && (effect.next.Some? && effect.next.value.SayFailed? ==> IsAssetErrorReasonValid(effect.next.value.reason))
            && (effect.say.Some? ==> effect.say.value.kind != BeginEvent && effect.say.value.kind != CompleteEvent)
            && (effect.say.Some? && effect.say.value.kind == FailedEvent ==> IsAssetErrorReasonValid(effect.say.value.error))
  {
    hide LookupIn, CommitIn, TemporaryPathFor, PathFor, RemoveIn;
  }

  lemma StepOrigin(hash: Hash, root: Path, e: Engine, a: Action)
    requires Inv(e) && IsFenced(e) && OriginInv(e)
    ensures OriginInv(Next(hash, root, e, a))
  {
    hide Inv, EventFits, WorkerStep, ReceiveMessage;
    var e' := Next(hash, root, e, a);
    match a {
      case Hear(message) => HearFits(hash, root, e, message);
      case Work(outcome) => WorkFits(hash, root, e, outcome);
      case Reset => assert Trace(e') == [];
      case _ =>
        assert Trace(e') == Trace(e);
        TraceFits(e, e');
    }
  }

  lemma {:induction false} RunOrigin(hash: Hash, root: Path, e: Engine, actions: seq<Action>)
    requires Inv(e) && OriginInv(e) && FencedRun(hash, root, e, actions)
    ensures Inv(Run(hash, root, e, actions)) && OriginInv(Run(hash, root, e, actions))
  {
    hide Inv, OriginInv, Next;
    RunKeeps(hash, root, e, actions);
    if actions != [] {
      var init := actions[..|actions| - 1];
      assert forall n | 0 <= n <= |init| :: actions[..n] == init[..n];
      assert init[..|init|] == init;
      RunOrigin(hash, root, e, init);
      assert IsFenced(Run(hash, root, e, init));
      StepOrigin(hash, root, Run(hash, root, e, init), actions[|actions| - 1]);
    }
  }

  /** The fence over whole runs: in every reachable state each event of the session, drained or pending, was made from
      what this session has heard, with its revision, for one of its assets; each entry of the state table is about one of
      its assets; and whenever the worker's next step would say anything in this session, its item is of this session. */
  lemma OnlyThisSession(hash: Hash, root: Path, files: FileSystem, throws: bool, actions: seq<Action>, o: Outcome)
    requires FencedRun(hash, root, Start(files, throws), actions)
    requires IsFenced(Run(hash, root, Start(files, throws), actions))
    ensures var e := Run(hash, root, Start(files, throws), actions);
            && (forall event | event in Trace(e) :: EventFits(e, event))
            && (forall id | id in e.manager.states ::
                  e.manager.receiver.completed.Some? && id in IdsOf(e.manager.receiver.completed.value.assets))
            && (e.worker.Busy? && WorkerStep(hash, root, e, o).manager != e.manager ==> e.worker.origin == e.session)
  {
    hide FencedRun, Run, EventFits, PhaseOf, GenerationInv, ReceiverAfter, WorkerStep, IdsOf, IsManifest, QueueInv, AssetInv;
    StartInv(files, throws);
    NothingSaid(files, throws);
    RunOrigin(hash, root, Start(files, throws), actions);
    var e := Run(hash, root, Start(files, throws), actions);
    if e.worker.Busy? && !IsCurrentWork(e) {
      StaleWorkIsSilent(hash, root, e, Work(o));
    }
  }

  lemma NothingSaid(files: FileSystem, throws: bool)
    ensures OriginInv(Start(files, throws))
  {
    assert Trace(Start(files, throws)) == [];
  }
}
