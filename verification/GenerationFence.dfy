/** Session generations: what keeps a download that outlives its session from speaking in the next one,
    and exactly when it does not. */
module GenerationFence {
  import opened Bytes
  import opened Assets
  import opened Protocol
  import opened ManifestStream
  import opened AssetCache
  import opened AssetManager
  import opened AssetEngine

  /** The generation of the k-th session: 1, 2, ..., 2^64-1, then 1 again. */
  function GenerationOf(session: nat): (g: u64)
    ensures g != 0
  {
    1 + session % MAX_U64
  }

  /** The manager and a busy worker carry the generations of their sessions. */
  ghost predicate GenerationInv(e: Engine) {
    && e.manager.generation == GenerationOf(e.session)
    && (forall w | w in e.manager.queue :: w.generation == e.manager.generation)
    && (e.worker.Busy? ==> e.worker.origin <= e.session && e.worker.work.generation == GenerationOf(e.worker.origin))
  }

  /** The worker's item belongs to the present session. */
  predicate IsCurrentWork(e: Engine) {
    e.worker.Busy? && e.worker.origin == e.session
  }

  /** The worker's item has not been overtaken by a full turn of the generation counter. */
  predicate IsFenced(e: Engine) {
    e.worker.Busy? ==> e.session - e.worker.origin < MAX_U64
  }

  lemma NextGenerationOf(session: nat)
    ensures NextGeneration(GenerationOf(session)) == GenerationOf(session + 1)
  {
    NextRemainder(session, MAX_U64);
  }

  lemma NextRemainder(a: nat, m: nat)
    requires m > 1
    ensures (a + 1) % m == if a % m == m - 1 then 0 else a % m + 1
  {
    var (q, r) := (a / m, a % m);
    assert a == q * m + r;
    if r == m - 1 {
      assert a + 1 == (q + 1) * m;
      ModOf(q + 1, 0, m);
    } else {
      ModOf(q, r + 1, m);
    }
  }

  lemma ModOf(q: int, r: nat, m: nat)
    requires r < m
    ensures (q * m + r) % m == r
  {
    var a := q * m + r;
    var k := q - a / m;
    assert a == a / m * m + a % m;
    assert k * m == a % m - r;
    SmallMultiple(k, m);
  }

  lemma SmallMultiple(k: int, m: nat)
    ensures k >= 1 ==> k * m >= m
    ensures k <= -1 ==> k * m + m <= 0
  {
    if k >= 1 {
      assert k * m == m + (k - 1) * m && (k - 1) * m >= 0;
    } else if k <= -1 {
      assert k * m + m == (k + 1) * m && (k + 1) * m <= 0;
    }
  }

  /** An item's generation matches again exactly when a whole number of turns separates the sessions. */
  lemma MatchesExactlyOnFullTurns(e: Engine)
    requires GenerationInv(e) && e.worker.Busy?
    ensures e.worker.work.generation == e.manager.generation <==> (e.session - e.worker.origin) % MAX_U64 == 0
  {
    SameRemainder(e.session, e.worker.origin, MAX_U64);
  }

  lemma SameRemainder(a: nat, b: nat, m: nat)
    requires b <= a && m > 0
    ensures a % m == b % m <==> (a - b) % m == 0
  {
    var (qa, qb, qd) := (a / m, b / m, (a - b) / m);
    assert a == qa * m + a % m && b == qb * m + b % m && a - b == qd * m + (a - b) % m;
    if a % m == b % m {
      assert a - b == (qa - qb) * m;
      ModOf(qa - qb, 0, m);
    }
    if (a - b) % m == 0 {
      assert a == (qb + qd) * m + b % m;
      ModOf(qb + qd, b % m, m);
    }
  }

  /** So behind the fence an item matches exactly in its own session. */
  lemma FenceDecides(e: Engine)
    requires GenerationInv(e) && IsFenced(e) && e.worker.Busy?
    ensures e.worker.work.generation == e.manager.generation <==> IsCurrentWork(e)
  {
    MatchesExactlyOnFullTurns(e);
  }

  lemma {:induction false} QueueAssetsKeeps(m: Manager, revision: u64, assets: seq<AssetDescription>)
    ensures var m' := QueueAssets(m, revision, assets);
            && m'.generation == m.generation && m'.stopping == m.stopping && m'.receiver == m.receiver
            && m.queue <= m'.queue
            && forall w | w in m'.queue[|m.queue|..] :: w.generation == m.generation
  {
    if assets != [] {
      QueueAssetsKeeps(m, revision, assets[..|assets| - 1]);
    }
  }

  lemma ReceiveKeeps(m: Manager, message: Message)
    ensures var m' := ReceiveMessage(m, message).0;
            && m'.generation == m.generation && m'.stopping == m.stopping
            && m'.receiver == HandleMessage(m.receiver, message).0
            && m.queue <= m'.queue
            && forall w | w in m'.queue[|m.queue|..] :: w.generation == m.generation
  {
    hide HandleMessage;
    var (receiver, result) := HandleMessage(m.receiver, message);
    if result == Completed && receiver.completed.Some? {
      var manifest := receiver.completed.value;
      var event := Event(CompleteEvent, manifest.revision, 0, |manifest.assets| % 0x1_0000_0000, INTERNAL_ERROR);
      var announced := m.(receiver := receiver, events := m.events + [event]);
      QueueAssetsKeeps(announced, manifest.revision, manifest.assets);
    }
  }

  /** Every step of every thread keeps the generations in step with the sessions. */
  lemma GenerationStep(hash: Hash, root: Path, e: Engine, a: Action)
    requires GenerationInv(e)
    ensures GenerationInv(Next(hash, root, e, a))
  {
    hide EffectOf, GenerationOf, NextGeneration;
    match a {
      case Hear(message) =>
        hide ReceiveMessage;
        ReceiveKeeps(e.manager, message);
        var q := ReceiveMessage(e.manager, message).0.queue;
        assert q == e.manager.queue + q[|e.manager.queue|..];
      case Reset => NextGenerationOf(e.session);
      case Work(outcome) =>
      case _ =>
    }
  }

  lemma {:induction false} GenerationRun(hash: Hash, root: Path, e: Engine, actions: seq<Action>)
    requires GenerationInv(e)
    ensures GenerationInv(Run(hash, root, e, actions))
  {
    hide GenerationInv, Next;
    if actions != [] {
      GenerationRun(hash, root, e, actions[..|actions| - 1]);
      GenerationStep(hash, root, Run(hash, root, e, actions[..|actions| - 1]), actions[|actions| - 1]);
    }
  }

  /** Behind the fence, nothing the worker does for a past session reaches the manager: not its states, not its
      events, not its queue. */
  lemma StaleWorkIsSilent(hash: Hash, root: Path, e: Engine, a: Action)
    requires GenerationInv(e) && IsFenced(e)
    requires e.worker.Busy? && !IsCurrentWork(e) && (a.Work? || a.Throw?)
    ensures var e' := Next(hash, root, e, a);
            e'.manager == e.manager && e'.history == e.history && e'.readyLog == e.readyLog && e'.session == e.session
  {
    hide EffectOf, GenerationInv;
    FenceDecides(e);
  }

  // Beyond the fence.

  function Resets(n: nat): (actions: seq<Action>)
    ensures |actions| == n
  {
    seq(n, i => Reset)
  }

  lemma {:induction false} AfterResets(hash: Hash, root: Path, e: Engine, n: nat)
    requires n > 0
    ensures var e' := Run(hash, root, e, Resets(n));
            && e'.session == e.session + n && e'.worker == e.worker && e'.files == e.files
            && e'.manager.events == [] && e'.manager.states == map[] && e'.history == []
            && e'.manager.receiver == INITIAL
  {
    assert Resets(n)[..n - 1] == Resets(n - 1);
    if n > 1 {
      AfterResets(hash, root, e, n - 1);
    } else {
      assert Run(hash, root, e, Resets(0)) == e;
    }
  }

  /** The fence is needed: an item about to report a download, overtaken by 2^64-1 resets, reports into a
      session that has heard nothing at all. */
  lemma FullTurnLeaks(hash: Hash, root: Path, e: Engine, outcome: Outcome)
    requires GenerationInv(e) && IsCurrentWork(e) && e.worker.pc == SayDownloading
    ensures var e' := Next(hash, root, Run(hash, root, e, Resets(MAX_U64)), Work(outcome));
            && e'.manager.receiver == INITIAL
            && e'.manager.events == [Event(DownloadingEvent, e.worker.work.manifestRevision, e.worker.work.asset.assetId, 0, INTERNAL_ERROR)]
            && e'.session != e.worker.origin
  {
    var overtaken := Run(hash, root, e, Resets(MAX_U64));
    hide Run, Resets, GenerationInv;
    AfterResets(hash, root, e, MAX_U64);
    GenerationRun(hash, root, e, Resets(MAX_U64));
    MatchesExactlyOnFullTurns(overtaken);
  }
}
