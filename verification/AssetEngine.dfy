/** The running client asset engine: the manager's critical sections on the network thread interleaved,
    one step at a time, with the single worker's critical sections, disk calls and downloads. */
module AssetEngine {
  import opened Bytes
  import opened Assets
  import opened Protocol
  import opened AssetCache
  import opened AssetManager

  datatype FetchError =
    | NoError | UnsupportedSchemeError | NetworkError | TimeoutError | SizeError | DiskError | UnknownError

  function MapFetchError(error: FetchError): u16 {
    match error
    case UnsupportedSchemeError => UNSUPPORTED_SCHEME
    case NetworkError => NETWORK_FAILURE
    case TimeoutError => TIMEOUT
    case SizeError => SIZE_MISMATCH
    case DiskError => DISK_FAILURE
    case UnknownError => INTERNAL_ERROR
    case NoError => INTERNAL_ERROR
  }

  /** Where the worker is inside its handling of one item; each value is one step. */
  datatype Pc =
    | Check | Lookup | SayCacheHit | SayHitReady | SayDownloading | Fetch | SayVerifying | Verify | SayVerified
    | Commit | SayReady | SayFailed(reason: u16)

  /** The worker, its item, and the session the item was taken in. */
  datatype Worker = Waiting | Busy(pc: Pc, work: WorkItem, origin: nat)

  /** Everything the outside world decides about one worker step: which disk calls fail, what the
      download left at the temporary path, and what it reported. */
  datatype Outcome = Outcome(
    lookup: LookupFaults,
    cleanFault: bool,
    fetched: Option<Node>,
    fetchError: FetchError,
    bytesReceived: u64,
    discardFault: bool,
    sizeFault: bool,
    readFault: bool,
    commit: CommitFaults)

  /** A Ready report at the moment it was recorded: where and when, for what, and what the cache path held. */
  datatype ReadyRecord = ReadyRecord(session: nat, stamp: nat, revision: u64, asset: AssetDescription, file: Option<Node>)

  /** The last nine fields are bookkeeping of the model: how many resets there have been, whether an exception
      may strike, what the receiver has heard and what has been drained since the last reset, how many items
      have been taken since then, an external clock and its value at the reset, the Ready reports, and the
      cache paths committed. */
  datatype Engine = Engine(
    manager: Manager,
    worker: Worker,
    files: FileSystem,
    session: nat,
    throws: bool,
    heard: seq<Message>,
    history: seq<Event>,
    taken: nat,
    stamp: nat,
    sessionStamp: nat,
    readyLog: seq<ReadyRecord>,
    commits: seq<Path>)

  function Start(files: FileSystem, throws: bool): Engine {
    Engine(FRESH, Waiting, files, 0, throws, [], [], 0, 0, 0, [], [])
  }

  // One worker step.

  datatype Saying = Saying(state: AssetState, kind: EventKind, error: u16)

  /** What one step does: the disk afterwards, the report it makes, where the worker goes (None: back to
      waiting), and whether a verified file was committed. */
  datatype Effect = Effect(files: FileSystem, say: Option<Saying>, next: Option<Pc>, committed: bool)

  function Quiet(files: FileSystem, next: Pc): Effect {
    Effect(files, None, Some(next), false)
  }

  function Says(files: FileSystem, state: AssetState, kind: EventKind, next: Option<Pc>): Effect {
    Effect(files, Some(Saying(state, kind, INTERNAL_ERROR)), next, false)
  }

  /** A failed download or check: the temporary file is removed and the failure reported next. */
  function GiveUp(files: FileSystem, temporary: Path, o: Outcome, reason: u16): Effect {
    Quiet(RemoveIn(files, temporary, o.discardFault), SayFailed(reason))
  }

  function LookupEffect(hash: Hash, root: Path, files: FileSystem, work: WorkItem, o: Outcome): Effect {
    var (after, found) := LookupIn(hash, root, files, work.asset, o.lookup);
    match found
    case Hit => Quiet(after, SayCacheHit)
    case DiskFailure => Quiet(after, SayFailed(DISK_FAILURE))
    case Miss => Quiet(after, SayDownloading)
  }

  function FetchEffect(root: Path, files: FileSystem, work: WorkItem, o: Outcome): Effect {
    var temporary := TemporaryPathFor(root, work.asset);
    var cleaned := RemoveIn(files, temporary, o.cleanFault);
    var after := match o.fetched case Some(node) => cleaned[temporary := node] case None => cleaned - {temporary};
    if o.fetchError != NoError then GiveUp(after, temporary, o, MapFetchError(o.fetchError))
    else if o.bytesReceived != work.asset.fileSize then GiveUp(after, temporary, o, SIZE_MISMATCH)
    else Quiet(after, SayVerifying)
  }

  function VerifyEffect(hash: Hash, root: Path, files: FileSystem, work: WorkItem, o: Outcome): Effect {
    var temporary := TemporaryPathFor(root, work.asset);
    if o.sizeFault || temporary !in files || files[temporary].Other? then GiveUp(files, temporary, o, DISK_FAILURE)
    else
      var data := files[temporary].data;
      if |data| != work.asset.fileSize then GiveUp(files, temporary, o, SIZE_MISMATCH)
      else if o.readFault then GiveUp(files, temporary, o, DISK_FAILURE)
      else if hash(data) != work.asset.sha256 then GiveUp(files, temporary, o, HASH_MISMATCH)
      else Quiet(files, SayVerified)
  }

  function CommitEffect(hash: Hash, root: Path, files: FileSystem, work: WorkItem, o: Outcome): Effect {
    var temporary := TemporaryPathFor(root, work.asset);
    var (after, done) := CommitIn(hash, root, files, work.asset, temporary, o.commit);
    if done then Effect(after, None, Some(SayReady), true) else GiveUp(after, temporary, o, DISK_FAILURE)
  }

  function EffectOf(hash: Hash, root: Path, m: Manager, files: FileSystem, pc: Pc, work: WorkItem, o: Outcome): Effect {
    match pc
    case Check => if IsCurrent(m, work.generation) then Quiet(files, Lookup) else Effect(files, None, None, false)
    case Lookup => LookupEffect(hash, root, files, work, o)
    case SayCacheHit => Says(files, Ready, CacheHitEvent, Some(SayHitReady))
    case SayHitReady => Says(files, Ready, ReadyEvent, None)
    case SayDownloading => Says(files, Downloading, DownloadingEvent, Some(Fetch))
    case Fetch => FetchEffect(root, files, work, o)
    case SayVerifying => Says(files, Verifying, VerifyingEvent, Some(Verify))
    case Verify => VerifyEffect(hash, root, files, work, o)
    case SayVerified => Says(files, Verifying, VerifiedEvent, Some(Commit))
    case Commit => CommitEffect(hash, root, files, work, o)
    case SayReady => Says(files, Ready, ReadyEvent, None)
    case SayFailed(reason) => Effect(files, Some(Saying(AssetFailed, FailedEvent, reason)), None, false)
  }

  function RecordOf(root: Path, e: Engine, work: WorkItem): ReadyRecord {
    var path := PathFor(root, work.asset);
    ReadyRecord(e.session, e.stamp, work.manifestRevision, work.asset, if path in e.files then Some(e.files[path]) else None)
  }

  function Speak(root: Path, e: Engine, work: WorkItem, s: Saying): Engine {
    e.(manager := AfterReport(e.manager, work, s.state, s.kind, s.error),
       readyLog := if s.kind == ReadyEvent && work.generation == e.manager.generation
                   then e.readyLog + [RecordOf(root, e, work)] else e.readyLog)
  }

  function WorkerStep(hash: Hash, root: Path, e: Engine, o: Outcome): Engine {
    match e.worker
    case Waiting =>
      if e.manager.stopping || e.manager.queue == [] then e
      else e.(worker := Busy(Check, e.manager.queue[0], e.session),
              manager := e.manager.(queue := e.manager.queue[1..]),
              taken := e.taken + 1)
    case Busy(pc, work, origin) =>
      var effect := EffectOf(hash, root, e.manager, e.files, pc, work, o);
      var spoken := if effect.say.Some? then Speak(root, e, work, effect.say.value) else e;
      spoken.(files := effect.files,
              worker := if effect.next.Some? then Busy(effect.next.value, work, origin) else Waiting,
              commits := if effect.committed then e.commits + [PathFor(root, work.asset)] else e.commits)
  }

  /** An exception inside the handling of an item: everything but a final report can be cut short by one. */
  function ThrowStep(e: Engine): Engine {
    if e.throws && e.worker.Busy? && !e.worker.pc.SayFailed? then
      e.(worker := e.worker.(pc := SayFailed(INTERNAL_ERROR)))
    else e
  }

  // All steps.

  datatype Action = Hear(message: Message) | Drain | Reset | Stop | Work(outcome: Outcome) | Throw | Tick

  function Next(hash: Hash, root: Path, e: Engine, a: Action): Engine {
    match a
    case Hear(message) => e.(manager := ReceiveMessage(e.manager, message).0, heard := e.heard + [message])
    case Drain => e.(manager := e.manager.(events := []), history := e.history + e.manager.events)
    case Reset =>
      e.(manager := AfterReset(e.manager), session := e.session + 1, heard := [], history := [], taken := 0,
         sessionStamp := e.stamp)
    case Stop => e.(manager := AfterStop(e.manager))
    case Work(outcome) => WorkerStep(hash, root, e, outcome)
    case Throw => ThrowStep(e)
    case Tick => e.(stamp := e.stamp + 1)
  }

  function Run(hash: Hash, root: Path, e: Engine, actions: seq<Action>): Engine {
    if actions == [] then e else Next(hash, root, Run(hash, root, e, actions[..|actions| - 1]), actions[|actions| - 1])
  }

  /** All events of the current session, drained ones first. */
  function Trace(e: Engine): seq<Event> {
    e.history + e.manager.events
  }
}
