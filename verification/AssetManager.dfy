/** The client's asset manager: what its mutex protects, and the critical sections that change it. */
module AssetManager {
  import opened Bytes
  import opened Assets
  import opened Protocol
  import opened ManifestStream

  datatype AssetState = Unknown | Queued | Downloading | Verifying | Ready | AssetFailed

  datatype EventKind =
    | BeginEvent | CompleteEvent | CacheHitEvent | QueuedEvent | DownloadingEvent | VerifyingEvent
    | VerifiedEvent | ReadyEvent | FailedEvent

  datatype Event = Event(kind: EventKind, manifestRevision: u64, assetId: u32, assetCount: u32, error: u16)
  datatype WorkItem = WorkItem(generation: u64, manifestRevision: u64, asset: AssetDescription)

  datatype Manager = Manager(
    receiver: Receiver,
    queue: seq<WorkItem>,
    events: seq<Event>,
    states: map<u32, AssetState>,
    generation: u64,
    stopping: bool)

  const FRESH := Manager(INITIAL, [], [], map[], 1, false)

  // The critical sections.

  /** Generations count up and skip zero when they wrap. */
  function NextGeneration(generation: u64): u64 {
    if generation == MAX_U64 then 1 else generation + 1
  }

  function AfterReset(m: Manager): Manager {
    Manager(INITIAL, [], [], map[], NextGeneration(m.generation), m.stopping)
  }

  function AfterStop(m: Manager): Manager {
    m.(stopping := true, queue := [])
  }

  function StateIn(m: Manager, assetId: u32): AssetState {
    if assetId in m.states then m.states[assetId] else Unknown
  }

  function QueueAsset(m: Manager, revision: u64, asset: AssetDescription): Manager {
    if asset.assetId in m.states && m.states[asset.assetId] != AssetFailed then m
    else m.(states := m.states[asset.assetId := Queued],
            queue := m.queue + [WorkItem(m.generation, revision, asset)],
            events := m.events + [Event(QueuedEvent, revision, asset.assetId, 0, INTERNAL_ERROR)])
  }

  function QueueAssets(m: Manager, revision: u64, assets: seq<AssetDescription>): Manager {
    if assets == [] then m
    else QueueAsset(QueueAssets(m, revision, assets[..|assets| - 1]), revision, assets[|assets| - 1])
  }

  /** The count goes through a 32-bit cast, which no manifest is long enough to feel. */
  function ReceiveMessage(m: Manager, message: Message): (Manager, InputResult) {
    var (receiver, result) := ManifestStream.HandleMessage(m.receiver, message);
    var m' := m.(receiver := receiver);
    if result == Accepted && message.ManifestBegin? then
      (m'.(events := m.events + [Event(BeginEvent, message.manifestRevision, 0, message.assetCount, INTERNAL_ERROR)]), result)
    else if result == Completed && receiver.completed.Some? then
      var manifest := receiver.completed.value;
      var event := Event(CompleteEvent, manifest.revision, 0, |manifest.assets| % 0x1_0000_0000, INTERNAL_ERROR);
      var announced := m'.(events := m.events + [event]);
      (QueueAssets(announced, manifest.revision, manifest.assets), result)
    else (m', result)
  }

  /** A report from a work item of another generation is dropped. */
  function AfterReport(m: Manager, work: WorkItem, state: AssetState, kind: EventKind, error: u16): Manager {
    if work.generation != m.generation then m
    else m.(states := m.states[work.asset.assetId := state],
            events := m.events + [Event(kind, work.manifestRevision, work.asset.assetId, 0, error)])
  }

  function IsCurrent(m: Manager, generation: u64): bool {
    !m.stopping && generation == m.generation
  }

  // What hearing a message does, stated on the message.

  /** The assets a state table does not know, or has given up. */
  function Wanted(states: map<u32, AssetState>, assets: seq<AssetDescription>): seq<AssetDescription> {
    if assets == [] then []
    else
      var last := assets[|assets| - 1];
      Wanted(states, assets[..|assets| - 1]) +
      if last.assetId !in states || states[last.assetId] == AssetFailed then [last] else []
  }

  function Items(generation: u64, revision: u64, assets: seq<AssetDescription>): seq<WorkItem> {
    if assets == [] then []
    else Items(generation, revision, assets[..|assets| - 1]) + [WorkItem(generation, revision, assets[|assets| - 1])]
  }

  function Notices(revision: u64, assets: seq<AssetDescription>): seq<Event> {
    if assets == [] then []
    else Notices(revision, assets[..|assets| - 1]) + [Event(QueuedEvent, revision, assets[|assets| - 1].assetId, 0, 8)]
  }

  lemma OneMoreWanted(generation: u64, revision: u64, assets: seq<AssetDescription>, asset: AssetDescription)
    ensures Items(generation, revision, assets + [asset]) == Items(generation, revision, assets) + [WorkItem(generation, revision, asset)]
    ensures Notices(revision, assets + [asset]) == Notices(revision, assets) + [Event(QueuedEvent, revision, asset.assetId, 0, 8)]
  {
    assert (assets + [asset])[..|assets|] == assets;
  }

  predicate Lists(assets: seq<AssetDescription>, id: u32) {
    exists a | a in assets :: a.assetId == id
  }

  lemma ListsMore(assets: seq<AssetDescription>, asset: AssetDescription, id: u32)
    ensures Lists(assets + [asset], id) <==> Lists(assets, id) || asset.assetId == id
  {
    assert (assets + [asset])[|assets|] == asset;
    assert forall a | a in assets :: a in assets + [asset];
  }

  lemma {:induction false} WantedListed(states: map<u32, AssetState>, assets: seq<AssetDescription>, id: u32)
    ensures Lists(Wanted(states, assets), id) ==> Lists(assets, id)
  {
    hide Lists;
    if assets != [] {
      var (init, last) := (assets[..|assets| - 1], assets[|assets| - 1]);
      WantedListed(states, init, id);
      ListsMore(init, last, id);
      ListsMore(Wanted(states, init), last, id);
      assert init + [last] == assets && Wanted(states, init) + [] == Wanted(states, init);
    }
  }

  lemma DistinctLast(assets: seq<AssetDescription>)
    requires assets != [] && DistinctIds(assets)
    ensures DistinctIds(assets[..|assets| - 1]) && !Lists(assets[..|assets| - 1], assets[|assets| - 1].assetId)
  {}

  /** One id. */
  lemma {:induction false} QueuedState(m: Manager, revision: u64, assets: seq<AssetDescription>, id: u32)
    requires DistinctIds(assets)
    ensures var m' := QueueAssets(m, revision, assets);
            && StateIn(m', id) == (if Lists(Wanted(m.states, assets), id) then Queued else StateIn(m, id))
            && (!Lists(assets, id) ==> (id in m'.states <==> id in m.states))
  {
    hide Lists, DistinctIds;
    NoneListed(id);
    if assets != [] {
      var (init, last) := (assets[..|assets| - 1], assets[|assets| - 1]);
      DistinctLast(assets);
      QueuedState(m, revision, init, id);
      QueuedState(m, revision, init, last.assetId);
      WantedListed(m.states, init, last.assetId);
      ListsMore(init, last, id);
      ListsMore(Wanted(m.states, init), last, id);
      assert init + [last] == assets && Wanted(m.states, init) + [] == Wanted(m.states, init);
    }
  }

  lemma NoneListed(id: u32)
    ensures !Lists([], id)
  {}

  lemma {:induction false} QueuedItems(m: Manager, revision: u64, assets: seq<AssetDescription>)
    requires DistinctIds(assets)
    ensures var (m', wanted) := (QueueAssets(m, revision, assets), Wanted(m.states, assets));
            m' == m.(queue := m.queue + Items(m.generation, revision, wanted),
                     events := m.events + Notices(revision, wanted),
                     states := m'.states)
  {
    hide Lists, DistinctIds, Items, Notices;
    NothingQueued(m, revision);
    if assets != [] {
      var (init, last) := (assets[..|assets| - 1], assets[|assets| - 1]);
      var (earlier, wanted) := (QueueAssets(m, revision, init), Wanted(m.states, init));
      DistinctLast(assets);
      QueuedItems(m, revision, init);
      assert last.assetId in earlier.states && earlier.states[last.assetId] != AssetFailed <==>
             last.assetId in m.states && m.states[last.assetId] != AssetFailed by {
        QueuedState(m, revision, init, last.assetId);
        WantedListed(m.states, init, last.assetId);
      }
      OneMoreWanted(m.generation, revision, wanted, last);
      assert wanted + [] == wanted;
      assert QueueAssets(m, revision, assets) == QueueAsset(earlier, revision, last);
      AppendedItem(m.queue, Items(m.generation, revision, wanted), WorkItem(m.generation, revision, last));
      AppendedNotice(m.events, Notices(revision, wanted), Event(QueuedEvent, revision, last.assetId, 0, 8));
    }
  }

  lemma NothingQueued(m: Manager, revision: u64)
    ensures m.queue + Items(m.generation, revision, []) == m.queue && m.events + Notices(revision, []) == m.events
  {}

  lemma AppendedItem(a: seq<WorkItem>, b: seq<WorkItem>, item: WorkItem)
    ensures a + (b + [item]) == a + b + [item]
  {}

  lemma AppendedNotice(a: seq<Event>, b: seq<Event>, event: Event)
    ensures a + (b + [event]) == a + b + [event]
  {}

  /** Queuing a manifest of different ids puts exactly the wanted assets behind the queue, in manifest order, with a notice
      each, marks exactly them as queued, and touches nothing else. */
  lemma QueuesWanted(m: Manager, revision: u64, assets: seq<AssetDescription>)
    requires DistinctIds(assets)
    ensures var (m', wanted) := (QueueAssets(m, revision, assets), Wanted(m.states, assets));
            && m' == m.(queue := m.queue + Items(m.generation, revision, wanted),
                        events := m.events + Notices(revision, wanted),
                        states := m'.states)
            && (forall id :: StateIn(m', id) == if Lists(wanted, id) then Queued else StateIn(m, id))
  {
    hide Lists, DistinctIds, QueueAssets, Items, Notices, Wanted;
    QueuedItems(m, revision, assets);
    forall id
      ensures StateIn(QueueAssets(m, revision, assets), id) ==
              if Lists(Wanted(m.states, assets), id) then Queued else StateIn(m, id)
    {
      QueuedState(m, revision, assets, id);
    }
  }

  /** What hearing a message puts into the manager, by what the receiver answers: a beginning is noted with its count; a
      completion is noted with the number of assets, and the wanted ones are queued; and anything else only goes to the
      receiver. */
  lemma HearsExactly(m: Manager, ms: seq<Message>, message: Message)
    requires m.receiver == ReceiverAfter(ms)
    ensures var ((receiver, result), m') := (HandleMessage(m.receiver, message), ReceiveMessage(m, message).0);
            && ReceiveMessage(m, message).1 == result
            && m' == m.(receiver := receiver, queue := m'.queue, events := m'.events, states := m'.states)
            && (result == Accepted && message.ManifestBegin? ==>
                && m'.events == m.events + [Event(BeginEvent, message.manifestRevision, 0, message.assetCount, 8)]
                && m'.queue == m.queue && m'.states == m.states)
            && (result == Completed ==>
                && receiver.completed.Some?
                && var manifest := receiver.completed.value;
                var wanted := Wanted(m.states, manifest.assets);
                && m'.events == m.events + [Event(CompleteEvent, manifest.revision, 0, |manifest.assets|, 8)]
                                         + Notices(manifest.revision, wanted)
                && m'.queue == m.queue + Items(m.generation, manifest.revision, wanted)
                && (forall id :: StateIn(m', id) == if Lists(wanted, id) then Queued else StateIn(m, id)))
            && (!(result == Accepted && message.ManifestBegin?) && result != Completed ==> m' == m.(receiver := receiver))
  {
    hide HandleMessage, IsDescriptionValid, TotalSize, Items, Notices, Wanted, QueueAssets, Lists, DistinctIds, DistinctNames;
    var (receiver, result) := HandleMessage(m.receiver, message);
    if result == Completed {
      CompletedOnce(ms, message);
      assert ms + [message] != [] && (ms + [message])[..|ms|] == ms;
      CompletedIsManifest(ms + [message]);
      var manifest := receiver.completed.value;
      var event := Event(CompleteEvent, manifest.revision, 0, |manifest.assets| % 0x1_0000_0000, INTERNAL_ERROR);
      QueuesWanted(m.(receiver := receiver, events := m.events + [event]), manifest.revision, manifest.assets);
    }
  }

  // The object.

  class ClientAssetManager {
    const receiver: ManifestReceiver
    var queue: seq<WorkItem>
    var events: seq<Event>
    var states: map<u32, AssetState>
    var generation: u64
    var stopping: bool

    function View(): Manager
      reads this, receiver
    {
      Manager(receiver.View(), queue, events, states, generation, stopping)
    }

    constructor ()
      ensures View() == FRESH && fresh(receiver)
    {
      receiver := new ManifestReceiver();
      queue, events, states, generation, stopping := [], [], map[], 1, false;
    }

    method RequestStop()
      modifies this
      ensures View() == AfterStop(old(View()))
    {
      stopping := true;
      queue := [];
    }

    method ResetSession()
      modifies this, receiver
      ensures View() == AfterReset(old(View()))
    {
      generation := (generation + 1) % 0x1_0000_0000_0000_0000;
      if generation == 0 {
        generation := 1;
      }
      receiver.Reset();
      queue, events, states := [], [], map[];
    }

    method HandleMessage(message: Message) returns (result: InputResult)
      modifies this, receiver
      ensures (View(), result) == ReceiveMessage(old(View()), message)
    {
      hide ManifestStream.HandleMessage;
      result := receiver.Handle(message);
      if result == Accepted {
        if message.ManifestBegin? {
          events := events + [Event(BeginEvent, message.manifestRevision, 0, message.assetCount, INTERNAL_ERROR)];
        }
      } else if result == Completed && receiver.completed.Some? {
        var manifest := receiver.completed.value;
        events := events + [Event(CompleteEvent, manifest.revision, 0, |manifest.assets| % 0x1_0000_0000, INTERNAL_ERROR)];
        QueueManifest(manifest);
      }
    }

    method QueueManifest(manifest: Manifest)
      modifies this
      ensures View() == QueueAssets(old(View()), manifest.revision, manifest.assets)
    {
      for i := 0 to |manifest.assets|
        invariant View() == QueueAssets(old(View()), manifest.revision, manifest.assets[..i])
        invariant receiver.View() == old(receiver.View())
      {
        var asset := manifest.assets[i];
        assert manifest.assets[..i + 1][..i] == manifest.assets[..i];
        if asset.assetId !in states || states[asset.assetId] == AssetFailed {
          states := states[asset.assetId := Queued];
          queue := queue + [WorkItem(generation, manifest.revision, asset)];
          events := events + [Event(QueuedEvent, manifest.revision, asset.assetId, 0, INTERNAL_ERROR)];
        }
      }
      assert manifest.assets[..|manifest.assets|] == manifest.assets;
    }

    method DrainEvents() returns (result: seq<Event>)
      modifies this
      ensures View() == old(View()).(events := []) && result == old(events)
    {
      result := events;
      events := [];
    }

    /** The worker's wait: it leaves on a stop, and otherwise takes the front item. */
    method TakeWork() returns (work: Option<WorkItem>)
      modifies this
      ensures if old(stopping) || old(queue) == [] then work == None && View() == old(View())
              else work == Some(old(queue)[0]) && View() == old(View()).(queue := old(queue)[1..])
    {
      if stopping || queue == [] {
        return None;
      }
      work := Some(queue[0]);
      queue := queue[1..];
    }

    method SetState(work: WorkItem, state: AssetState, kind: EventKind, error: u16)
      modifies this
      ensures View() == AfterReport(old(View()), work, state, kind, error)
    {
      if work.generation != generation {
        return;
      }
      states := states[work.asset.assetId := state];
      events := events + [Event(kind, work.manifestRevision, work.asset.assetId, 0, error)];
    }
  }
}
