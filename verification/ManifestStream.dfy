/** The client's acceptor for a manifest stream: the step it takes on a message, the object that
    takes it, and the language it accepts. */
module ManifestStream {
  import opened Bytes
  import opened Assets
  import opened Protocol

  datatype State = Idle | Receiving | Complete | Failed
  datatype InputResult = Ignored | Accepted | Completed | InvalidOrder | InvalidManifest

  datatype Receiver = Receiver(
    state: State,
    manifest: Manifest,
    expectedCount: u32,
    manifestBytes: nat,
    assetIds: set<u32>,
    logicalNames: set<seq<byte>>,
    completed: Option<Manifest>)

  const INITIAL := Receiver(Idle, Manifest(0, [], 0), 0, 0, {}, {}, None)

  // One message.

  function HandleBegin(r: Receiver, revision: u64, count: u32, total: u64): (Receiver, InputResult) {
    if r.state != Idle then (r.(state := Failed), InvalidOrder)
    else if !IsManifestBoundaryValid(revision, count, total) then (r.(state := Failed), InvalidManifest)
    else (Receiver(Receiving, Manifest(revision, [], total), count, 20, {}, {}, None), Accepted)
  }

  function HandleAsset(r: Receiver, revision: u64, index: u32, asset: AssetDescription): (Receiver, InputResult) {
    var known := |r.manifest.assets|;
    var bytes := SerializedAssetBytes(asset);
    if r.state != Receiving || revision != r.manifest.revision || index != known || known >= r.expectedCount
    then (r.(state := Failed), InvalidOrder)
    else if !IsDescriptionValid(asset) || bytes > MAXIMUM_MANIFEST_BYTES - r.manifestBytes || asset.assetId in r.assetIds
    then (r.(state := Failed), InvalidManifest)
    // The id of an asset with a known name has already been entered when the name is looked up.
    else if asset.logicalName in r.logicalNames
    then (r.(state := Failed, assetIds := r.assetIds + {asset.assetId}), InvalidManifest)
    else (r.(manifest := r.manifest.(assets := r.manifest.assets + [asset]),
             manifestBytes := r.manifestBytes + bytes,
             assetIds := r.assetIds + {asset.assetId},
             logicalNames := r.logicalNames + {asset.logicalName}), Accepted)
  }

  function HandleEnd(r: Receiver, revision: u64, count: u32, total: u64): (Receiver, InputResult) {
    if r.state != Receiving || revision != r.manifest.revision || count != r.expectedCount ||
       count != |r.manifest.assets| || total != r.manifest.totalDownloadSize
    then (r.(state := Failed), InvalidOrder)
    else if TotalSize(r.manifest.assets) > MAXIMUM_TOTAL_DOWNLOAD_SIZE || TotalSize(r.manifest.assets) != total
    then (r.(state := Failed), InvalidManifest)
    else if r.manifestBytes + 20 > MAXIMUM_MANIFEST_BYTES
    then (r.(state := Failed, manifestBytes := r.manifestBytes + 20), InvalidManifest)
    else (r.(state := Complete, manifestBytes := r.manifestBytes + 20, completed := Some(r.manifest)), Completed)
  }

  function HandleMessage(r: Receiver, m: Message): (Receiver, InputResult) {
    match m
    case ManifestBegin(revision, count, total) => HandleBegin(r, revision, count, total)
    case ManifestAsset(revision, index, asset) => HandleAsset(r, revision, index, asset)
    case ManifestEnd(revision, count, total) => HandleEnd(r, revision, count, total)
    case _ => (r, Ignored)
  }

  // The object.

  class ManifestReceiver {
    var state: State
    var manifest: Manifest
    var expectedCount: u32
    var manifestBytes: nat
    var assetIds: set<u32>
    var logicalNames: set<seq<byte>>
    var completed: Option<Manifest>

    function View(): Receiver
      reads this
    {
      Receiver(state, manifest, expectedCount, manifestBytes, assetIds, logicalNames, completed)
    }

    constructor ()
      ensures View() == INITIAL
    {
      state, manifest, expectedCount, manifestBytes := Idle, Manifest(0, [], 0), 0, 0;
      assetIds, logicalNames, completed := {}, {}, None;
    }

    method Reset()
      modifies this
      ensures View() == INITIAL
    {
      state, manifest, expectedCount, manifestBytes := Idle, Manifest(0, [], 0), 0, 0;
      assetIds, logicalNames, completed := {}, {}, None;
    }

    method Handle(m: Message) returns (result: InputResult)
      modifies this
      ensures (View(), result) == HandleMessage(old(View()), m)
    {
      match m {
        case ManifestBegin(revision, count, total) => result := Begin(revision, count, total);
        case ManifestAsset(revision, index, asset) => result := Asset(revision, index, asset);
        case ManifestEnd(revision, count, total) => result := End(revision, count, total);
        case _ => result := Ignored;
      }
    }

    method Begin(revision: u64, count: u32, total: u64) returns (result: InputResult)
      modifies this
      ensures (View(), result) == HandleBegin(old(View()), revision, count, total)
    {
      if state != Idle {
        state := Failed;
        return InvalidOrder;
      }
      if revision == 0 || count > MAXIMUM_ASSETS_PER_MANIFEST || total > MAXIMUM_TOTAL_DOWNLOAD_SIZE ||
         (count == 0 && total != 0) {
        state := Failed;
        return InvalidManifest;
      }
      manifest := Manifest(revision, [], total);
      expectedCount := count;
      manifestBytes := 20;
      assetIds, logicalNames, completed := {}, {}, None;
      state := Receiving;
      return Accepted;
    }

    method Asset(revision: u64, index: u32, asset: AssetDescription) returns (result: InputResult)
      modifies this
      ensures (View(), result) == HandleAsset(old(View()), revision, index, asset)
    {
      hide IsDescriptionValid;
      if state != Receiving || revision != manifest.revision || index != |manifest.assets| || |manifest.assets| >= expectedCount {
        state := Failed;
        return InvalidOrder;
      }
      var bytes := SerializedAssetBytes(asset);
      var valid := IsAssetDescriptionValid(asset);
      if !valid || bytes > MAXIMUM_MANIFEST_BYTES - manifestBytes || asset.assetId in assetIds {
        state := Failed;
        return InvalidManifest;
      }
      assetIds := assetIds + {asset.assetId};
      if asset.logicalName in logicalNames {
        state := Failed;
        return InvalidManifest;
      }
      logicalNames := logicalNames + {asset.logicalName};
      manifestBytes := manifestBytes + bytes;
      manifest := manifest.(assets := manifest.assets + [asset]);
      return Accepted;
    }

    method End(revision: u64, count: u32, total: u64) returns (result: InputResult)
      modifies this
      ensures (View(), result) == HandleEnd(old(View()), revision, count, total)
    {
      if state != Receiving || revision != manifest.revision || count != expectedCount ||
         count != |manifest.assets| || total != manifest.totalDownloadSize {
        state := Failed;
        return InvalidOrder;
      }
      var sum := 0;
      var assets := manifest.assets;
      for i := 0 to |assets|
        invariant sum == TotalSize(assets[..i]) <= MAXIMUM_TOTAL_DOWNLOAD_SIZE
        invariant View() == old(View()) && assets == manifest.assets
      {
        assert assets[..i + 1][..i] == assets[..i];
        if assets[i].fileSize > MAXIMUM_TOTAL_DOWNLOAD_SIZE - sum {
          TotalSizePrefix(assets, i + 1);
          state := Failed;
          return InvalidManifest;
        }
        sum := sum + assets[i].fileSize;
      }
      assert assets[..|assets|] == assets;
      if sum != manifest.totalDownloadSize {
        state := Failed;
        return InvalidManifest;
      }
      manifestBytes := manifestBytes + 20;
      if manifestBytes > MAXIMUM_MANIFEST_BYTES {
        state := Failed;
        return InvalidManifest;
      }
      completed := Some(manifest);
      state := Complete;
      return Completed;
    }
  }

  // Whole conversations since a reset.

  function ReceiverAfter(ms: seq<Message>): Receiver {
    if ms == [] then INITIAL else HandleMessage(ReceiverAfter(ms[..|ms| - 1]), ms[|ms| - 1]).0
  }

  predicate IsManifestMessage(m: Message) {
    m.ManifestBegin? || m.ManifestAsset? || m.ManifestEnd?
  }

  function ManifestMessages(ms: seq<Message>): seq<Message> {
    if ms == [] then []
    else
      var last := ms[|ms| - 1];
      ManifestMessages(ms[..|ms| - 1]) + if IsManifestMessage(last) then [last] else []
  }

  /** The stream that publishes a manifest. */
  function AssetMessages(m: Manifest): (s: seq<Message>)
    requires |m.assets| <= MAXIMUM_ASSETS_PER_MANIFEST
    ensures |s| == |m.assets|
    ensures forall i | 0 <= i < |s| :: s[i] == ManifestAsset(m.revision, i, m.assets[i])
  {
    seq(|m.assets|, (i: int) requires 0 <= i < |m.assets| => ManifestAsset(m.revision, i, m.assets[i]))
  }

  function StreamOf(m: Manifest): seq<Message>
    requires |m.assets| <= MAXIMUM_ASSETS_PER_MANIFEST
  {
    [ManifestBegin(m.revision, |m.assets|, m.totalDownloadSize)] + AssetMessages(m)
      + [ManifestEnd(m.revision, |m.assets|, m.totalDownloadSize)]
  }

  function AssetsIn(s: seq<Message>): seq<AssetDescription> {
    if s == [] then []
    else
      var last := s[|s| - 1];
      AssetsIn(s[..|s| - 1]) + if last.ManifestAsset? then [last.asset] else []
  }

  function IdsOf(assets: seq<AssetDescription>): set<u32> {
    set asset | asset in assets :: asset.assetId
  }

  function NamesOf(assets: seq<AssetDescription>): set<seq<byte>> {
    set asset | asset in assets :: asset.logicalName
  }

  /** A begun stream: valid bounds, then assets in order, each valid and new, no more than announced. */
  predicate IsOpen(s: seq<Message>) {
    && s != []
    && s[0].ManifestBegin?
    && var last := s[|s| - 1];
    if |s| == 1 then IsManifestBoundaryValid(last.manifestRevision, last.assetCount, last.totalDownloadSize)
    else
      var earlier := s[..|s| - 1];
      && IsOpen(earlier)
      && last.ManifestAsset?
      && last.manifestRevision == s[0].manifestRevision
      && last.assetIndex == |s| - 2 < s[0].assetCount
      && IsDescriptionValid(last.asset)
      && last.asset.assetId !in IdsOf(AssetsIn(earlier))
      && last.asset.logicalName !in NamesOf(AssetsIn(earlier))
  }

  /** A finished stream. */
  predicate IsClosed(s: seq<Message>) {
    && |s| >= 2
    && var body, last := s[..|s| - 1], s[|s| - 1];
    && IsOpen(body)
    && last == ManifestEnd(s[0].manifestRevision, s[0].assetCount, s[0].totalDownloadSize)
    && |body| - 1 == s[0].assetCount
    && TotalSize(AssetsIn(body)) == s[0].totalDownloadSize
  }

  predicate IsAcceptable(s: seq<Message>) {
    s == [] || IsOpen(s) || IsClosed(s)
  }

  /** The manifest a begun stream has delivered so far. */
  function ManifestIn(s: seq<Message>): Manifest
    requires s != [] && s[0].ManifestBegin?
  {
    Manifest(s[0].manifestRevision, AssetsIn(s), s[0].totalDownloadSize)
  }

  lemma {:induction false} OpenShape(s: seq<Message>)
    requires IsOpen(s)
    ensures s[0].ManifestBegin?
    ensures IsManifestBoundaryValid(s[0].manifestRevision, s[0].assetCount, s[0].totalDownloadSize)
    ensures |AssetsIn(s)| == |s| - 1 <= s[0].assetCount
    ensures forall i | 1 <= i < |s| :: s[i] == ManifestAsset(s[0].manifestRevision, i - 1, AssetsIn(s)[i - 1])
  {
    hide IsDescriptionValid, IdsOf, NamesOf;
    if |s| > 1 {
      var earlier := s[..|s| - 1];
      OpenShape(earlier);
      assert forall i | 1 <= i < |earlier| :: earlier[i] == s[i];
    } else {
      assert AssetsIn(s[..0]) == [];
    }
  }

  lemma {:induction false} OpenAssets(s: seq<Message>)
    requires IsOpen(s)
    ensures forall asset | asset in AssetsIn(s) :: IsDescriptionValid(asset)
    ensures DistinctIds(AssetsIn(s)) && DistinctNames(AssetsIn(s))
  {
    hide IsDescriptionValid;
    if |s| > 1 {
      var earlier := s[..|s| - 1];
      OpenAssets(earlier);
      DistinctAppend(AssetsIn(earlier), s[|s| - 1].asset);
    } else {
      assert AssetsIn(s[..0]) == [];
    }
  }

  lemma DistinctAppend(assets: seq<AssetDescription>, asset: AssetDescription)
    ensures DistinctIds(assets + [asset]) <==> DistinctIds(assets) && asset.assetId !in IdsOf(assets)
    ensures DistinctNames(assets + [asset]) <==> DistinctNames(assets) && asset.logicalName !in NamesOf(assets)
  {
    var all := assets + [asset];
    assert forall i | 0 <= i < |assets| :: all[i] == assets[i] && assets[i] in assets;
    assert all[|assets|] == asset;
  }

  /** What the receiver's fields mean after the manifest messages `s`. */
  ghost predicate Describes(r: Receiver, s: seq<Message>) {
    match r.state
    case Idle => s == [] && r == INITIAL
    case Receiving =>
      && IsOpen(s)
      && r == Receiver(Receiving, ManifestIn(s), s[0].assetCount, 20 + TotalBytes(AssetsIn(s)),
                       IdsOf(AssetsIn(s)), NamesOf(AssetsIn(s)), None)
    case Complete =>
      && IsClosed(s)
      && r.manifest == ManifestIn(s)
      && r.completed == Some(r.manifest)
      && r.manifestBytes == 40 + TotalBytes(AssetsIn(s))
    case Failed => !IsAcceptable(s) && CompletedBy(r.completed, s)
  }

  /** A kept manifest is the one some earlier prefix had finished. */
  ghost predicate CompletedBy(completed: Option<Manifest>, s: seq<Message>) {
    match completed
    case None => forall k | 0 <= k <= |s| :: !IsClosed(s[..k])
    case Some(m) => exists k :: 0 <= k <= |s| && IsClosed(s[..k]) && m == ManifestIn(s[..k])
  }

  lemma AppendedStream(s: seq<Message>, m: Message)
    ensures (s + [m])[..|s|] == s && (s + [m])[|s|] == m
    ensures IsOpen(s + [m]) || IsClosed(s + [m]) ==> s == [] || IsOpen(s)
    ensures IsClosed(s) ==> !IsOpen(s)
  {}

  /** Budget arithmetic: an open stream can never be refused for its metadata size. */
  lemma OpenBudget(s: seq<Message>)
    requires IsOpen(s)
    ensures 20 + TotalBytes(AssetsIn(s)) <= 20 + 2206 * (|s| - 1) <= 564_756
  {
    OpenShape(s);
    OpenAssets(s);
    TotalBytesBounded(AssetsIn(s));
  }

  lemma BeginStep(r: Receiver, s: seq<Message>, m: Message)
    requires m.ManifestBegin? && Describes(r, s)
    ensures var (r', result) := HandleMessage(r, m);
            && (result == Accepted <==> IsOpen(s + [m]))
            && result != Completed && !IsClosed(s + [m])
            && (result == Accepted ==> Describes(r', s + [m]))
            && (result != Accepted ==> r' == r.(state := Failed))
  {
    AppendedStream(s, m);
    if s == [] {
      assert AssetsIn([m]) == [];
    }
  }

  lemma AppendedAssets(s: seq<Message>, m: Message)
    requires m.ManifestAsset?
    ensures var before, after := AssetsIn(s), AssetsIn(s + [m]);
            && after == before + [m.asset]
            && TotalBytes(after) == TotalBytes(before) + SerializedAssetBytes(m.asset)
            && IdsOf(after) == IdsOf(before) + {m.asset.assetId}
            && NamesOf(after) == NamesOf(before) + {m.asset.logicalName}
  {
    hide SerializedAssetBytes;
    assert (s + [m])[..|s|] == s;
    var before, after := AssetsIn(s), AssetsIn(s + [m]);
    assert after == before + [m.asset] && after[..|before|] == before;
  }

  lemma AssetStep(r: Receiver, s: seq<Message>, m: Message)
    requires m.ManifestAsset? && Describes(r, s)
    ensures var (r', result) := HandleMessage(r, m);
            && (result == Accepted <==> IsOpen(s + [m]))
            && result != Completed && !IsClosed(s + [m])
            && (result == Accepted ==> Describes(r', s + [m]))
            && (result != Accepted ==> r'.state == Failed && r'.completed == r.completed)
  {
    hide IsDescriptionValid, SerializedAssetBytes, AssetsIn, IdsOf, NamesOf, TotalBytes, IsManifestBoundaryValid;
    AppendedStream(s, m);
    if r.state == Receiving {
      OpenShape(s);
      OpenBudget(s);
      SerializedBound(m.asset);
      AppendedAssets(s, m);
    }
  }

  lemma SerializedBound(asset: AssetDescription)
    ensures IsDescriptionValid(asset) ==> SerializedAssetBytes(asset) <= 2206
  {}

  lemma EndStep(r: Receiver, s: seq<Message>, m: Message)
    requires m.ManifestEnd? && Describes(r, s)
    ensures var (r', result) := HandleMessage(r, m);
            && (result == Completed <==> IsClosed(s + [m]))
            && result != Accepted && !IsOpen(s + [m])
            && (result == Completed ==> Describes(r', s + [m]))
            && (result != Completed ==> r' == r.(state := Failed))
  {
    hide IdsOf, NamesOf, TotalSize, TotalBytes, IsDescriptionValid;
    AppendedStream(s, m);
    if r.state == Receiving {
      OpenShape(s);
      OpenBudget(s);
      assert AssetsIn(s + [m]) == AssetsIn(s) + [];
    }
  }

  /** Anything refused leaves the receiver failed, and the stream beyond repair. */
  lemma RefusedStep(r: Receiver, s: seq<Message>, m: Message)
    requires IsManifestMessage(m) && Describes(r, s)
    requires !IsAcceptable(s + [m])
    ensures var r' := HandleMessage(r, m).0; r'.state == Failed && r'.completed == r.completed
    ensures CompletedBy(r.completed, s + [m])
  {
    hide IsOpen, IsClosed, HandleBegin, HandleAsset, HandleEnd;
    if m.ManifestBegin? {
      BeginStep(r, s, m);
    } else if m.ManifestAsset? {
      AssetStep(r, s, m);
    } else {
      EndStep(r, s, m);
    }
    KeptManifest(r, s, m);
  }

  lemma KeptManifest(r: Receiver, s: seq<Message>, m: Message)
    requires Describes(r, s) && !IsClosed(s + [m])
    ensures CompletedBy(r.completed, s + [m])
  {
    hide IsClosed, IsOpen, ManifestIn;
    var s' := s + [m];
    assert forall k | 0 <= k <= |s| :: s'[..k] == s[..k];
    assert s'[..|s'|] == s' && s[..|s|] == s;
    if r.state == Idle || r.state == Receiving {
      NothingClosed(s);
    }
  }

  /** No proper prefix of a begun stream is a finished one. */
  lemma {:induction false} NothingClosed(s: seq<Message>)
    requires s == [] || IsOpen(s)
    ensures forall k | 0 <= k <= |s| :: !IsClosed(s[..k])
  {
    assert s[..|s|] == s;
    if s != [] {
      var earlier := s[..|s| - 1];
      NothingClosed(earlier);
      assert forall k | 0 <= k <= |earlier| :: s[..k] == earlier[..k];
    }
  }

  /** One message, any state: the fields keep their meaning and the answer is decided by the stream alone. */
  lemma StepDescribed(r: Receiver, s: seq<Message>, m: Message)
    requires Describes(r, s)
    ensures var (r', result) := HandleMessage(r, m);
            && Describes(r', if IsManifestMessage(m) then s + [m] else s)
            && (result == Ignored <==> !IsManifestMessage(m))
            && (result == Accepted <==> IsManifestMessage(m) && IsOpen(s + [m]))
            && (result == Completed <==> IsManifestMessage(m) && IsClosed(s + [m]))
  {
    hide IsOpen, IsClosed, HandleBegin, HandleAsset, HandleEnd;
    if IsManifestMessage(m) {
      if m.ManifestBegin? {
        BeginStep(r, s, m);
      } else if m.ManifestAsset? {
        AssetStep(r, s, m);
      } else {
        EndStep(r, s, m);
      }
      AnsweredKind(r, m);
      if !IsAcceptable(s + [m]) {
        RefusedStep(r, s, m);
      }
    }
  }

  lemma AnsweredKind(r: Receiver, m: Message)
    ensures HandleMessage(r, m).1 == Ignored <==> !IsManifestMessage(m)
  {}

  lemma {:induction false} RunDescribed(ms: seq<Message>)
    ensures Describes(ReceiverAfter(ms), ManifestMessages(ms))
  {
    hide HandleMessage;
    if ms == [] {
      assert ReceiverAfter(ms) == INITIAL && ManifestMessages(ms) == [];
    } else {
      RunDescribed(ms[..|ms| - 1]);
      var s := ManifestMessages(ms[..|ms| - 1]);
      StepDescribed(ReceiverAfter(ms[..|ms| - 1]), s, ms[|ms| - 1]);
      assert s + [] == s;
    }
  }

  /** The message has its place in the stream: first comes a beginning; then, under the revision announced there, as many
      assets as announced, numbered from 0; then the end, which repeats the announcement. */
  predicate IsNextInStream(s: seq<Message>, m: Message) {
    match m
    case ManifestBegin(_, _, _) => s == []
    case ManifestAsset(revision, index, _) =>
      IsOpen(s) && revision == s[0].manifestRevision && index == |s| - 1 < s[0].assetCount
    case ManifestEnd(revision, count, total) =>
      IsOpen(s) && revision == s[0].manifestRevision && count == s[0].assetCount == |s| - 1 && total == s[0].totalDownloadSize
    case _ => false
  }

  lemma OrderStep(r: Receiver, s: seq<Message>, m: Message)
    requires Describes(r, s) && IsManifestMessage(m)
    ensures HandleMessage(r, m).1 == InvalidOrder <==> !IsNextInStream(s, m)
  {
    hide IsOpen, IsClosed, IsDescriptionValid, AssetsIn, IdsOf, NamesOf, TotalBytes, TotalSize, SerializedAssetBytes;
    NoStream();
    AppendedStream(s, m);
    if r.state == Receiving {
      OpenShape(s);
    }
  }

  lemma NoStream()
    ensures !IsOpen([]) && !IsClosed([])
  {}

  /** Why a message is refused, after any messages: for its order exactly if it has no place in the stream of manifest
      messages so far, for its content exactly if it has its place there but the stream is past repair with it. */
  lemma RefusedFor(ms: seq<Message>, m: Message)
    ensures var (s, result) := (ManifestMessages(ms), HandleMessage(ReceiverAfter(ms), m).1);
            && (result == InvalidOrder <==> IsManifestMessage(m) && !IsNextInStream(s, m))
            && (result == InvalidManifest <==> IsManifestMessage(m) && IsNextInStream(s, m) && !IsAcceptable(s + [m]))
  {
    hide HandleMessage, IsNextInStream, IsOpen, IsClosed, Describes;
    var (s, r) := (ManifestMessages(ms), ReceiverAfter(ms));
    RunDescribed(ms);
    StepDescribed(r, s, m);
    if IsManifestMessage(m) {
      OrderStep(r, s, m);
      if IsAcceptable(s + [m]) {
        AcceptedInOrder(s, m);
      }
    }
  }

  lemma AcceptedInOrder(s: seq<Message>, m: Message)
    requires IsAcceptable(s + [m]) && IsManifestMessage(m)
    ensures IsNextInStream(s, m)
  {
    hide IsDescriptionValid, TotalSize, IdsOf, NamesOf, AssetsIn;
    var s' := s + [m];
    assert s'[..|s|] == s && s'[|s|] == m;
    if IsClosed(s') {
      OpenShape(s);
    }
  }

  // The accepted language, stated on manifests.

  lemma {:induction false} AssetsOfMessages(m: Manifest, n: nat)
    requires n <= |m.assets| && IsManifest(m)
    ensures var s := StreamOf(m)[..n + 1]; IsOpen(s) && AssetsIn(s) == m.assets[..n]
  {
    hide IsDescriptionValid, IdsOf, NamesOf, TotalSize, AssetsIn, IsOpen;
    if n == 0 {
      OpenBegin(m);
    } else {
      AssetsOfMessages(m, n - 1);
      var earlier := StreamOf(m)[..n];
      var asset := m.assets[n - 1];
      var known := m.assets[..n - 1];
      assert m.assets[..n] == known + [asset];
      assert DistinctIds(known + [asset]) && DistinctNames(known + [asset]);
      DistinctAppend(known, asset);
      assert asset in m.assets;
      OpenAppend(earlier, ManifestAsset(m.revision, n - 1, asset));
      assert StreamOf(m)[..n + 1] == earlier + [ManifestAsset(m.revision, n - 1, asset)];
    }
  }

  lemma OpenBegin(m: Manifest)
    requires IsManifest(m)
    ensures IsOpen(StreamOf(m)[..1]) && AssetsIn(StreamOf(m)[..1]) == []
  {
    hide IsDescriptionValid, DistinctIds, DistinctNames;
    var s := StreamOf(m)[..1];
    assert s == [ManifestBegin(m.revision, |m.assets|, m.totalDownloadSize)];
    assert AssetsIn(s[..0]) == [];
  }

  lemma OpenAppend(s: seq<Message>, m: Message)
    requires IsOpen(s) && m.ManifestAsset?
    requires m.manifestRevision == s[0].manifestRevision && m.assetIndex == |s| - 1 < s[0].assetCount
    requires IsDescriptionValid(m.asset)
    requires m.asset.assetId !in IdsOf(AssetsIn(s)) && m.asset.logicalName !in NamesOf(AssetsIn(s))
    ensures IsOpen(s + [m]) && AssetsIn(s + [m]) == AssetsIn(s) + [m.asset]
  {
    hide IsDescriptionValid;
    assert (s + [m])[..|s|] == s;
  }

  lemma ClosedManifest(s: seq<Message>)
    requires IsClosed(s)
    ensures ManifestIn(s) == ManifestIn(s[..|s| - 1])
    ensures IsManifest(ManifestIn(s)) && s == StreamOf(ManifestIn(s))
  {
    hide IsDescriptionValid, IsOpen, TotalSize, DistinctIds, DistinctNames;
    var body := s[..|s| - 1];
    OpenShape(body);
    OpenAssets(body);
    assert AssetsIn(s) == AssetsIn(body) + [];
    hide AssetsIn;
    ShapedStream(s, ManifestIn(s));
  }

  lemma ShapedStream(s: seq<Message>, m: Manifest)
    requires |s| == |m.assets| + 2 && |m.assets| <= MAXIMUM_ASSETS_PER_MANIFEST
    requires s[0] == ManifestBegin(m.revision, |m.assets|, m.totalDownloadSize)
    requires forall i | 1 <= i < |s| - 1 :: s[i] == ManifestAsset(m.revision, i - 1, m.assets[i - 1])
    requires s[|s| - 1] == ManifestEnd(m.revision, |m.assets|, m.totalDownloadSize)
    ensures s == StreamOf(m)
  {
    assert s[1..|s| - 1] == AssetMessages(m);
    assert s == [s[0]] + s[1..|s| - 1] + [s[|s| - 1]];
  }

  lemma StreamCloses(m: Manifest)
    requires IsManifest(m)
    ensures IsClosed(StreamOf(m)) && ManifestIn(StreamOf(m)) == m
  {
    hide IsDescriptionValid, IsOpen, TotalSize, DistinctIds, DistinctNames;
    var s := StreamOf(m);
    AssetsOfMessages(m, |m.assets|);
    assert m.assets[..|m.assets|] == m.assets;
    assert s[..|s| - 1] == s[..|m.assets| + 1];
    assert AssetsIn(s) == AssetsIn(s[..|s| - 1]) + [];
  }

  /** The receiver completes on a message exactly when the manifest messages since the reset, this one
      last, are the stream of some well-formed manifest; and then it keeps precisely that manifest. */
  lemma CompletesExactlyOnStreams(ms: seq<Message>, m: Message)
    ensures HandleMessage(ReceiverAfter(ms), m).1 == Completed <==>
            IsManifestMessage(m) && exists manifest :: IsManifest(manifest) && ManifestMessages(ms) + [m] == StreamOf(manifest)
    ensures forall manifest | IsManifest(manifest) && IsManifestMessage(m) && ManifestMessages(ms) + [m] == StreamOf(manifest) ::
              HandleMessage(ReceiverAfter(ms), m).0.completed == Some(manifest)
  {
    hide HandleMessage, ReceiverAfter, IsDescriptionValid, IsClosed, IsOpen, ManifestMessages, TotalSize, DistinctIds, DistinctNames;
    var s := ManifestMessages(ms);
    RunDescribed(ms);
    StepDescribed(ReceiverAfter(ms), s, m);
    if IsClosed(s + [m]) {
      ClosedManifest(s + [m]);
      assert IsManifest(ManifestIn(s + [m]));
    }
    forall manifest | IsManifest(manifest) && IsManifestMessage(m) && s + [m] == StreamOf(manifest)
      ensures IsClosed(s + [m])
      ensures HandleMessage(ReceiverAfter(ms), m).0.completed == Some(manifest)
    {
      StreamCloses(manifest);
      ClosedNotOpen(s + [m]);
    }
  }

  lemma ClosedNotOpen(s: seq<Message>)
    requires IsClosed(s)
    ensures IsAcceptable(s) && s != [] && !IsOpen(s)
  {}

  /** A refused stream stays refused: the receiver is failed exactly when no continuation could be accepted. */
  lemma FailedExactlyOffStream(ms: seq<Message>)
    ensures ReceiverAfter(ms).state == Failed <==> !IsAcceptable(ManifestMessages(ms))
  {
    RunDescribed(ms);
    var s := ManifestMessages(ms);
    if s != [] {
      AppendedStream(s[..|s| - 1], s[|s| - 1]);
    }
  }

  /** Until a reset, a failed receiver stays failed, and a finished manifest is never changed or finished again. */
  lemma LatchedUntilReset(ms: seq<Message>, m: Message)
    ensures var (r, r') := (ReceiverAfter(ms), HandleMessage(ReceiverAfter(ms), m).0);
            && (r.state == Failed ==> r'.state == Failed)
            && (r.completed.Some? ==> r'.completed == r.completed && HandleMessage(r, m).1 != Completed)
  {
    RunDescribed(ms);
  }

  /** A finished manifest appears with the completing message and with no other. */
  lemma CompletedOnce(ms: seq<Message>, m: Message)
    ensures var (r, (r', result)) := (ReceiverAfter(ms), HandleMessage(ReceiverAfter(ms), m));
            && (result == Completed ==> r.completed == None && r'.completed.Some?)
            && (result != Completed ==> r'.completed == r.completed)
  {
    hide IsOpen, IsClosed, IsDescriptionValid, TotalSize, SerializedAssetBytes, AssetsIn, ReceiverAfter;
    RunDescribed(ms);
  }

  /** A manifest is kept exactly in the complete state, as long as no manifest message has followed a finished stream;
      and no longer. */
  lemma KeptExactlyWhenComplete(ms: seq<Message>)
    ensures var (r, s) := (ReceiverAfter(ms), ManifestMessages(ms));
            (r.completed.Some? <==> r.state == Complete) <==> !(exists k :: 0 <= k < |s| && IsClosed(s[..k]))
  {
    hide IsClosed, IsOpen, HandleMessage;
    RunDescribed(ms);
    var (r, s) := (ReceiverAfter(ms), ManifestMessages(ms));
    assert s[..|s|] == s;
    match r.state {
      case Idle =>
      case Receiving => NothingClosed(s);
      case Complete =>
        ClosedBody(s);
        NothingClosed(s[..|s| - 1]);
        assert forall k | 0 <= k < |s| :: s[..k] == s[..|s| - 1][..k];
      case Failed => NotItself(s);
    }
  }

  lemma ClosedBody(s: seq<Message>)
    requires IsClosed(s)
    ensures |s| >= 2 && IsOpen(s[..|s| - 1])
  {}

  lemma NotItself(s: seq<Message>)
    requires !IsAcceptable(s)
    ensures !IsClosed(s)
  {}

  /** The guard a caller can check: while a manifest is kept exactly in the complete state, the one message that ends
      this is a manifest message met in that state. */
  lemma KeptUntilStray(ms: seq<Message>, m: Message)
    requires var r := ReceiverAfter(ms); r.completed.Some? <==> r.state == Complete
    ensures var (r, r') := (ReceiverAfter(ms), HandleMessage(ReceiverAfter(ms), m).0);
            (r'.completed.Some? <==> r'.state == Complete) <==> !(r.state == Complete && IsManifestMessage(m))
  {
    hide IsOpen, IsClosed, IsDescriptionValid;
    RunDescribed(ms);
    CompletedOnce(ms, m);
    LatchedUntilReset(ms, m);
  }

  /** Any published stream and any manifest message after it: the receiver has failed and keeps the manifest. */
  lemma StrayAfterStream(m: Manifest, stray: Message)
    requires IsManifest(m) && IsManifestMessage(stray)
    ensures |m.assets| <= MAXIMUM_ASSETS_PER_MANIFEST
    ensures var r := ReceiverAfter(StreamOf(m) + [stray]); r.state == Failed && r.completed == Some(m)
  {
    hide IsManifest, IsClosed, IsOpen;
    assert |m.assets| <= MAXIMUM_ASSETS_PER_MANIFEST by {
      ManifestSize(m);
    }
    var (s, last) := (StreamOf(m), |StreamOf(m)| - 1);
    assert s[..last] + [s[last]] == s && (s + [stray])[..|s|] == s;
    OnlyManifestMessages(s);
    OnlyManifestMessages(s[..last]);
    RunDescribed(s);
    StreamCloses(m);
    ClosedNotOpen(s);
    FailedExactlyOffStream(s);
    CompletesExactlyOnStreams(s[..last], s[last]);
    assert ReceiverAfter(s).completed == Some(m);
    assert ReceiverAfter(s).state != Receiving && ReceiverAfter(s).state != Idle;
    HandledInComplete(ReceiverAfter(s), stray);
  }

  lemma ManifestSize(m: Manifest)
    requires IsManifest(m)
    ensures |m.assets| <= MAXIMUM_ASSETS_PER_MANIFEST
  {}

  lemma HandledInComplete(r: Receiver, m: Message)
    requires r.state == Complete && IsManifestMessage(m)
    ensures HandleMessage(r, m).0 == r.(state := Failed)
  {}

  lemma {:induction false} OnlyManifestMessages(s: seq<Message>)
    requires forall x | x in s :: IsManifestMessage(x)
    ensures ManifestMessages(s) == s
  {
    if s != [] {
      OnlyManifestMessages(s[..|s| - 1]);
      assert s == s[..|s| - 1] + [s[|s| - 1]];
    }
  }

  /** Whatever the receiver keeps as finished is a well-formed manifest. */
  lemma CompletedIsManifest(ms: seq<Message>)
    ensures var r := ReceiverAfter(ms); r.completed.Some? ==> IsManifest(r.completed.value)
  {
    hide IsManifest;
    RunDescribed(ms);
    var (r, s) := (ReceiverAfter(ms), ManifestMessages(ms));
    if r.completed.Some? {
      if r.state == Complete {
        ClosedManifest(s);
      } else {
        assert r.state == Failed;
        var k :| 0 <= k <= |s| && IsClosed(s[..k]) && r.completed.value == ManifestIn(s[..k]);
        ClosedManifest(s[..k]);
      }
    }
  }

  /** Byte accounting: while a stream is accepted the receiver has charged exactly the encoded payloads,
      and never comes near its budget. */
  lemma ChargedBytes(ms: seq<Message>)
    ensures var (r, s) := (ReceiverAfter(ms), ManifestMessages(ms));
            r.state == Receiving || r.state == Complete ==> r.manifestBytes == PayloadTotal(s) <= 564_776
  {
    hide PayloadOf, IsOpen, IsClosed;
    RunDescribed(ms);
    var (r, s) := (ReceiverAfter(ms), ManifestMessages(ms));
    if r.state == Receiving {
      OpenBudget(s);
      OpenCharge(s);
    } else if r.state == Complete {
      ClosedCharge(s);
    }
  }

  function PayloadTotal(s: seq<Message>): nat {
    if s == [] then 0 else PayloadTotal(s[..|s| - 1]) + |PayloadOf(s[|s| - 1])|
  }

  lemma {:induction false} OpenCharge(s: seq<Message>)
    requires IsOpen(s)
    ensures PayloadTotal(s) == 20 + TotalBytes(AssetsIn(s))
  {
    hide PayloadOf, IsDescriptionValid, SerializedAssetBytes, IsManifestBoundaryValid;
    var last := s[|s| - 1];
    WithPayloadLength(last, []);
    PayloadIs(last);
    if |s| > 1 {
      OpenCharge(s[..|s| - 1]);
      AppendedAssets(s[..|s| - 1], last);
      assert s[..|s| - 1] + [last] == s;
    } else {
      assert s[..0] == [] && AssetsIn(s[..0]) == [];
    }
  }

  lemma PayloadIs(m: Message)
    ensures PayloadOf(m) == WithPayload(m, [])
  {}

  lemma ClosedCharge(s: seq<Message>)
    requires IsClosed(s)
    ensures PayloadTotal(s) == 40 + TotalBytes(AssetsIn(s)) <= 564_776
  {
    hide PayloadOf, IsOpen, TotalBytes;
    var (body, last) := (s[..|s| - 1], s[|s| - 1]);
    OpenCharge(body);
    OpenBudget(body);
    WithPayloadLength(last, []);
    PayloadIs(last);
    assert AssetsIn(s) == AssetsIn(body) + [] == AssetsIn(body);
  }
}
