/** The server's asset registry: two indexes, a running total and a revision. */
module AssetRegistry {
  import opened Bytes
  import opened Assets

  datatype RegistryResult =
    | Added | Removed | Cleared | NotFound | InvalidAsset | DuplicateAssetId | DuplicateLogicalName
    | AssetLimitReached | TotalSizeExceeded

  datatype Registry = Registry(
    revision: u64,
    totalSize: u64,
    assets: map<u32, AssetDescription>,
    logicalNames: map<seq<byte>, u32>)

  const EMPTY := Registry(1, 0, map[], map[])

  function AdvanceRevision(revision: u64): u64 {
    if revision != MAX_U64 then revision + 1 else revision
  }

  // The operations. A registry's total never exceeds the maximum, so the room left is a natural.

  function Register(r: Registry, asset: AssetDescription): (Registry, RegistryResult) {
    if !IsDescriptionValid(asset) then (r, InvalidAsset)
    else if asset.assetId in r.assets then (r, DuplicateAssetId)
    else if asset.logicalName in r.logicalNames then (r, DuplicateLogicalName)
    else if |r.assets| >= MAXIMUM_ASSETS_PER_MANIFEST then (r, AssetLimitReached)
    else if asset.fileSize > MAXIMUM_TOTAL_DOWNLOAD_SIZE - r.totalSize then (r, TotalSizeExceeded)
    else (Registry(AdvanceRevision(r.revision), r.totalSize + asset.fileSize,
                   r.assets[asset.assetId := asset], r.logicalNames[asset.logicalName := asset.assetId]), Added)
  }

  function Remove(r: Registry, assetId: u32): (Registry, RegistryResult)
    requires assetId in r.assets ==> r.assets[assetId].fileSize <= r.totalSize
  {
    if assetId !in r.assets then (r, NotFound)
    else (Registry(AdvanceRevision(r.revision), r.totalSize - r.assets[assetId].fileSize,
                   r.assets - {assetId}, r.logicalNames - {r.assets[assetId].logicalName}), Removed)
  }

  function Clear(r: Registry): (Registry, RegistryResult) {
    if r.assets == map[] then (r, Cleared)
    else (Registry(AdvanceRevision(r.revision), 0, map[], map[]), Cleared)
  }

  // The manifest order: strictly by id, whatever order the hash table yields.

  predicate SortedById(s: seq<AssetDescription>) {
    forall i, j | 0 <= i < j < |s| :: s[i].assetId < s[j].assetId
  }

  function InsertSorted(s: seq<AssetDescription>, asset: AssetDescription): (r: seq<AssetDescription>)
    ensures |r| == |s| + 1
  {
    if s == [] || s[|s| - 1].assetId < asset.assetId then s + [asset]
    else InsertSorted(s[..|s| - 1], asset) + [s[|s| - 1]]
  }

  predicate IsGreatest(s: set<u32>, k: u32) {
    k in s && forall j | j in s :: j <= k
  }

  lemma {:induction false} GreatestExists(s: set<u32>) returns (k: u32)
    requires s != {}
    ensures IsGreatest(s, k)
  {
    k :| k in s;
    if s != {k} {
      var rest := s - {k};
      var m := GreatestExists(rest);
      assert forall j | j in s :: j == k || j in rest;
      k := if k < m then m else k;
    }
  }

  ghost function Greatest(s: set<u32>): (k: u32)
    requires s != {}
    ensures k in s && forall j | j in s :: j <= k
  {
    assert exists k :: IsGreatest(s, k) by {
      var k := GreatestExists(s);
    }
    var k: u32 :| IsGreatest(s, k);
    k
  }

  ghost predicate Keyed(m: map<u32, AssetDescription>) {
    forall id | id in m :: m[id].assetId == id
  }

  /** The entries of an index in manifest order. */
  ghost function Sorted(m: map<u32, AssetDescription>): seq<AssetDescription>
    decreases m.Keys
  {
    if m == map[] then []
    else
      var k := Greatest(m.Keys);
      Sorted(m - {k}) + [m[k]]
  }

  lemma {:induction false} SortedContents(m: map<u32, AssetDescription>)
    ensures |Sorted(m)| == |m|
    ensures forall a :: a in Sorted(m) <==> a in m.Values
    decreases m.Keys
  {
    if m != map[] {
      var k := Greatest(m.Keys);
      var rest := m - {k};
      SortedContents(rest);
      assert m.Keys == rest.Keys + {k} && |m| == |m.Keys| && |rest| == |rest.Keys|;
      forall a
        ensures a in Sorted(m) <==> a in m.Values
      {
        if a in m.Values && a != m[k] {
          var id :| id in m && m[id] == a;
          assert id in rest && rest[id] == a;
        }
        if a in rest.Values {
          var id :| id in rest && rest[id] == a;
          assert m[id] == a;
        }
      }
    }
  }

  lemma {:induction false} SortedOrder(m: map<u32, AssetDescription>)
    requires Keyed(m)
    ensures SortedById(Sorted(m))
    decreases m.Keys
  {
    if m != map[] {
      var k := Greatest(m.Keys);
      var rest := m - {k};
      SortedOrder(rest);
      SortedContents(rest);
      var s := Sorted(rest);
      forall i | 0 <= i < |s|
        ensures s[i].assetId < m[k].assetId
      {
        assert s[i] in rest.Values;
        var id :| id in rest && rest[id] == s[i];
        assert id in m && id != k;
      }
    }
  }

  lemma GreatestIs(s: set<u32>, k: u32)
    requires k in s && forall j | j in s :: j <= k
    ensures Greatest(s) == k
  {}

  lemma {:induction false} SortedInsert(m: map<u32, AssetDescription>, asset: AssetDescription)
    requires Keyed(m) && asset.assetId !in m
    ensures Sorted(m[asset.assetId := asset]) == InsertSorted(Sorted(m), asset)
    decreases m.Keys
  {
    var m' := m[asset.assetId := asset];
    var k := Greatest(m'.Keys);
    assert k in m'.Keys;
    if k == asset.assetId {
      assert m' - {k} == m;
      LastBelow(m, k);
    } else {
      assert forall j | j in m.Keys :: j in m'.Keys;
      GreatestIs(m.Keys, k);
      var rest := m - {k};
      assert m' - {k} == rest[asset.assetId := asset];
      SortedInsert(rest, asset);
      var s := Sorted(m);
      assert s[..|s| - 1] == Sorted(rest) && s[|s| - 1] == m[k];
      assert asset.assetId in m'.Keys;
    }
  }

  lemma LastBelow(m: map<u32, AssetDescription>, bound: u32)
    requires Keyed(m) && forall id | id in m :: id < bound
    ensures var s := Sorted(m); s == [] || s[|s| - 1].assetId < bound
  {
    if m != map[] {
      assert Greatest(m.Keys) in m;
    }
  }

  lemma {:induction false} TotalOfInsert(s: seq<AssetDescription>, asset: AssetDescription)
    ensures TotalSize(InsertSorted(s, asset)) == TotalSize(s) + asset.fileSize
  {
    if s == [] || s[|s| - 1].assetId < asset.assetId {
      assert (s + [asset])[..|s|] == s;
    } else {
      var init := s[..|s| - 1];
      TotalOfInsert(init, asset);
      assert (InsertSorted(init, asset) + [s[|s| - 1]])[..|s|] == InsertSorted(init, asset);
    }
  }

  ghost function BuildManifest(r: Registry): Manifest {
    Manifest(r.revision, Sorted(r.assets), r.totalSize)
  }

  /** What holds of a registry between operations. */
  ghost predicate Inv(r: Registry) {
    && r.revision != 0
    && |r.assets| <= MAXIMUM_ASSETS_PER_MANIFEST
    && Keyed(r.assets)
    && AllValid(r.assets)
    && r.totalSize == TotalSize(Sorted(r.assets)) <= MAXIMUM_TOTAL_DOWNLOAD_SIZE
    && IsInverse(r.logicalNames, r.assets)
  }

  ghost predicate AllValid(assets: map<u32, AssetDescription>) {
    forall id | id in assets :: IsDescriptionValid(assets[id])
  }

  /** The name index is exactly the inverse of the id index. */
  ghost predicate IsInverse(names: map<seq<byte>, u32>, assets: map<u32, AssetDescription>) {
    && (forall name | name in names :: names[name] in assets && assets[names[name]].logicalName == name)
    && (forall id | id in assets :: assets[id].logicalName in names && names[assets[id].logicalName] == id)
  }

  lemma InverseAfterInsert(names: map<seq<byte>, u32>, assets: map<u32, AssetDescription>, asset: AssetDescription)
    requires IsInverse(names, assets) && asset.assetId !in assets && asset.logicalName !in names
    ensures IsInverse(names[asset.logicalName := asset.assetId], assets[asset.assetId := asset])
  {}

  lemma InverseAfterRemove(names: map<seq<byte>, u32>, assets: map<u32, AssetDescription>, id: u32)
    requires IsInverse(names, assets) && id in assets
    ensures IsInverse(names - {assets[id].logicalName}, assets - {id})
  {}

  lemma InsertedValid(assets: map<u32, AssetDescription>, asset: AssetDescription)
    requires AllValid(assets) && Keyed(assets) && IsDescriptionValid(asset)
    ensures AllValid(assets[asset.assetId := asset]) && Keyed(assets[asset.assetId := asset])
  {
    hide IsDescriptionValid;
  }

  lemma RegisterKeeps(r: Registry, asset: AssetDescription)
    requires Inv(r)
    ensures var (r', result) := Register(r, asset);
            && Inv(r')
            && (result == Added <==> r' != r)
            && (result == Added ==> BuildManifest(r').assets == InsertSorted(BuildManifest(r).assets, asset))
  {
    hide IsDescriptionValid, AllValid, IsInverse, Keyed, Sorted, TotalSize, InsertSorted;
    var (r', result) := Register(r, asset);
    if result == Added {
      SortedInsert(r.assets, asset);
      TotalOfInsert(Sorted(r.assets), asset);
      InsertedValid(r.assets, asset);
      InverseAfterInsert(r.logicalNames, r.assets, asset);
      assert r'.assets.Keys == r.assets.Keys + {asset.assetId};
      assert |r'.assets| == |r'.assets.Keys| && |r.assets| == |r.assets.Keys|;
    }
  }

  /** Taking an entry out and putting it back is the identity on the id index. */
  lemma RemovedTotal(m: map<u32, AssetDescription>, id: u32)
    requires Keyed(m) && id in m
    ensures Sorted(m) == InsertSorted(Sorted(m - {id}), m[id])
    ensures TotalSize(Sorted(m)) == TotalSize(Sorted(m - {id})) + m[id].fileSize
  {
    hide Sorted, InsertSorted, TotalSize;
    assert (m - {id})[id := m[id]] == m;
    SortedInsert(m - {id}, m[id]);
    TotalOfInsert(Sorted(m - {id}), m[id]);
  }

  lemma RemovedValid(assets: map<u32, AssetDescription>, id: u32)
    requires AllValid(assets) && Keyed(assets) && id in assets
    ensures AllValid(assets - {id}) && Keyed(assets - {id}) && |assets - {id}| == |assets| - 1
  {
    hide IsDescriptionValid;
    assert (assets - {id}).Keys == assets.Keys - {id};
    assert |assets| == |assets.Keys| && |assets - {id}| == |(assets - {id}).Keys|;
  }

  lemma RemoveKeeps(r: Registry, id: u32)
    requires Inv(r)
    ensures id in r.assets ==> r.assets[id].fileSize <= r.totalSize
    ensures var (r', result) := Remove(r, id);
            && Inv(r')
            && (result == Removed <==> exists a | a in BuildManifest(r).assets :: a.assetId == id)
            && (result == Removed ==>
                && id in r.assets
                && InsertSorted(BuildManifest(r').assets, r.assets[id]) == BuildManifest(r).assets)
            && (result != Removed ==> result == NotFound && r' == r)
  {
    hide IsDescriptionValid, AllValid, IsInverse, Sorted, TotalSize, InsertSorted;
    SortedContents(r.assets);
    if id in r.assets {
      assert r.assets[id] in r.assets.Values;
      RemovedTotal(r.assets, id);
      RemovedValid(r.assets, id);
      InverseAfterRemove(r.logicalNames, r.assets, id);
    }
  }

  lemma EmptyTables()
    ensures Sorted(map[]) == [] && AllValid(map[]) && Keyed(map[]) && IsInverse(map[], map[])
  {}

  lemma ClearKeeps(r: Registry)
    requires Inv(r)
    ensures Inv(Clear(r).0) && BuildManifest(Clear(r).0).assets == [] && Clear(r).1 == Cleared
  {
    hide AllValid, IsInverse, Keyed, Sorted;
    EmptyTables();
  }

  // Any run of operations.

  datatype Operation = RegisterOp(asset: AssetDescription) | RemoveOp(assetId: u32) | ClearOp

  ghost function Apply(r: Registry, op: Operation): (Registry, RegistryResult)
    requires Inv(r)
  {
    match op
    case RegisterOp(asset) => Register(r, asset)
    case RemoveOp(id) => RemoveKeeps(r, id); Remove(r, id)
    case ClearOp => Clear(r)
  }

  lemma ApplyKeeps(r: Registry, op: Operation)
    requires Inv(r)
    ensures var r' := Apply(r, op).0;
            && Inv(r')
            && (r'.assets == r.assets ==> r' == r)
            && (r'.assets != r.assets ==> r'.revision == (if r.revision < MAX_U64 then r.revision + 1 else MAX_U64))
  {
    hide Inv, IsDescriptionValid, Sorted;
    match op {
      case RegisterOp(asset) =>
        RegisterKeeps(r, asset);
        assert asset.assetId !in r.assets ==> r.assets[asset.assetId := asset] != r.assets;
      case RemoveOp(id) =>
        RemoveKeeps(r, id);
        assert id in r.assets ==> id !in r.assets - {id};
      case ClearOp => ClearKeeps(r);
    }
  }

  lemma FreshRegistry()
    ensures Inv(EMPTY)
  {
    hide AllValid, IsInverse, Keyed, Sorted;
    EmptyTables();
  }

  /** The registry a sequence of operations builds from a fresh one. */
  ghost function RunOps(ops: seq<Operation>): (r: Registry)
    ensures Inv(r)
  {
    if ops == [] then FreshRegistry(); EMPTY
    else
      var before := RunOps(ops[..|ops| - 1]);
      ApplyKeeps(before, ops[|ops| - 1]);
      Apply(before, ops[|ops| - 1]).0
  }

  lemma RunOpsAppend(ops: seq<Operation>, op: Operation)
    ensures RunOps(ops + [op]) == Apply(RunOps(ops), op).0
  {
    hide Inv, Apply;
    assert (ops + [op])[..|ops|] == ops;
  }

  /** Every registry any sequence of operations can produce publishes a well-formed manifest: the strictly
      id-sorted list of exactly the registered assets, with their total. */
  lemma ReachableManifest(ops: seq<Operation>)
    ensures var (r, m) := (RunOps(ops), BuildManifest(RunOps(ops)));
            && IsManifest(m)
            && SortedById(m.assets)
            && |m.assets| == |r.assets|
            && (forall id | id in r.assets :: r.assets[id] in m.assets)
            && (forall a | a in m.assets :: a.assetId in r.assets && r.assets[a.assetId] == a)
  {
    hide RunOps, IsManifest, Inv, BuildManifest;
    ManifestOfRegistry(RunOps(ops));
  }

  /** The revision grows by one with every change of content, until it saturates, and with nothing else. */
  lemma RevisionGrows(ops: seq<Operation>, op: Operation)
    ensures var (r, r') := (RunOps(ops), RunOps(ops + [op]));
            && r'.revision == (if r'.assets == r.assets || r.revision == MAX_U64 then r.revision else r.revision + 1)
            && r.revision >= 1
  {
    hide Inv, Apply;
    RunOpsAppend(ops, op);
    ApplyKeeps(RunOps(ops), op);
    assert RunOps(ops).revision != 0 by {
      NonzeroRevision(RunOps(ops));
    }
  }

  lemma NonzeroRevision(r: Registry)
    requires Inv(r)
    ensures r.revision != 0
  {}

  lemma ManifestOfRegistry(r: Registry)
    requires Inv(r)
    ensures var m := BuildManifest(r);
            && IsManifest(m)
            && SortedById(m.assets)
            && |m.assets| == |r.assets|
            && (forall id | id in r.assets :: r.assets[id] in m.assets)
            && (forall a | a in m.assets :: a.assetId in r.assets && r.assets[a.assetId] == a)
  {
    hide IsDescriptionValid, TotalSize, Sorted;
    SortedContents(r.assets);
    SortedOrder(r.assets);
    var s := Sorted(r.assets);
    assert forall a | a in s :: a.assetId in r.assets && r.assets[a.assetId] == a;
    NamesApart(r, s);
  }

  /** The list with `asset` put in at `p`. */
  function PutIn(s: seq<AssetDescription>, asset: AssetDescription, p: nat): seq<AssetDescription>
    requires p <= |s|
  {
    s[..p] + [asset] + s[p..]
  }

  lemma {:induction false} InsertedAt(s: seq<AssetDescription>, asset: AssetDescription) returns (p: nat)
    ensures p <= |s| && InsertSorted(s, asset) == PutIn(s, asset, p)
  {
    p := |s|;
    if s == [] || s[|s| - 1].assetId < asset.assetId {
      assert s + [asset] == s[..p] + [asset] + s[p..];
    } else {
      var (init, last) := (s[..|s| - 1], s[|s| - 1]);
      p := InsertedAt(init, asset);
      assert InsertSorted(s, asset) == InsertSorted(init, asset) + [last];
      assert init[..p] + [asset] + init[p..] + [last] == s[..p] + [asset] + s[p..];
    }
  }

  lemma ShiftedAt(s: seq<AssetDescription>, asset: AssetDescription, p: nat, i: nat)
    requires p <= |s| && i < |s|
    ensures var k := if i < p then i else i + 1; k != p && k < |PutIn(s, asset, p)| && PutIn(s, asset, p)[k] == s[i]
  {}

  lemma ApartIds(s: seq<AssetDescription>, asset: AssetDescription, p: nat)
    requires DistinctIds(s) && p <= |s|
    ensures DistinctIds(PutIn(s, asset, p)) <==> forall a | a in s :: a.assetId != asset.assetId
  {
    var s' := PutIn(s, asset, p);
    assert s'[p] == asset;
    if DistinctIds(s') {
      forall i | 0 <= i < |s|
        ensures s[i].assetId != asset.assetId
      {
        ShiftedAt(s, asset, p, i);
      }
    }
  }

  lemma ApartNames(s: seq<AssetDescription>, asset: AssetDescription, p: nat)
    requires DistinctNames(s) && p <= |s|
    ensures DistinctNames(PutIn(s, asset, p)) <==> forall a | a in s :: a.logicalName != asset.logicalName
  {
    var s' := PutIn(s, asset, p);
    assert s'[p] == asset;
    if DistinctNames(s') {
      forall i | 0 <= i < |s|
        ensures s[i].logicalName != asset.logicalName
      {
        ShiftedAt(s, asset, p, i);
      }
    }
  }

  /** The list with the asset in it is one of valid assets with ids and names of their own exactly if the asset is
      valid, and its id and its name are nowhere in the list. */
  lemma InsertedApart(s: seq<AssetDescription>, asset: AssetDescription)
    requires DistinctIds(s) && DistinctNames(s) && forall a | a in s :: IsDescriptionValid(a)
    ensures var s' := InsertSorted(s, asset);
            && ((forall a | a in s' :: IsDescriptionValid(a)) <==> IsDescriptionValid(asset))
            && (DistinctIds(s') <==> forall a | a in s :: a.assetId != asset.assetId)
            && (DistinctNames(s') <==> forall a | a in s :: a.logicalName != asset.logicalName)
  {
    hide IsDescriptionValid, InsertSorted, DistinctIds, DistinctNames;
    var p := InsertedAt(s, asset);
    ApartIds(s, asset, p);
    ApartNames(s, asset, p);
    assert PutIn(s, asset, p)[p] == asset;
  }

  /** What the registry publishes decides what it takes: an asset is added exactly when the manifest with that asset in
      its place is still a manifest. Otherwise the answer names the first of these that holds: the description is
      not valid; the manifest lists its id; the manifest lists its name; the manifest lists 256 assets; the total would
      exceed 512 MiB. */
  lemma RegisterAnswers(r: Registry, asset: AssetDescription)
    requires Inv(r)
    ensures var (result, m) := (Register(r, asset).1, BuildManifest(r));
            var total := m.totalDownloadSize + asset.fileSize;
            var (invalid, sameId) := (!IsDescriptionValid(asset), exists a | a in m.assets :: a.assetId == asset.assetId);
            var (sameName, full) := (exists a | a in m.assets :: a.logicalName == asset.logicalName, |m.assets| == 256);
            && (result == Added <==>
                total <= MAX_U64 && IsManifest(Manifest(m.revision, InsertSorted(m.assets, asset), total)))
            && (result == InvalidAsset <==> invalid)
            && (result == DuplicateAssetId <==> !invalid && sameId)
            && (result == DuplicateLogicalName <==> !invalid && !sameId && sameName)
            && (result == AssetLimitReached <==> !invalid && !sameId && !sameName && full)
            && (result == TotalSizeExceeded <==> !invalid && !sameId && !sameName && !full && total > 512 * 1024 * 1024)
  {
    hide IsDescriptionValid, Inv, BuildManifest, IsManifest, InsertSorted;
    Listed(r, asset);
    RoomFor(r, asset);
  }

  /** The tables, read off the manifest. */
  lemma Listed(r: Registry, asset: AssetDescription)
    requires Inv(r)
    ensures var m := BuildManifest(r);
            && (asset.assetId in r.assets <==> exists a | a in m.assets :: a.assetId == asset.assetId)
            && (asset.logicalName in r.logicalNames <==> exists a | a in m.assets :: a.logicalName == asset.logicalName)
            && |m.assets| == |r.assets| <= MAXIMUM_ASSETS_PER_MANIFEST
            && m.totalDownloadSize == r.totalSize <= MAXIMUM_TOTAL_DOWNLOAD_SIZE
  {
    hide IsDescriptionValid, Sorted, TotalSize, AllValid, Keyed, IsManifest;
    ManifestOfRegistry(r);
    if asset.assetId in r.assets {
      EntryId(r, asset.assetId);
    }
    if asset.logicalName in r.logicalNames {
      assert r.assets[r.logicalNames[asset.logicalName]] in BuildManifest(r).assets;
    }
  }

  lemma EntryId(r: Registry, id: u32)
    requires Inv(r) && id in r.assets
    ensures r.assets[id].assetId == id
  {}

  /** The manifest with one more asset. */
  lemma RoomFor(r: Registry, asset: AssetDescription)
    requires Inv(r)
    ensures var m := BuildManifest(r);
            var total := m.totalDownloadSize + asset.fileSize;
            total <= MAX_U64 && IsManifest(Manifest(m.revision, InsertSorted(m.assets, asset), total)) <==>
              && IsDescriptionValid(asset)
              && (forall a | a in m.assets :: a.assetId != asset.assetId)
              && (forall a | a in m.assets :: a.logicalName != asset.logicalName)
              && |m.assets| < MAXIMUM_ASSETS_PER_MANIFEST
              && total <= MAXIMUM_TOTAL_DOWNLOAD_SIZE
  {
    hide IsDescriptionValid, Sorted, TotalSize, InsertSorted, AllValid, Keyed, IsInverse, DistinctIds, DistinctNames;
    ManifestOfRegistry(r);
    InsertedApart(Sorted(r.assets), asset);
    TotalOfInsert(Sorted(r.assets), asset);
  }

  lemma PublishedSize(r: Registry)
    requires Inv(r)
    ensures |Sorted(r.assets)| == |r.assets| <= MAXIMUM_ASSETS_PER_MANIFEST
  {
    hide Sorted, AllValid, IsInverse;
    SortedContents(r.assets);
  }

  lemma NamesApart(r: Registry, s: seq<AssetDescription>)
    requires IsInverse(r.logicalNames, r.assets) && SortedById(s)
    requires forall a | a in s :: a.assetId in r.assets && r.assets[a.assetId] == a
    ensures DistinctIds(s) && DistinctNames(s)
  {
    forall i, j | 0 <= i < j < |s|
      ensures s[i].assetId != s[j].assetId && s[i].logicalName != s[j].logicalName
    {
      assert s[i] in s && s[j] in s;
      assert r.assets[s[i].assetId] == s[i] && r.assets[s[j].assetId] == s[j];
    }
  }

  // The object.

  class AssetRegistry {
    var revision: u64
    var totalSize: u64
    var assets: map<u32, AssetDescription>
    var logicalNames: map<seq<byte>, u32>

    function View(): Registry
      reads this
    {
      Registry(revision, totalSize, assets, logicalNames)
    }

    ghost predicate Valid()
      reads this
    {
      Inv(View())
    }

    constructor ()
      ensures Valid() && View() == EMPTY
    {
      revision, totalSize, assets, logicalNames := 1, 0, map[], map[];
      new;
      FreshRegistry();
    }

    method RegisterAsset(asset: AssetDescription) returns (result: RegistryResult)
      requires Valid()
      modifies this
      ensures Valid() && (View(), result) == Register(old(View()), asset)
    {
      hide Inv, IsDescriptionValid;
      RegisterKeeps(View(), asset);
      RoomLeft(View());
      var valid := IsAssetDescriptionValid(asset);
      if !valid {
        return InvalidAsset;
      }
      if asset.assetId in assets {
        return DuplicateAssetId;
      }
      if asset.logicalName in logicalNames {
        return DuplicateLogicalName;
      }
      if |assets| >= MAXIMUM_ASSETS_PER_MANIFEST {
        return AssetLimitReached;
      }
      if asset.fileSize > MAXIMUM_TOTAL_DOWNLOAD_SIZE - totalSize {
        return TotalSizeExceeded;
      }
      totalSize := totalSize + asset.fileSize;
      logicalNames := logicalNames[asset.logicalName := asset.assetId];
      assets := assets[asset.assetId := asset];
      revision := AdvanceRevision(revision);
      return Added;
    }

    method RemoveAsset(assetId: u32) returns (result: RegistryResult)
      requires Valid()
      modifies this
      ensures Valid()
      ensures assetId in old(assets) ==> old(assets)[assetId].fileSize <= old(totalSize)
      ensures (View(), result) == Remove(old(View()), assetId)
    {
      hide Inv;
      RemoveKeeps(View(), assetId);
      if assetId !in assets {
        return NotFound;
      }
      totalSize := totalSize - assets[assetId].fileSize;
      logicalNames := logicalNames - {assets[assetId].logicalName};
      assets := assets - {assetId};
      revision := AdvanceRevision(revision);
      return Removed;
    }

    method ClearAssets() returns (result: RegistryResult)
      requires Valid()
      modifies this
      ensures Valid() && (View(), result) == Clear(old(View()))
    {
      hide Inv;
      ClearKeeps(View());
      if assets == map[] {
        return Cleared;
      }
      assets, logicalNames, totalSize := map[], map[], 0;
      revision := AdvanceRevision(revision);
      return Cleared;
    }

    /** Copies the table in whatever order it comes and sorts the copy. */
    method BuildManifest() returns (manifest: Manifest)
      requires Valid()
      ensures manifest.revision == revision && manifest.totalDownloadSize == totalSize
      ensures manifest.assets == Sorted(assets)
    {
      hide IsDescriptionValid, Sorted, InsertSorted, AllValid, IsInverse;
      EmptyTables();
      var list: seq<AssetDescription> := [];
      var left := assets.Keys;
      ghost var taken: map<u32, AssetDescription> := map[];
      while left != {}
        invariant left <= assets.Keys
        invariant taken == map id | id in assets.Keys - left :: assets[id]
        invariant list == Sorted(taken)
        decreases left
      {
        var id :| id in left;
        SortedInsert(taken, assets[id]);
        list := InsertSorted(list, assets[id]);
        left := left - {id};
        taken := taken[id := assets[id]];
      }
      assert taken == assets;
      return Manifest(revision, list, totalSize);
    }
  }

  lemma RoomLeft(r: Registry)
    requires Inv(r)
    ensures r.totalSize <= MAXIMUM_TOTAL_DOWNLOAD_SIZE
  {}
}
