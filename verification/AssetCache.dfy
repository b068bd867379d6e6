/** The content-addressed cache over an abstract disk whose every call may fail. */
module AssetCache {
  import opened Bytes
  import opened Assets
  import opened Sha256Hex

  type Name = seq<byte>
  type Path = seq<Name>

  /** What a path leads to: a regular file, or anything else (a directory, a device). */
  datatype Node = File(data: seq<byte>) | Other
  type FileSystem = map<Path, Node>

  /** SHA-256 is any function from bytes to 32-byte digests. */
  type Hash = seq<byte> -> Digest

  datatype CacheLookup = Hit | Miss | DiskFailure

  const SHA256_DIRECTORY: Name := [115, 104, 97, 50, 53, 54]   // sha256
  const TMP_DIRECTORY: Name := [116, 109, 112]                 // tmp
  const DFF_EXTENSION: Name := [46, 100, 102, 102]             // .dff
  const TXD_EXTENSION: Name := [46, 116, 120, 100]             // .txd
  const TMP_SUFFIX: Name := [46, 116, 109, 112]                // .tmp

  function ExtensionFor(kind: AssetType): Name {
    if kind == DFF then DFF_EXTENSION else if kind == TXD then TXD_EXTENSION else []
  }

  function PathFor(root: Path, asset: AssetDescription): Path {
    var hex := Hex(asset.sha256);
    root + [SHA256_DIRECTORY, hex[..2], hex + ExtensionFor(asset.kind)]
  }

  function TemporaryPathFor(root: Path, asset: AssetDescription): Path {
    root + [TMP_DIRECTORY, Hex(asset.sha256) + ExtensionFor(asset.kind) + TMP_SUFFIX]
  }

  /** Paths are decided by the digest and the extension alone, and decide them. */
  lemma PathsIdentifyContent(root: Path, a: AssetDescription, b: AssetDescription)
    ensures PathFor(root, a) == PathFor(root, b) <==> a.sha256 == b.sha256 && ExtensionFor(a.kind) == ExtensionFor(b.kind)
    ensures TemporaryPathFor(root, a) == TemporaryPathFor(root, b) <==> PathFor(root, a) == PathFor(root, b)
    ensures PathFor(root, a) != TemporaryPathFor(root, b)
  {
    hide ExtensionFor;
    var (ha, hb) := (Hex(a.sha256), Hex(b.sha256));
    var (ea, eb) := (ExtensionFor(a.kind), ExtensionFor(b.kind));
    var n := |root|;
    if PathFor(root, a) == PathFor(root, b) {
      assert PathFor(root, a)[n + 2] == ha + ea && PathFor(root, b)[n + 2] == hb + eb;
      SplitTail(ha, ea, hb, eb);
      HexInjective(a.sha256, b.sha256);
    }
    if TemporaryPathFor(root, a) == TemporaryPathFor(root, b) {
      assert TemporaryPathFor(root, a)[n + 1] == ha + ea + TMP_SUFFIX && TemporaryPathFor(root, b)[n + 1] == hb + eb + TMP_SUFFIX;
      assert ha + ea + TMP_SUFFIX == ha + (ea + TMP_SUFFIX) && hb + eb + TMP_SUFFIX == hb + (eb + TMP_SUFFIX);
      SplitTail(ha, ea + TMP_SUFFIX, hb, eb + TMP_SUFFIX);
      assert (ea + TMP_SUFFIX)[..|ea|] == ea && (eb + TMP_SUFFIX)[..|eb|] == eb;
      HexInjective(a.sha256, b.sha256);
    }
  }

  /** Where things are: a file under the first two digits of its digest's text and under all of them, with .dff for type 1 and
      .txd for type 2; its temporary file in a directory of its own, with .tmp behind that name. */
  lemma DocumentedPaths(root: Path, asset: AssetDescription)
    requires asset.kind == 1 || asset.kind == 2
    ensures var name := Hex(asset.sha256) + if asset.kind == 1 then [46, 100, 102, 102] else [46, 116, 120, 100];
            && PathFor(root, asset) == root + [[115, 104, 97, 50, 53, 54], name[..2], name]
            && TemporaryPathFor(root, asset) == root + [[116, 109, 112], name + [46, 116, 109, 112]]
  {
    var hex := Hex(asset.sha256);
    hide Hex;
    assert (hex + ExtensionFor(asset.kind))[..2] == hex[..2];
  }

  lemma SplitTail(a: seq<byte>, x: seq<byte>, b: seq<byte>, y: seq<byte>)
    requires |a| == |b| && a + x == b + y
    ensures a == b && x == y
  {
    assert (a + x)[..|a|] == a && (b + y)[..|b|] == b;
    assert (a + x)[|a|..] == x && (b + y)[|b|..] == y;
  }

  /** A stored file is what the description announces. */
  ghost predicate Matches(hash: Hash, node: Node, asset: AssetDescription) {
    node.File? && |node.data| == asset.fileSize && hash(node.data) == asset.sha256
  }

  ghost predicate IsCached(hash: Hash, root: Path, files: FileSystem, asset: AssetDescription) {
    PathFor(root, asset) in files && Matches(hash, files[PathFor(root, asset)], asset)
  }

  // The operations; each flag of the fault records makes one call report an error.

  datatype LookupFaults = LookupFaults(exists_: bool, kind: bool, size: bool, read: bool, remove: bool)
  datatype CommitFaults = CommitFaults(makeDirectory: bool, exists_: bool, lookup: LookupFaults, remove: bool, rename: bool)

  function Removed(files: FileSystem, path: Path, fault: bool): (FileSystem, CacheLookup) {
    if fault then (files, DiskFailure) else (files - {path}, Miss)
  }

  function LookupIn(hash: Hash, root: Path, files: FileSystem, asset: AssetDescription, f: LookupFaults): (FileSystem, CacheLookup) {
    var path := PathFor(root, asset);
    if f.exists_ then (files, DiskFailure)
    else if path !in files then (files, Miss)
    else if files[path].Other? || f.kind then Removed(files, path, f.remove)
    else
      var data := files[path].data;
      if !f.size && !f.read && |data| == asset.fileSize && hash(data) == asset.sha256 then (files, Hit)
      else Removed(files, path, f.remove)
  }

  function RemoveIn(files: FileSystem, path: Path, fault: bool): FileSystem {
    if fault then files else files - {path}
  }

  function RenameIn(files: FileSystem, from: Path, to: Path, fault: bool): (FileSystem, bool) {
    if fault || from !in files then (files, false) else ((files - {from})[to := files[from]], true)
  }

  function CommitIn(
      hash: Hash, root: Path, files: FileSystem, asset: AssetDescription, temporary: Path, f: CommitFaults): (FileSystem, bool) {
    var path := PathFor(root, asset);
    if f.makeDirectory then (files, false)
    else if !f.exists_ && path in files then
      var (after, found) := LookupIn(hash, root, files, asset, f.lookup);
      if found == Hit then (RemoveIn(after, temporary, f.remove), true)
      else RenameIn(after, temporary, path, f.rename)
    else RenameIn(files, temporary, path, f.rename)
  }

  /** A hit means the file is there and is the announced one; any other answer leaves every other path alone. */
  lemma LookupSound(hash: Hash, root: Path, files: FileSystem, asset: AssetDescription, f: LookupFaults)
    ensures var (after, found) := LookupIn(hash, root, files, asset, f);
            && (found == Hit ==> after == files && IsCached(hash, root, files, asset))
            && (after == files || after == files - {PathFor(root, asset)})
            && (found == Miss ==> PathFor(root, asset) !in after)
            && (f == LookupFaults(false, false, false, false, false) ==>
                  (found == Hit <==> IsCached(hash, root, files, asset)) && found != DiskFailure)
  {}

  /** A commit that succeeds leaves the announced bytes at the cache path, given a verified temporary file. */
  lemma CommitSound(hash: Hash, root: Path, files: FileSystem, asset: AssetDescription, f: CommitFaults)
    requires TemporaryPathFor(root, asset) in files && Matches(hash, files[TemporaryPathFor(root, asset)], asset)
    ensures var (after, done) := CommitIn(hash, root, files, asset, TemporaryPathFor(root, asset), f);
            && (done ==> IsCached(hash, root, after, asset))
            && (PathFor(root, asset) in after ==>
                  IsCached(hash, root, after, asset) ||
                  (PathFor(root, asset) in files && after[PathFor(root, asset)] == files[PathFor(root, asset)]))
            && (forall p | p != PathFor(root, asset) && p != TemporaryPathFor(root, asset) :: p in after <==> p in files)
            && (forall p | p != PathFor(root, asset) && p in after :: p in files && after[p] == files[p])
            && (done && !f.remove ==> TemporaryPathFor(root, asset) !in after)
  {
    hide PathFor, TemporaryPathFor, LookupIn;
    PathsIdentifyContent(root, asset, asset);
    LookupSound(hash, root, files, asset, f.lookup);
  }

  /** When a lookup hits and when it fails, whatever calls report errors: it hits exactly if the announced bytes are there and
      every question about them is answered; it fails exactly if it cannot even look, or cannot remove what it would not accept. */
  lemma LookupExactly(hash: Hash, root: Path, files: FileSystem, asset: AssetDescription, f: LookupFaults)
    ensures var ((after, found), path) := (LookupIn(hash, root, files, asset, f), PathFor(root, asset));
            && (found == Hit <==> IsCached(hash, root, files, asset) && !f.exists_ && !f.kind && !f.size && !f.read)
            && (found == DiskFailure <==> f.exists_ || (path in files && found != Hit && f.remove))
            && after == if found == Miss then files - {path} else files
  {
    hide PathFor;
  }

  /** When a commit succeeds, whatever calls report errors: exactly if the directory is there and either the lookup finds the
      announced bytes in place or the rename goes through; then the bytes are in place, and otherwise the temporary file is. */
  lemma CommitExactly(hash: Hash, root: Path, files: FileSystem, asset: AssetDescription, f: CommitFaults)
    requires TemporaryPathFor(root, asset) in files
    ensures var (path, temporary) := (PathFor(root, asset), TemporaryPathFor(root, asset));
            var (after, done) := CommitIn(hash, root, files, asset, temporary, f);
            var inPlace := && IsCached(hash, root, files, asset) && !f.exists_
                           && f.lookup.(remove := false) == LookupFaults(false, false, false, false, false);
            && (done <==> !f.makeDirectory && (inPlace || !f.rename))
            && (done && inPlace ==> after == if f.remove then files else files - {temporary})
            && (done && !inPlace ==> path in after && after[path] == files[temporary] && temporary !in after)
            && (!done ==> temporary in after && after[temporary] == files[temporary])
  {
    hide PathFor, TemporaryPathFor, LookupIn;
    PathsIdentifyContent(root, asset, asset);
    LookupExactly(hash, root, files, asset, f.lookup);
  }

  /** The failing calls that make a lookup take a good file for a bad one: it is found, cannot be told to be good, and is
      removed. Any other failure leaves it alone. */
  predicate MissesCached(f: LookupFaults) {
    !f.exists_ && !f.remove && (f.kind || f.size || f.read)
  }

  /** What a lookup does to a cached file, its own or that of another description, whatever fails: it survives exactly
      when the two have no path in common, or the lookup cannot look or cannot remove, or finds the size it expects and
      can read the file. Descriptions of one content that disagree about its size evict each other. */
  lemma LookupSpares(
      hash: Hash, root: Path, files: FileSystem, kept: AssetDescription, looked: AssetDescription, f: LookupFaults)
    requires IsCached(hash, root, files, kept)
    ensures var (after, found) := LookupIn(hash, root, files, looked, f);
            var together := looked.sha256 == kept.sha256 && ExtensionFor(looked.kind) == ExtensionFor(kept.kind);
            && (IsCached(hash, root, after, kept) <==>
                !together || f.exists_ || f.remove || (looked.fileSize == kept.fileSize && !MissesCached(f)))
            && (together && looked.fileSize == kept.fileSize ==> (found == Miss <==> MissesCached(f)))
  {
    hide PathFor, TemporaryPathFor;
    PathsIdentifyContent(root, kept, looked);
  }

  // The object: the cache at one root, and the disk it works on.

  class AssetCache {
    const hash: Hash
    const root: Path
    var files: FileSystem

    constructor (hash: Hash, root: Path, files: FileSystem)
      ensures this.hash == hash && this.root == root && this.files == files
    {
      this.hash, this.root, this.files := hash, root, files;
    }

    method Lookup(asset: AssetDescription, f: LookupFaults) returns (found: CacheLookup)
      modifies this
      ensures (files, found) == LookupIn(hash, root, old(files), asset, f)
    {
      hide PathFor;
      var path := PathFor(root, asset);
      if f.exists_ {
        return DiskFailure;
      }
      if path !in files {
        return Miss;
      }
      if files[path].Other? || f.kind {
        found := Remove(path, f.remove);
        return;
      }
      if !f.size {
        var size := |files[path].data|;
        var digest := if f.read then None else Some(hash(files[path].data));
        if size == asset.fileSize && digest == Some(asset.sha256) {
          return Hit;
        }
      }
      found := Remove(path, f.remove);
    }

    method Remove(path: Path, fault: bool) returns (found: CacheLookup)
      modifies this
      ensures (files, found) == Removed(old(files), path, fault)
    {
      if fault {
        return DiskFailure;
      }
      files := files - {path};
      return Miss;
    }

    method RemoveTemporary(path: Path, fault: bool)
      modifies this
      ensures files == RemoveIn(old(files), path, fault)
    {
      if !fault {
        files := files - {path};
      }
    }

    method CommitVerified(asset: AssetDescription, temporary: Path, f: CommitFaults) returns (done: bool)
      modifies this
      ensures (files, done) == CommitIn(hash, root, old(files), asset, temporary, f)
    {
      hide PathFor, LookupIn;
      var destination := PathFor(root, asset);
      if f.makeDirectory {
        return false;
      }
      if !f.exists_ && destination in files {
        var found := Lookup(asset, f.lookup);
        if found == Hit {
          RemoveTemporary(temporary, f.remove);
          return true;
        }
      }
      if f.rename || temporary !in files {
        return false;
      }
      files := (files - {temporary})[destination := files[temporary]];
      return true;
    }
  }
}
