/** Loading the registry from a configuration file that has already been cut into lines of fields. */
module ManifestConfig {
  import opened Bytes
  import opened Assets
  import opened AssetRegistry
  import opened Sha256Hex

  /** A trimmed line: blank or comment, not six fields, or six fields. */
  datatype Line =
    | Skipped
    | WrongFieldCount
    | Fields(assetId: u32, kind: seq<byte>, logicalName: seq<byte>, url: seq<byte>, fileSize: u64, sha256: seq<byte>)

  datatype ConfigError = CannotOpen | ReadFailed | ExpectedSixFields | InvalidDigest | InvalidType | Refused(result: RegistryResult)
  datatype ConfigResult = Loaded(loadedAssets: nat) | Rejected(errorLine: nat, error: ConfigError)

  const DFF_TEXT: seq<byte> := [68, 70, 70]
  const TXD_TEXT: seq<byte> := [84, 88, 68]

  ghost predicate IsDigestText(text: seq<byte>) {
    exists d: Digest :: text == Hex(d)
  }

  ghost function DigestOf(text: seq<byte>): Option<Digest> {
    if IsDigestText(text) then
      var d: Digest :| text == Hex(d);
      Some(d)
    else None
  }

  function TypeOfText(text: seq<byte>): Option<AssetType> {
    if text == DFF_TEXT then Some(DFF) else if text == TXD_TEXT then Some(TXD) else None
  }

  /** The description a line of six fields stands for. */
  ghost function DescriptionOf(line: Line): Option<AssetDescription>
    requires line.Fields?
  {
    match (DigestOf(line.sha256), TypeOfText(line.kind))
    case (Some(digest), Some(kind)) =>
      Some(AssetDescription(line.assetId, kind, line.logicalName, line.url, line.fileSize, digest))
    case _ => None
  }

  datatype Progress = Good(registry: Registry) | Bad(line: nat, error: ConfigError)

  ghost function LoadLine(r: Registry, line: Line, number: nat): Progress {
    match line
    case Skipped => Good(r)
    case WrongFieldCount => Bad(number, ExpectedSixFields)
    case Fields(_, kind, _, _, _, sha256) =>
      if DigestOf(sha256) == None then Bad(number, InvalidDigest)
      else if TypeOfText(kind) == None then Bad(number, InvalidType)
      else
        var (r', result) := Register(r, DescriptionOf(line).value);
        if result == Added then Good(r') else Bad(number, Refused(result))
  }

  /** The lines read into a scratch registry, up to the first bad one. */
  ghost function Load(lines: seq<Line>): Progress {
    if lines == [] then Good(EMPTY)
    else
      match Load(lines[..|lines| - 1])
      case Bad(line, error) => Bad(line, error)
      case Good(r) => LoadLine(r, lines[|lines| - 1], |lines|)
  }

  lemma {:induction false} FirstBadLine(lines: seq<Line>, n: nat)
    requires n <= |lines| && Load(lines[..n]).Bad?
    ensures Load(lines) == Load(lines[..n])
  {
    if n < |lines| {
      assert lines[..|lines| - 1][..n] == lines[..n];
      FirstBadLine(lines[..|lines| - 1], n);
    } else {
      assert lines[..n] == lines;
    }
  }

  /** The registrations a file asks for, in order. */
  ghost function Registrations(lines: seq<Line>): seq<Operation> {
    if lines == [] then []
    else
      var (init, last) := (lines[..|lines| - 1], lines[|lines| - 1]);
      Registrations(init) +
      if last.Fields? && DescriptionOf(last).Some? then [RegisterOp(DescriptionOf(last).value)] else []
  }

  lemma NoOps()
    ensures RunOps([]) == EMPTY
  {}

  /** A file that loads installs exactly the registry its registrations build from a fresh one. */
  lemma {:induction false} LoadIsFold(lines: seq<Line>)
    requires Load(lines).Good?
    ensures Load(lines).registry == RunOps(Registrations(lines))
  {
    hide Inv, Register, DigestOf, RunOps;
    if lines == [] {
      NoOps();
    } else {
      var (init, last) := (lines[..|lines| - 1], lines[|lines| - 1]);
      LoadIsFold(init);
      if last.Fields? {
        RunOpsAppend(Registrations(init), RegisterOp(DescriptionOf(last).value));
      } else {
        assert Registrations(lines) == Registrations(init) + [] == Registrations(init);
      }
    }
  }

  /** How many lines of a file carry fields: anyone can count them before loading. */
  function FieldLines(lines: seq<Line>): nat {
    if lines == [] then 0 else FieldLines(lines[..|lines| - 1]) + if lines[|lines| - 1].Fields? then 1 else 0
  }

  /** A loaded registry has one entry, and has been through one revision, for each line with fields. */
  lemma {:induction false} LoadRevision(lines: seq<Line>)
    requires Load(lines).Good?
    ensures var r := Load(lines).registry;
            && Inv(r)
            && |r.assets| == FieldLines(lines) <= MAXIMUM_ASSETS_PER_MANIFEST
            && r.revision == 1 + FieldLines(lines)
  {
    hide Inv, DigestOf, Sorted;
    if lines == [] {
      FreshRegistry();
    } else {
      var (init, last) := (lines[..|lines| - 1], lines[|lines| - 1]);
      LoadRevision(init);
      if last.Fields? {
        RegisterKeeps(Load(init).registry, DescriptionOf(last).value);
        RegisteredSize(Load(init).registry, DescriptionOf(last).value);
      }
    }
  }

  lemma RegisteredSize(r: Registry, asset: AssetDescription)
    requires Register(r, asset).1 == Added
    ensures |Register(r, asset).0.assets| == |r.assets| + 1 <= MAXIMUM_ASSETS_PER_MANIFEST
  {
    var r' := Register(r, asset).0;
    assert r'.assets.Keys == r.assets.Keys + {asset.assetId};
    assert |r'.assets| == |r'.assets.Keys| && |r.assets| == |r.assets.Keys|;
  }

  /** The asset a line of six fields asks for, in the file's own terms: DFF is type 1 and TXD is type 2. */
  ghost predicate AsksFor(line: Line, asset: AssetDescription) {
    && line.Fields?
    && asset.assetId == line.assetId && asset.logicalName == line.logicalName
    && asset.downloadUrl == line.url && asset.fileSize == line.fileSize
    && line.sha256 == Hex(asset.sha256)
    && (asset.kind == 1 <==> line.kind == [68, 70, 70])
    && (asset.kind == 2 <==> line.kind == [84, 88, 68])
    && (asset.kind == 1 || asset.kind == 2)
  }

  lemma DescribedExactly(line: Line)
    requires line.Fields?
    ensures var (digestText, typeText) := (IsDigestText(line.sha256), line.kind == [68, 70, 70] || line.kind == [84, 88, 68]);
            && (DigestOf(line.sha256).Some? <==> digestText)
            && (TypeOfText(line.kind).Some? <==> typeText)
            && (digestText && typeText ==> AsksFor(line, DescriptionOf(line).value))
  {
    hide Hex;
  }

  /** Nothing is lost or altered on the way: a loaded registry has, for every line of six fields, the asset that line asks
      for, and no entry that no line asks for. */
  lemma {:induction false} LoadedLine(lines: seq<Line>)
    requires Load(lines).Good?
    ensures var assets := Load(lines).registry.assets;
            && (forall i | 0 <= i < |lines| && lines[i].Fields? ::
                  lines[i].assetId in assets && AsksFor(lines[i], assets[lines[i].assetId]))
            && (forall id | id in assets :: exists i | 0 <= i < |lines| :: AsksFor(lines[i], assets[id]))
  {
    hide Inv, DigestOf, TypeOfText, DescriptionOf, AsksFor, IsDescriptionValid;
    if lines != [] {
      var (init, last) := (lines[..|lines| - 1], lines[|lines| - 1]);
      LoadedLine(init);
      var assets := Load(lines).registry.assets;
      if last.Fields? {
        DescribedExactly(last);
        FieldsDescribed(last);
      }
      forall id | id in assets
        ensures exists i | 0 <= i < |lines| :: AsksFor(lines[i], assets[id])
      {
        if id in Load(init).registry.assets {
          var i :| 0 <= i < |init| && AsksFor(init[i], Load(init).registry.assets[id]);
          assert AsksFor(lines[i], assets[id]);
        } else {
          assert AsksFor(lines[|init|], assets[id]);
        }
      }
    }
  }

  lemma FieldsDescribed(line: Line)
    requires line.Fields?
    ensures DigestOf(line.sha256).Some? && TypeOfText(line.kind).Some? <==> DescriptionOf(line).Some?
    ensures DescriptionOf(line).Some? ==> DescriptionOf(line).value.assetId == line.assetId
  {
    hide DigestOf, TypeOfText;
  }

  /** What becomes of a line: it is refused under its number for not having six fields, or else for a digest that is no
      32 bytes' text, or else for a type that is neither DFF nor TXD, or else with the registry's own answer about the
      asset it asks for. */
  ghost predicate IsAnswered(r: Registry, line: Line, number: nat, next: Progress) {
    var badDigest := line.Fields? && !IsDigestText(line.sha256);
    var badType := line.Fields? && line.kind != [68, 70, 70] && line.kind != [84, 88, 68];
    && (line == Skipped ==> next == Good(r))
    && (next == Bad(number, ExpectedSixFields) <==> line == WrongFieldCount)
    && (next == Bad(number, InvalidDigest) <==> badDigest)
    && (next == Bad(number, InvalidType) <==> badType && !badDigest)
    && (line.Fields? && !badDigest && !badType ==> exists asset :: AsksFor(line, asset) && IsRegistered(r, asset, number, next))
  }

  predicate IsRegistered(r: Registry, asset: AssetDescription, number: nat, next: Progress) {
    var (r', result) := Register(r, asset);
    next == if result == Added then Good(r') else Bad(number, Refused(result))
  }

  lemma LineAnswered(r: Registry, line: Line, number: nat)
    ensures IsAnswered(r, line, number, LoadLine(r, line, number))
  {
    hide Register, AsksFor, DigestOf, TypeOfText, DescriptionOf, IsDigestText;
    if line.Fields? {
      DescribedExactly(line);
      FieldsDescribed(line);
    }
  }

  /** Whatever the file: as long as the lines before it are good, the next line is answered as described, into the registry
      built so far; and a refusal ends the load with itself. */
  lemma NextLine(lines: seq<Line>, n: nat)
    requires n < |lines| && Load(lines[..n]).Good?
    ensures IsAnswered(Load(lines[..n]).registry, lines[n], n + 1, Load(lines[..n + 1]))
    ensures Load(lines[..n + 1]).Bad? ==> Load(lines) == Load(lines[..n + 1])
  {
    hide IsAnswered, LoadLine;
    assert lines[..n + 1][..n] == lines[..n];
    LineAnswered(Load(lines[..n]).registry, lines[n], n + 1);
    if Load(lines[..n + 1]).Bad? {
      FirstBadLine(lines, n + 1);
    }
  }

  const SAMPLE := AssetDescription(1, DFF, [97], HTTP_PREFIX + [97], 1, seq(32, _ => 0))

  /** A load can set the revision back: here a registry has come to revision 3, and an empty file takes it to 1. */
  lemma RevisionFalls()
    ensures RunOps([RegisterOp(SAMPLE), ClearOp]).revision == 3
    ensures Load([]).Good? && Load([]).registry.revision == 1
  {
    var one := [RegisterOp(SAMPLE)];
    assert one + [ClearOp] == [RegisterOp(SAMPLE), ClearOp] && [] + one == one;
    RunOpsAppend(one, ClearOp);
    RunOpsAppend([], RegisterOp(SAMPLE));
    NoOps();
    SampleValid();
  }

  lemma SampleValid()
    ensures IsDescriptionValid(SAMPLE)
  {
    var name: seq<byte> := [97];
    var none: seq<byte> := [];
    assert name[1..] == none && Split(none) == [none];
    assert [none][1..] == [] && [name[0]] + none == name;
    assert Split(name) == [name];
    var url := SAMPLE.downloadUrl;
    assert StartsWith(url, HTTP_PREFIX) && AuthorityStart(url) == 7;
    assert url[7..8] == [97];
  }

  /** All or nothing: the registry is replaced by the file's own, or not touched at all. */
  method LoadManifestConfig(canOpen: bool, lines: seq<Line>, readFailed: bool, registry: AssetRegistry)
    returns (result: ConfigResult)
    requires registry.Valid()
    modifies registry
    ensures registry.Valid()
    ensures result.Rejected? ==> registry.View() == old(registry.View())
    ensures result.Loaded? ==> && Load(lines) == Good(registry.View())
                               && result.loadedAssets == |registry.View().assets|
    ensures result.Loaded? ==> registry.revision == 1 + FieldLines(lines)
    ensures registry.revision > old(registry.revision) <==> result.Loaded? && old(registry.revision) < 1 + FieldLines(lines)
    ensures registry.revision < old(registry.revision) <==> result.Loaded? && old(registry.revision) > 1 + FieldLines(lines)
    ensures result.Loaded? <==> canOpen && !readFailed && Load(lines).Good?
    ensures canOpen && Load(lines).Bad? ==> result == Rejected(Load(lines).line, Load(lines).error)
    ensures canOpen && Load(lines).Good? && readFailed ==> result == Rejected(|lines|, ReadFailed)
    ensures !canOpen ==> result == Rejected(0, CannotOpen)
  {
    hide Inv, IsDescriptionValid, Register, Hex;
    if !canOpen {
      return Rejected(0, CannotOpen);
    }
    var parsed := new AssetRegistry();
    for i := 0 to |lines|
      invariant parsed.Valid() && fresh(parsed)
      invariant Load(lines[..i]) == Good(parsed.View())
      invariant registry.View() == old(registry.View()) && registry.Valid()
    {
      assert lines[..i + 1][..i] == lines[..i];
      if Load(lines[..i + 1]).Bad? {
        FirstBadLine(lines, i + 1);
      }
      match lines[i] {
        case Skipped =>
        case WrongFieldCount =>
          return Rejected(i + 1, ExpectedSixFields);
        case Fields(assetId, kind, name, url, fileSize, sha256) =>
          var digest := ParseSha256Hex(sha256);
          assert digest == DigestOf(sha256);
          if digest == None {
            return Rejected(i + 1, InvalidDigest);
          }
          var assetType := TypeOfText(kind);
          if assetType == None {
            return Rejected(i + 1, InvalidType);
          }
          var outcome := parsed.RegisterAsset(AssetDescription(assetId, assetType.value, name, url, fileSize, digest.value));
          if outcome != Added {
            return Rejected(i + 1, Refused(outcome));
          }
      }
    }
    assert lines[..|lines|] == lines;
    if readFailed {
      return Rejected(|lines|, ReadFailed);
    }
    LoadRevision(lines);
    registry.revision, registry.totalSize := parsed.revision, parsed.totalSize;
    registry.assets, registry.logicalNames := parsed.assets, parsed.logicalNames;
    assert registry.View() == parsed.View();
    return Loaded(|registry.assets|);
  }
}
