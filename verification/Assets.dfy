/** Asset descriptions, manifests and the validators that guard them. */
module Assets {
  import opened Bytes

  const MAXIMUM_ASSETS_PER_MANIFEST := 256
  const MAXIMUM_LOGICAL_NAME_LENGTH := 96
  const MAXIMUM_URL_LENGTH := 2048
  const MAXIMUM_INDIVIDUAL_FILE_SIZE: u64 := 64 * 1024 * 1024
  const MAXIMUM_TOTAL_DOWNLOAD_SIZE: u64 := 512 * 1024 * 1024
  const MAXIMUM_MANIFEST_BYTES := 1024 * 1024

  type Digest = d: seq<byte> | |d| == 32 witness seq(32, i => 0)

  /** An asset type travels as a 16-bit number; only two of its values are valid. */
  type AssetType = u16
  const DFF: AssetType := 1
  const TXD: AssetType := 2

  datatype AssetDescription = AssetDescription(
    assetId: u32,
    kind: AssetType,
    logicalName: seq<byte>,
    downloadUrl: seq<byte>,
    fileSize: u64,
    sha256: Digest)

  datatype Manifest = Manifest(revision: u64, assets: seq<AssetDescription>, totalDownloadSize: u64)

  // Characters the validators look for.
  const SLASH: byte := '/' as int
  const DOT: byte := '.' as int
  const AT: byte := '@' as int
  const HASH: byte := '#' as int
  const QUESTION: byte := '?' as int
  const BACKSLASH: byte := '\\' as int
  const HTTP: seq<byte> := [104, 116, 116, 112]                // http
  const HTTPS: seq<byte> := [104, 116, 116, 112, 115]          // https
  const SCHEME_SEPARATOR: seq<byte> := [58, 47, 47]            // ://
  const HTTP_PREFIX: seq<byte> := [104, 116, 116, 112, 58, 47, 47]
  const HTTPS_PREFIX: seq<byte> := [104, 116, 116, 112, 115, 58, 47, 47]

  /** First position at or after `from` of a byte in `wanted`; the length when there is none. */
  function FindAny(s: seq<byte>, wanted: set<byte>, from: nat): (i: nat)
    requires from <= |s|
    ensures from <= i <= |s|
    ensures forall k | from <= k < i :: s[k] !in wanted
    ensures i < |s| ==> s[i] in wanted
    decreases |s| - from
  {
    if from == |s| || s[from] in wanted then from else FindAny(s, wanted, from + 1)
  }

  /** First position of `part` in `s` at or after `from`; the length when there is none. */
  function FindText(s: seq<byte>, part: seq<byte>, from: nat): (i: nat)
    requires from <= |s|
    ensures from <= i <= |s|
    ensures i < |s| ==> part <= s[i..]
    ensures forall k | from <= k < i :: !(part <= s[k..])
    decreases |s| - from
  {
    if from == |s| || part <= s[from..] then from else FindText(s, part, from + 1)
  }

  // Logical names.

  predicate IsAsciiIdentifierByte(b: byte) {
    || '0' as int <= b <= '9' as int
    || 'A' as int <= b <= 'Z' as int
    || 'a' as int <= b <= 'z' as int
    || b == '_' as int || b == '-' as int || b == DOT || b == SLASH
  }

  predicate InvalidSegment(segment: seq<byte>) {
    segment == [] || segment == [DOT] || segment == [DOT, DOT]
  }

  /** The pieces of a name between slashes: always at least one. */
  function Split(name: seq<byte>): (segments: seq<seq<byte>>)
    ensures |segments| >= 1
  {
    if name == [] then [[]]
    else
      var tail := Split(name[1..]);
      if name[0] == SLASH then [[]] + tail
      else [[name[0]] + tail[0]] + tail[1..]
  }

  function Join(segments: seq<seq<byte>>): seq<byte> {
    if segments == [] then []
    else if |segments| == 1 then segments[0]
    else segments[0] + [SLASH] + Join(segments[1..])
  }

  predicate IsLogicalName(name: seq<byte>) {
    && 1 <= |name| <= MAXIMUM_LOGICAL_NAME_LENGTH
    && (forall b | b in name :: IsAsciiIdentifierByte(b))
    && (forall segment | segment in Split(name) :: !InvalidSegment(segment))
  }

  /** A path segment of the documented grammar. */
  predicate IsNameSegment(segment: seq<byte>) {
    !InvalidSegment(segment) && forall b | b in segment :: IsAsciiIdentifierByte(b) && b != SLASH
  }

  /** Splitting at the first slash: the step of the segment loop. */
  lemma {:induction false} SplitStep(name: seq<byte>, slash: nat)
    requires slash <= |name|
    requires SLASH !in name[..slash]
    requires slash < |name| ==> name[slash] == SLASH
    ensures slash == |name| ==> Split(name) == [name]
    ensures slash < |name| ==> Split(name) == [name[..slash]] + Split(name[slash + 1..])
  {
    if name != [] && slash > 0 {
      assert name[..slash] == [name[0]] + name[1..][..slash - 1];
      SplitStep(name[1..], slash - 1);
      if slash < |name| {
        assert name[1..][slash..] == name[slash + 1..];
      } else {
        assert [name[0]] + name[1..] == name;
      }
    }
  }

  /** Splitting and joining undo each other, and no piece holds a slash. */
  lemma {:induction false} JoinOfSplit(name: seq<byte>)
    ensures Join(Split(name)) == name
    ensures forall segment | segment in Split(name) :: SLASH !in segment
    ensures forall b, segment | segment in Split(name) && b in segment :: b in name
  {
    if name != [] {
      var tail := Split(name[1..]);
      JoinOfSplit(name[1..]);
      if name[0] == SLASH {
        assert ([[]] + tail)[1..] == tail;
        assert [] + [SLASH] + name[1..] == name;
      } else {
        var segments := [[name[0]] + tail[0]] + tail[1..];
        if |tail| > 1 {
          assert segments[1..] == tail[1..];
          assert segments[0] + [SLASH] + Join(tail[1..]) == [name[0]] + (tail[0] + [SLASH] + Join(tail[1..]));
        }
        assert forall segment | segment in segments[1..] :: segment in tail;
      }
    }
  }

  lemma {:induction false} SplitOfJoin(segments: seq<seq<byte>>)
    requires |segments| >= 1
    requires forall segment | segment in segments :: SLASH !in segment
    ensures Split(Join(segments)) == segments
  {
    var head := segments[0];
    if |segments| == 1 {
      assert head[..|head|] == head;
      SplitStep(head, |head|);
    } else {
      SplitOfJoin(segments[1..]);
      var name := Join(segments);
      assert name[..|head|] == head;
      assert name[|head| + 1..] == Join(segments[1..]);
      SplitStep(name, |head|);
    }
  }

  lemma {:induction false} BytesOfJoin(segments: seq<seq<byte>>)
    ensures forall b | b in Join(segments) :: b == SLASH || exists segment :: segment in segments && b in segment
  {
    if |segments| > 1 {
      BytesOfJoin(segments[1..]);
      forall b | b in Join(segments) && b != SLASH
        ensures exists segment :: segment in segments && b in segment
      {
        if b in segments[0] {
        } else {
          assert b in Join(segments[1..]);
          var segment :| segment in segments[1..] && b in segment;
          assert segment in segments;
        }
      }
    } else if |segments| == 1 {
      assert segments[0] in segments;
    }
  }

  /** The validator accepts exactly the slash-joined lists of good segments, within the length bound. */
  lemma LogicalNameGrammar(name: seq<byte>)
    ensures IsLogicalName(name) <==>
            && 1 <= |name| <= MAXIMUM_LOGICAL_NAME_LENGTH
            && exists segments: seq<seq<byte>> ::
                 |segments| >= 1 && Join(segments) == name && forall segment | segment in segments :: IsNameSegment(segment)
  {
    JoinOfSplit(name);
    if IsLogicalName(name) {
      assert forall segment | segment in Split(name) :: IsNameSegment(segment);
    }
    forall segments: seq<seq<byte>> |
      |segments| >= 1 && Join(segments) == name && forall segment | segment in segments :: IsNameSegment(segment)
      ensures forall b | b in name :: IsAsciiIdentifierByte(b)
      ensures forall segment | segment in Split(name) :: !InvalidSegment(segment)
    {
      SplitOfJoin(segments);
      BytesOfJoin(segments);
    }
  }

  predicate AnyInvalid(segments: seq<seq<byte>>) {
    exists segment :: segment in segments && InvalidSegment(segment)
  }

  lemma AnyInvalidCons(segment: seq<byte>, segments: seq<seq<byte>>)
    ensures AnyInvalid([segment] + segments) <==> InvalidSegment(segment) || AnyInvalid(segments)
  {
    var all := [segment] + segments;
    assert all[0] == segment;
    assert forall s :: s in all <==> s == segment || s in segments;
  }

  method HasInvalidPathSegment(name: seq<byte>) returns (invalid: bool)
    ensures invalid == AnyInvalid(Split(name))
  {
    hide Split, InvalidSegment;
    var offset := 0;
    assert name[0..] == name;
    while offset <= |name|
      invariant 0 <= offset <= |name|
      invariant AnyInvalid(Split(name)) == AnyInvalid(Split(name[offset..]))
      decreases |name| - offset
    {
      var separator := FindAny(name, {SLASH}, offset);
      var segment := name[offset..separator];
      ghost var rest := name[offset..];
      assert rest[..separator - offset] == segment;
      SplitStep(rest, separator - offset);
      AnyInvalidCons(segment, if separator == |name| then [] else Split(name[separator + 1..]));
      assert separator < |name| ==> rest[separator - offset + 1..] == name[separator + 1..];
      assert separator == |name| ==> segment == rest && [segment] + [] == [segment];
      if InvalidSegment(segment) {
        return true;
      }
      if separator == |name| {
        return false;
      }
      offset := separator + 1;
    }
    return false;
  }

  /** A name that starts or ends with a slash has an empty piece. */
  lemma EdgeSlashSplits(name: seq<byte>)
    requires name != [] && (name[0] == SLASH || name[|name| - 1] == SLASH)
    ensures [] in Split(name)
  {
    if name[0] == SLASH {
      assert Split(name)[0] == [];
    } else {
      LastSlashSplits(name);
      assert [] in Split(name);
    }
  }

  lemma {:induction false} LastSlashSplits(name: seq<byte>)
    requires name != [] && name[|name| - 1] == SLASH
    ensures |Split(name)| >= 2 && Split(name)[|Split(name)| - 1] == []
  {
    if |name| > 1 {
      LastSlashSplits(name[1..]);
    } else {
      assert name[1..] == [];
      assert Split(name) == [[]] + Split([]);
    }
  }

  method IsLogicalNameValid(name: seq<byte>) returns (valid: bool)
    ensures valid == IsLogicalName(name)
  {
    if name == [] || |name| > MAXIMUM_LOGICAL_NAME_LENGTH || name[0] == SLASH || name[|name| - 1] == SLASH {
      if name != [] && |name| <= MAXIMUM_LOGICAL_NAME_LENGTH {
        EdgeSlashSplits(name);
      }
      return false;
    }
    if !(forall b | b in name :: IsAsciiIdentifierByte(b)) {
      return false;
    }
    var invalid := HasInvalidPathSegment(name);
    return !invalid;
  }

  // Download URLs.

  function ToLower(b: byte): byte {
    if 'A' as int <= b <= 'Z' as int then b + 32 else b
  }

  predicate StartsWith(value: seq<byte>, prefix: seq<byte>) {
    |prefix| <= |value| && forall i | 0 <= i < |prefix| :: ToLower(value[i]) == ToLower(prefix[i])
  }

  method StartsWithCaseInsensitive(value: seq<byte>, prefix: seq<byte>) returns (starts: bool)
    ensures starts == StartsWith(value, prefix)
  {
    if |value| < |prefix| {
      return false;
    }
    for index := 0 to |prefix|
      invariant forall i | 0 <= i < index :: ToLower(value[i]) == ToLower(prefix[i])
    {
      if ToLower(value[index]) != ToLower(prefix[index]) {
        return false;
      }
    }
    return true;
  }

  predicate IsPrintable(b: byte) {
    0x21 <= b <= 0x7E
  }

  /** Where the authority starts; 0 when the scheme is neither http nor https. */
  function AuthorityStart(url: seq<byte>): nat {
    if StartsWith(url, HTTP_PREFIX) then 7 else if StartsWith(url, HTTPS_PREFIX) then 8 else 0
  }

  predicate HasUrlBytes(url: seq<byte>) {
    forall i | 0 <= i < |url| :: IsPrintable(url[i]) && url[i] != BACKSLASH && url[i] != HASH
  }

  predicate IsDownloadUrl(url: seq<byte>) {
    && 1 <= |url| <= MAXIMUM_URL_LENGTH
    && HasUrlBytes(url)
    && var start := AuthorityStart(url);
    && 0 < start <= |url|
    && var end := FindAny(url, {SLASH, QUESTION, HASH}, start);
    && start < end && AT !in url[start..end]
  }

  datatype UrlParts = UrlParts(scheme: seq<byte>, authority: seq<byte>, rest: seq<byte>)

  function UrlText(parts: UrlParts): seq<byte> {
    parts.scheme + SCHEME_SEPARATOR + parts.authority + parts.rest
  }

  predicate IsScheme(scheme: seq<byte>) {
    (|scheme| == 4 && StartsWith(scheme, HTTP)) || (|scheme| == 5 && StartsWith(scheme, HTTPS))
  }

  predicate IsAuthority(authority: seq<byte>) {
    authority != [] && forall i | 0 <= i < |authority| :: authority[i] != SLASH && authority[i] != QUESTION && authority[i] != AT
  }

  /** scheme "://" authority, then nothing or a path or a query; no user information, no fragment. */
  predicate IsUrlParts(parts: UrlParts) {
    && IsScheme(parts.scheme)
    && IsAuthority(parts.authority)
    && (parts.rest == [] || parts.rest[0] == SLASH || parts.rest[0] == QUESTION)
    && HasUrlBytes(UrlText(parts))
  }

  function PartsOf(url: seq<byte>): UrlParts
    requires IsDownloadUrl(url)
  {
    var start := AuthorityStart(url);
    var end := FindAny(url, {SLASH, QUESTION, HASH}, start);
    UrlParts(url[..start - 3], url[start..end], url[end..])
  }

  lemma PartsOfUrl(url: seq<byte>)
    requires IsDownloadUrl(url)
    ensures IsUrlParts(PartsOf(url)) && UrlText(PartsOf(url)) == url
  {
    var start := AuthorityStart(url);
    var end := FindAny(url, {SLASH, QUESTION, HASH}, start);
    var parts := PartsOf(url);
    SchemeOfPrefix(url);
    SeparatorLiteral(url);
    assert url == url[..start - 3] + url[start - 3..start] + url[start..end] + url[end..];
    assert IsAuthority(parts.authority);
  }

  /** The case-blind test for "http://" or "https://" is a test of the scheme and of the literal separator. */
  lemma SchemeOfPrefix(url: seq<byte>)
    ensures AuthorityStart(url) > 0 ==> |url| >= AuthorityStart(url) && IsScheme(url[..AuthorityStart(url) - 3])
  {
    assert forall i | 0 <= i < 4 :: HTTP[i] == HTTP_PREFIX[i];
    assert forall i | 0 <= i < 5 :: HTTPS[i] == HTTPS_PREFIX[i];
  }

  lemma PrefixOfScheme(scheme: seq<byte>, rest: seq<byte>)
    requires IsScheme(scheme)
    ensures AuthorityStart(scheme + SCHEME_SEPARATOR + rest) == |scheme| + 3
  {
    var url := scheme + SCHEME_SEPARATOR + rest;
    var n := |scheme|;
    assert url[..n] == scheme && url[n] == 58 && url[n + 1] == 47 && url[n + 2] == 47;
    if n == 4 {
      assert StartsWith(url, HTTP_PREFIX);
    } else {
      assert StartsWith(url, HTTPS_PREFIX);
      assert ToLower(url[4]) == 115 && ToLower(HTTP_PREFIX[4]) == 58;
    }
  }

  /** The separator has no letters, so the case-blind prefix test pins it exactly. */
  lemma SeparatorLiteral(url: seq<byte>)
    requires AuthorityStart(url) > 0
    ensures 3 < AuthorityStart(url) <= |url|
    ensures url[AuthorityStart(url) - 3..AuthorityStart(url)] == SCHEME_SEPARATOR
  {
    var start := AuthorityStart(url);
    var prefix := if start == 7 then HTTP_PREFIX else HTTPS_PREFIX;
    assert prefix[start - 3] == 58 && prefix[start - 2] == 47 && prefix[start - 1] == 47;
    assert ToLower(url[start - 3]) == 58 && ToLower(url[start - 2]) == 47 && ToLower(url[start - 1]) == 47;
  }

  lemma AuthorityEnds(parts: UrlParts)
    requires IsUrlParts(parts)
    ensures var start := |parts.scheme| + 3;
            && start < |UrlText(parts)|
            && FindAny(UrlText(parts), {SLASH, QUESTION, HASH}, start) == start + |parts.authority|
  {
    hide IsScheme;
    var url := UrlText(parts);
    var start := |parts.scheme| + 3;
    var end := start + |parts.authority|;
    assert forall k | start <= k < end :: url[k] == parts.authority[k - start];
    assert end < |url| ==> url[end] == parts.rest[0];
  }

  lemma UrlOfParts(parts: UrlParts)
    requires IsUrlParts(parts) && |UrlText(parts)| <= MAXIMUM_URL_LENGTH
    ensures IsDownloadUrl(UrlText(parts)) && PartsOf(UrlText(parts)) == parts
  {
    hide IsScheme, HasUrlBytes, AuthorityStart, FindAny;
    var url := UrlText(parts);
    var start := |parts.scheme| + 3;
    var end := start + |parts.authority|;
    assert url == parts.scheme + SCHEME_SEPARATOR + (parts.authority + parts.rest);
    PrefixOfScheme(parts.scheme, parts.authority + parts.rest);
    AuthorityEnds(parts);
    assert url[..start - 3] == parts.scheme && url[start..end] == parts.authority && url[end..] == parts.rest;
  }

  /** The validator accepts exactly the texts of the grammar, and each has one reading. */
  lemma DownloadUrlGrammar(url: seq<byte>, parts: UrlParts)
    ensures IsDownloadUrl(url) <==> |url| <= MAXIMUM_URL_LENGTH && exists p :: IsUrlParts(p) && UrlText(p) == url
    ensures IsDownloadUrl(url) && IsUrlParts(parts) && UrlText(parts) == url ==> parts == PartsOf(url)
  {
    if IsDownloadUrl(url) {
      PartsOfUrl(url);
    }
    forall p | IsUrlParts(p) && UrlText(p) == url && |url| <= MAXIMUM_URL_LENGTH
      ensures IsDownloadUrl(url) && PartsOf(url) == p
    {
      UrlOfParts(p);
    }
  }

  /** After the prefix test the first "://" sits right behind the scheme: the search cannot come back empty. */
  lemma SchemeEndFound(url: seq<byte>)
    requires AuthorityStart(url) > 0
    ensures AuthorityStart(url) <= |url| && FindText(url, SCHEME_SEPARATOR, 0) == AuthorityStart(url) - 3
  {
    hide AuthorityStart;
    var at := AuthorityStart(url) - 3;
    SeparatorLiteral(url);
    assert SCHEME_SEPARATOR <= url[at..] by {
      assert url[at..][..3] == SCHEME_SEPARATOR;
    }
    forall k | 0 <= k < at
      ensures !(SCHEME_SEPARATOR <= url[k..])
    {
      SchemeLetter(url, k);
      assert url[k..][0] == url[k];
    }
  }

  lemma SchemeLetter(url: seq<byte>, k: nat)
    requires AuthorityStart(url) > 0 && k < AuthorityStart(url) - 3
    ensures url[k] != SCHEME_SEPARATOR[0]
  {
    var prefix := if AuthorityStart(url) == 7 then HTTP_PREFIX else HTTPS_PREFIX;
    assert prefix[k] == 104 || prefix[k] == 116 || prefix[k] == 112 || prefix[k] == 115;
    assert ToLower(url[k]) == ToLower(prefix[k]);
  }

  method IsDownloadUrlValid(url: seq<byte>) returns (valid: bool)
    ensures valid == IsDownloadUrl(url)
  {
    if url == [] || |url| > MAXIMUM_URL_LENGTH {
      return false;
    }
    var http := StartsWithCaseInsensitive(url, HTTP_PREFIX);
    var https := StartsWithCaseInsensitive(url, HTTPS_PREFIX);
    if !http && !https {
      return false;
    }
    SchemeEndFound(url);
    var schemeEnd := FindText(url, SCHEME_SEPARATOR, 0);
    assert schemeEnd < |url|;  // so the separator is never missing
    var authorityStart := schemeEnd + 3;
    var authorityEnd := FindAny(url, {SLASH, QUESTION, HASH}, authorityStart);
    var authority := url[authorityStart..authorityEnd];
    if authority == [] || AT in authority || BACKSLASH in url || HASH in url {
      return false;
    }
    assert forall i | 0 <= i < |url| :: url[i] in url;
    return forall i | 0 <= i < |url| :: IsPrintable(url[i]);
  }

  // The character classes, spelled out.

  lemma InRun(b: byte, first: byte, run: string)
    requires forall i | 0 <= i < |run| :: run[i] as int == first + i
    ensures b as char in run <==> first <= b < first + |run|
  {
    if first <= b < first + |run| {
      assert run[b - first] == b as char;
    }
  }

  lemma NameBytes(b: byte)
    ensures IsAsciiIdentifierByte(b) <==>
            || b as char in "ABCDEFGHIJKLMNOPQRSTUVWXYZ" || b as char in "abcdefghijklmnopqrstuvwxyz"
            || b as char in "0123456789" || b as char in "_-./"
  {
    InRun(b, 65, "ABCDEFGHIJKLMNOPQRSTUVWXYZ");
    InRun(b, 97, "abcdefghijklmnopqrstuvwxyz");
    InRun(b, 48, "0123456789");
    assert b as char in "_-./" <==> b == 95 || b == 45 || b == 46 || b == 47;
  }

  lemma UrlBytes(url: seq<byte>)
    ensures HasUrlBytes(url) <==> forall b | b in url :: 33 <= b <= 126 && b as char != '\\' && b as char != '#'
  {
    assert forall i | 0 <= i < |url| :: url[i] in url;
  }

  lemma CaseBlind(b: byte, i: nat)
    requires i < 26
    ensures ToLower("ABCDEFGHIJKLMNOPQRSTUVWXYZ"[i] as int) == "abcdefghijklmnopqrstuvwxyz"[i] as int
    ensures b as char !in "ABCDEFGHIJKLMNOPQRSTUVWXYZ" ==> ToLower(b) == b
  {
    if 'A' as int <= b <= 'Z' as int {
      assert "ABCDEFGHIJKLMNOPQRSTUVWXYZ"[b - 'A' as int] == b as char;
    }
  }

  // Whole descriptions.

  predicate IsAssetTypeValid(kind: AssetType) {
    kind == DFF || kind == TXD
  }

  predicate IsDescriptionValid(asset: AssetDescription) {
    && asset.assetId != 0
    && IsAssetTypeValid(asset.kind)
    && IsLogicalName(asset.logicalName)
    && IsDownloadUrl(asset.downloadUrl)
    && 1 <= asset.fileSize <= MAXIMUM_INDIVIDUAL_FILE_SIZE
  }

  method IsAssetDescriptionValid(asset: AssetDescription) returns (valid: bool)
    ensures valid == IsDescriptionValid(asset)
  {
    var name := IsLogicalNameValid(asset.logicalName);
    var url := IsDownloadUrlValid(asset.downloadUrl);
    return asset.assetId != 0 && IsAssetTypeValid(asset.kind) && name && url && asset.fileSize != 0 &&
           asset.fileSize <= MAXIMUM_INDIVIDUAL_FILE_SIZE;
  }

  /** The metadata cost a receiver charges for one asset. The program guards its sum against
      size_t overflow; no string is that long, so the guard is not modelled. */
  function SerializedAssetBytes(asset: AssetDescription): nat {
    8 + 4 + 4 + 2 + 2 + 2 + 8 + 32 + |asset.logicalName| + |asset.downloadUrl|
  }

  function TotalSize(assets: seq<AssetDescription>): nat {
    if assets == [] then 0 else TotalSize(assets[..|assets| - 1]) + assets[|assets| - 1].fileSize
  }

  function TotalBytes(assets: seq<AssetDescription>): nat {
    if assets == [] then 0 else TotalBytes(assets[..|assets| - 1]) + SerializedAssetBytes(assets[|assets| - 1])
  }

  predicate DistinctIds(assets: seq<AssetDescription>) {
    forall i, j | 0 <= i < j < |assets| :: assets[i].assetId != assets[j].assetId
  }

  predicate DistinctNames(assets: seq<AssetDescription>) {
    forall i, j | 0 <= i < j < |assets| :: assets[i].logicalName != assets[j].logicalName
  }

  /** What every published and every accepted manifest satisfies. */
  predicate IsManifest(m: Manifest) {
    && m.revision != 0
    && |m.assets| <= MAXIMUM_ASSETS_PER_MANIFEST
    && (forall asset | asset in m.assets :: IsDescriptionValid(asset))
    && DistinctIds(m.assets)
    && DistinctNames(m.assets)
    && TotalSize(m.assets) == m.totalDownloadSize <= MAXIMUM_TOTAL_DOWNLOAD_SIZE
  }

  /** Valid assets never come near the metadata budget. */
  lemma {:induction false} TotalBytesBounded(assets: seq<AssetDescription>)
    requires forall asset | asset in assets :: IsDescriptionValid(asset)
    ensures TotalBytes(assets) <= 2206 * |assets|
  {
    if assets != [] {
      assert assets[|assets| - 1] in assets;
      TotalBytesBounded(assets[..|assets| - 1]);
    }
  }

  lemma {:induction false} TotalSizePrefix(assets: seq<AssetDescription>, n: nat)
    requires n <= |assets|
    ensures TotalSize(assets[..n]) <= TotalSize(assets)
  {
    if n < |assets| {
      assert assets[..|assets| - 1][..n] == assets[..n];
      TotalSizePrefix(assets[..|assets| - 1], n);
    } else {
      assert assets[..n] == assets;
    }
  }
}
