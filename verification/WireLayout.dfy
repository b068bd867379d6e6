/** The documented packet layout, table by table, and the codec's agreement with it: which bytes a message becomes, and what
    is said about bytes that are no message. */
module WireLayout {
  import opened Bytes
  import opened Assets
  import opened Protocol
  import opened ProtocolExactness

  /** A row of a layout table: a number of so many bytes, most significant first; a text behind its 2-byte length; or
      bytes as they are. */
  datatype Field = Number(width: nat, value: nat) | Text(text: seq<byte>) | Raw(bytes: seq<byte>)

  function BigEndian(value: nat, width: nat): seq<byte> {
    if width == 0 then [] else BigEndian(value / 0x100, width - 1) + [value % 0x100]
  }

  function Image(f: Field): seq<byte> {
    match f
    case Number(width, value) => BigEndian(value, width)
    case Text(text) => BigEndian(|text|, 2) + text
    case Raw(bytes) => bytes
  }

  function Laid(fields: seq<Field>, from: nat): seq<byte>
    requires from <= |fields|
    decreases |fields| - from
  {
    if from == |fields| then [] else Image(fields[from]) + Laid(fields, from + 1)
  }

  /** The number some bytes stand for. */
  function Value(bytes: seq<byte>): nat {
    if bytes == [] then 0 else Value(bytes[..|bytes| - 1]) * 0x100 + bytes[|bytes| - 1]
  }

  // The tables.

  function IdOf(m: Message): nat {
    if m.Hello? then 1 else if m.Welcome? then 2 else if m.Reject? then 3 else if m.Ping? then 4 else if m.Pong? then 5
    else if m.ManifestBegin? then 6 else if m.ManifestAsset? then 7 else if m.ManifestEnd? then 8
    else if m.AssetReady? then 9 else 10
  }

  function Version(v: RuntimeVersion): seq<Field> {
    [Number(2, v.major), Number(2, v.minor), Number(2, v.patch)]
  }

  function Layout(m: Message): seq<Field> {
    match m
    case Hello(runtime, protocol, samp, capabilities) =>
      Version(runtime) + [Number(2, protocol), Number(2, samp), Number(4, capabilities)]
    case Welcome(accepted, runtime, protocol, negotiated) =>
      [Number(2, accepted)] + Version(runtime) + [Number(2, protocol), Number(4, negotiated)]
    case Reject(reason) => [Number(2, reason)]
    case Ping(nonce) => [Number(8, nonce)]
    case Pong(nonce) => [Number(8, nonce)]
    case ManifestBegin(revision, count, total) => [Number(8, revision), Number(4, count), Number(8, total)]
    case ManifestAsset(revision, index, asset) =>
      [Number(8, revision), Number(4, index), Number(4, asset.assetId), Number(2, asset.kind), Text(asset.logicalName),
       Text(asset.downloadUrl), Number(8, asset.fileSize), Raw(asset.sha256)]
    case ManifestEnd(revision, count, total) => [Number(8, revision), Number(4, count), Number(8, total)]
    case AssetReady(revision, id) => [Number(8, revision), Number(4, id)]
    case AssetError(revision, id, reason) => [Number(8, revision), Number(4, id), Number(2, reason)]
  }

  // Numbers.

  lemma SmallNumbers(v: u32)
    ensures v < 0x1_0000 ==> BigEndian(v, 2) == U16(v)
    ensures BigEndian(v, 4) == U32(v)
  {
    var (v1, v2, v3) := (v / 0x100, v / 0x100 / 0x100, v / 0x100 / 0x100 / 0x100);
    assert v2 == v / 0x1_0000 && v3 == v / 0x100_0000;
    assert BigEndian(v3, 1) == [v3 % 0x100] && BigEndian(v2, 2) == BigEndian(v3, 1) + [v2 % 0x100];
    assert BigEndian(v1, 3) == BigEndian(v2, 2) + [v1 % 0x100];
    assert v < 0x1_0000 ==> BigEndian(v1, 1) == [v1];
  }

  lemma LastByte(a: nat, low: nat)
    ensures (a * 0x100 + low) % 0x100 == low % 0x100 && (a * 0x100 + low) / 0x100 == a + low / 0x100
  {}

  lemma RemainingBytes(low: u32)
    ensures low / 0x100 / 0x100 == low / 0x1_0000 && low / 0x100 / 0x100 / 0x100 == low / 0x100_0000
    ensures low / 0x100_0000 < 0x100
  {}

  /** The low four bytes of a number are those of its remainder. */
  lemma LowBytes(hi: nat, low: u32)
    ensures var v := hi * 0x1_0000_0000 + low;
            && v % 0x100 == low % 0x100 && v / 0x100 % 0x100 == low / 0x100 % 0x100
            && v / 0x100 / 0x100 % 0x100 == low / 0x1_0000 % 0x100
            && v / 0x100 / 0x100 / 0x100 % 0x100 == low / 0x100_0000 && v / 0x100 / 0x100 / 0x100 / 0x100 == hi
  {
    RemainingBytes(low);
    var v := hi * 0x1_0000_0000 + low;
    LastByte(hi * 0x100_0000, low);
    assert v / 0x100 == hi * 0x100_0000 + low / 0x100;
    LastByte(hi * 0x1_0000, low / 0x100);
    assert v / 0x100 / 0x100 == hi * 0x1_0000 + low / 0x1_0000;
    LastByte(hi * 0x100, low / 0x1_0000);
    assert v / 0x100 / 0x100 / 0x100 == hi * 0x100 + low / 0x100_0000;
    LastByte(hi, low / 0x100_0000);
  }

  lemma BigNumber(v: u64)
    ensures BigEndian(v, 8) == U64(v)
  {
    var (hi, low) := (v / 0x1_0000_0000, v % 0x1_0000_0000);
    SmallNumbers(hi);
    LowBytes(hi, low);
    var (v1, v2, v3) := (v / 0x100, v / 0x100 / 0x100, v / 0x100 / 0x100 / 0x100);
    hide U32;
    assert BigEndian(v, 8) == BigEndian(v1, 7) + [v % 0x100];
    assert BigEndian(v1, 7) == BigEndian(v2, 6) + [v1 % 0x100];
    assert BigEndian(v2, 6) == BigEndian(v3, 5) + [v2 % 0x100];
    assert BigEndian(v3, 5) == BigEndian(hi, 4) + [v3 % 0x100];
    LowImage(low);
  }

  lemma LowImage(low: u32)
    ensures U32(low) == [low / 0x100_0000, low / 0x1_0000 % 0x100, low / 0x100 % 0x100, low % 0x100]
  {}

  // Messages.

  /** One row at a time. */
  lemma Row(fields: seq<Field>, i: nat)
    requires i < |fields|
    ensures Laid(fields, i) == Image(fields[i]) + Laid(fields, i + 1)
  {}

  lemma Rows(fields: seq<Field>)
    ensures forall i | 0 <= i < |fields| :: Laid(fields, i) == Image(fields[i]) + Laid(fields, i + 1)
    ensures Laid(fields, |fields|) == []
  {
    forall i | 0 <= i < |fields| {
      Row(fields, i);
    }
  }

  /** The rows in the codec's own terms. */
  lemma Images()
    ensures forall v: u16 :: Image(Number(2, v)) == U16(v)
    ensures forall v: u32 :: Image(Number(4, v)) == U32(v)
    ensures forall v: u64 :: Image(Number(8, v)) == U64(v)
    ensures forall text: seq<byte>, tail: seq<byte> | |text| < 0x1_0000 :: Image(Text(text)) + tail == WithString(text, tail)
  {
    hide BigEndian, U16, U32, U64;
    forall v: u16 {
      SmallNumbers(v);
    }
    forall v: u32 {
      SmallNumbers(v);
    }
    forall v: u64 {
      BigNumber(v);
    }
    forall text: seq<byte>, tail: seq<byte> | |text| < 0x1_0000
      ensures Image(Text(text)) + tail == WithString(text, tail)
    {
      SmallNumbers(|text|);
    }
  }

  lemma LaidVersion(v: RuntimeVersion, fields: seq<Field>, i: nat)
    requires i + 3 <= |fields| && fields[i..i + 3] == Version(v)
    ensures Laid(fields, i) == WithVersion(v, Laid(fields, i + 3))
  {
    hide Image, U16;
    Images();
    Rows(fields);
    assert fields[i] == Version(v)[0] && fields[i + 1] == Version(v)[1] && fields[i + 2] == Version(v)[2];
  }

  lemma LaidAsset(m: Message)
    requires m.ManifestAsset? && IsLegible(m)
    ensures Laid(Layout(m), 0) == PayloadOf(m)
  {
    hide Image, U16, U32, U64, Laid;
    var (fields, asset) := (Layout(m), m.asset);
    Images();
    Rows(fields);
    assert Laid(fields, 8) == [];
    assert Laid(fields, 6) == U64(asset.fileSize) + (asset.sha256 + []) by {
      assert Image(fields[7]) == asset.sha256 by {
        RawImage(asset.sha256);
      }
    }
    assert Laid(fields, 5) == Image(Text(asset.downloadUrl)) + Laid(fields, 6) == WithString(asset.downloadUrl, Laid(fields, 6));
    assert Laid(fields, 4) == Image(Text(asset.logicalName)) + Laid(fields, 5) == WithString(asset.logicalName, Laid(fields, 5));
    assert Laid(fields, 3) == U16(asset.kind) + Laid(fields, 4);
    assert Laid(fields, 2) == WithDescription(asset, []);
    assert Laid(fields, 1) == U32(m.assetIndex) + Laid(fields, 2);
  }

  lemma RawImage(bytes: seq<byte>)
    ensures Image(Raw(bytes)) == bytes
  {}

  lemma LaidPayload(m: Message)
    requires IsLegible(m)
    ensures Laid(Layout(m), 0) == PayloadOf(m)
  {
    hide Image, U16, U32, U64, Laid;
    var fields := Layout(m);
    Images();
    Rows(fields);
    match m {
      case Hello(runtime, _, _, _) =>
        LaidVersion(runtime, fields, 0);
        assert fields[3] == Number(2, m.protocolVersion) && fields[4] == Number(2, m.sampVersion);
        assert Laid(fields, 5) == U32(m.capabilities) + [];
        assert Laid(fields, 3) == U16(m.protocolVersion) + (U16(m.sampVersion) + Laid(fields, 5));
      case Welcome(_, runtime, _, _) =>
        LaidVersion(runtime, fields, 1);
        assert Laid(fields, 5) == U32(m.negotiatedCapabilities) + [];
      case ManifestAsset(_, _, _) => LaidAsset(m);
      case ManifestBegin(_, _, total) => assert Laid(fields, 2) == U64(total) + [];
      case ManifestEnd(_, _, total) => assert Laid(fields, 2) == U64(total) + [];
      case AssetReady(_, id) => assert Laid(fields, 1) == U32(id) + [];
      case AssetError(_, _, reason) => assert Laid(fields, 2) == U16(reason) + [];
      case _ => assert Laid(fields, 1) == [];
    }
  }

  /** The documented rules for fields. */
  predicate KeepsRules(m: Message) {
    match m
    case Hello(_, _, samp, capabilities) => samp <= 7 && BitClear(capabilities, 0x1F) == 0
    case Welcome(_, _, _, negotiated) => BitClear(negotiated, 0x1F) == 0
    case Reject(reason) => 1 <= reason <= 5
    case Ping(_) => true
    case Pong(_) => true
    case ManifestBegin(revision, count, total) =>
      revision > 0 && count <= 256 && total <= 512 * 1024 * 1024 && (count == 0 ==> total == 0)
    case ManifestAsset(revision, index, asset) =>
      && revision > 0 && index <= 255 && asset.assetId > 0 && (asset.kind == 1 || asset.kind == 2)
      && |asset.logicalName| <= 96 && IsLogicalName(asset.logicalName)
      && |asset.downloadUrl| <= 2048 && IsDownloadUrl(asset.downloadUrl)
      && 1 <= asset.fileSize <= 64 * 1024 * 1024
    case ManifestEnd(revision, count, total) =>
      revision > 0 && count <= 256 && total <= 512 * 1024 * 1024 && (count == 0 ==> total == 0)
    case AssetReady(revision, id) => revision > 0 && id > 0
    case AssetError(revision, id, reason) => revision > 0 && id > 0 && 1 <= reason <= 8
  }

  lemma RulesAreChecked(m: Message)
    ensures IsEncodable(m) <==> KeepsRules(m)
  {
    hide BitAnd, HasUrlBytes, AuthorityStart, Split, IsAsciiIdentifierByte;
  }

  /** The bytes of a message are those of the tables: the four letters, version 1, the message's number, the length, and the
      rows of its own table; and a message that breaks a rule has none. */
  lemma EncodedByTable(m: Message)
    ensures KeepsRules(m) ==>
              var rows := Laid(Layout(m), 0);
              EncodePacket(m, 1) == Encoded([0x43, 0x4D, 0x4F, 0x44, 0, 1, 0, IdOf(m)] + BigEndian(|rows|, 4) + rows)
    ensures !KeepsRules(m) ==> EncodePacket(m, 1) == NotEncoded(EncodeInvalidField)
  {
    hide IsEncodable, KeepsRules, Laid, Layout, BigEndian, PayloadOf, PayloadSize;
    RulesAreChecked(m);
    if IsEncodable(m) {
      EncodableLegible(m);
      LaidPayload(m);
      PayloadLength(m);
      var size := |PayloadOf(m)|;
      SmallNumbers(size);
      FrontOf(m, size);
    }
  }

  lemma FrontOf(m: Message, size: u32)
    ensures HeaderOf(TypeOf(m), size) == [0x43, 0x4D, 0x4F, 0x44, 0, 1, 0, IdOf(m)] + U32(size)
  {
    hide BigEndian;
    assert U32(MAGIC) == [0x43, 0x4D, 0x4F, 0x44];
    var size' := U32(size);
    hide U32;
    assert U16(TypeOf(m)) == [0, IdOf(m)];
  }

  /** The tables' bytes with more bytes behind them and a length that covers both: a message that keeps the rules is refused
      for the bytes left over, if there are any, and one that does not for its fields. */
  lemma RefusedByTable(m: Message, extra: seq<byte>)
    requires IsLegible(m) && |Laid(Layout(m), 0)| + |extra| <= 4084
    ensures var rows := Laid(Layout(m), 0) + extra;
            DecodePacket([0x43, 0x4D, 0x4F, 0x44, 0, 1, 0, IdOf(m)] + BigEndian(|rows|, 4) + rows) ==
            if !KeepsRules(m) then NotDecoded(InvalidField)
            else if extra != [] then NotDecoded(PayloadLengthMismatch)
            else Decoded(m)
  {
    hide IsEncodable, KeepsRules, Laid, Layout, BigEndian, DecodePayload, HeaderOf, ReadHeader, IsLegible;
    RulesAreChecked(m);
    LaidPayload(m);
    var payload := PayloadOf(m) + extra;
    SmallNumbers(|payload|);
    FrontOf(m, |payload|);
    HeaderRead(TypeOf(m), |payload|, payload);
    ExtendedPayload(m, extra);
    assert HeaderOf(TypeOf(m), |payload|) + payload ==
           [0x43, 0x4D, 0x4F, 0x44, 0, 1, 0, IdOf(m)] + BigEndian(|payload|, 4) + payload;
  }

  lemma {:induction false} WithTail(m: Message, tail: seq<byte>)
    ensures WithPayload(m, tail) == PayloadOf(m) + tail
  {
    hide U16, U32, U64;
  }

  lemma ExtendedPayload(m: Message, extra: seq<byte>)
    requires IsLegible(m)
    ensures DecodePayload(TypeOf(m), PayloadOf(m) + extra) ==
            if !IsEncodable(m) then NotDecoded(InvalidField)
            else if extra != [] then NotDecoded(PayloadLengthMismatch)
            else Decoded(m)
  {
    hide ReadPayload, WithPayload, IsEncodable, IsLegible;
    WithTail(m, extra);
    ReadsPayload(m, extra);
  }

  /** Bytes that are refused before any field is read, each for the first of these reasons: fewer than 12; other letters; another
      version; a length over 4084; a length that promises more than there is, or less; and a number that is no message's. */
  lemma RefusedByHeader(b: seq<byte>)
    ensures var e := if DecodePacket(b).NotDecoded? then Some(DecodePacket(b).error) else None;
            && (e == Some(TruncatedHeader) <==> |b| < 12)
            && (|b| >= 12 ==>
                var (kind, size) := (Value(b[6..8]), Value(b[8..12]));
                var (foreign, strange) := (b[..4] != [0x43, 0x4D, 0x4F, 0x44], b[4..6] != [0, 1]);
                var bad := foreign || strange || size > 4084;
                && (e == Some(InvalidMagic) <==> foreign)
                && (e == Some(UnsupportedProtocolVersion) <==> !foreign && strange)
                && (e == Some(OversizedPayload) <==> !foreign && !strange && size > 4084)
                && (!bad && size > |b| - 12 ==> e == Some(TruncatedPayload))
                && (!bad && size < |b| - 12 ==> e == Some(PayloadLengthMismatch))
                && (e == Some(UnknownMessageType) <==> !bad && size == |b| - 12 && !(1 <= kind <= 10)))
  {
    hide DecodePayload, ReadHeader;
    if |b| >= 12 {
      HeaderMeans(b);
      var kind := ReadHeader(b).kind;
      if 1 <= kind <= 10 {
        PayloadErrors(kind, b[12..]);
      }
    }
  }

  lemma HeaderMeans(b: seq<byte>)
    requires |b| >= 12
    ensures var header := ReadHeader(b);
            && (header.magic == MAGIC <==> b[..4] == [0x43, 0x4D, 0x4F, 0x44])
            && (header.version == PROTOCOL_VERSION <==> b[4..6] == [0, 1])
            && header.kind == Value(b[6..8]) && header.size == Value(b[8..12])
  {
    var (kind, size) := (b[6..8], b[8..12]);
    assert kind[..1][..0] == [] && Value(kind[..1]) == b[6];
    assert size[..3][..2] == size[..2] && size[..2][..1] == size[..1] && size[..1][..0] == [];
    assert Value(size[..1]) == b[8];
    assert Value(size[..2]) == Value(size[..1]) * 0x100 + b[9] && Value(size[..3]) == Value(size[..2]) * 0x100 + b[10];
    FieldBytes32(b[0], b[1], b[2], b[3]);
    assert U32(MAGIC) == [0x43, 0x4D, 0x4F, 0x44];
    assert b[..4] == [b[0], b[1], b[2], b[3]] && b[4..6] == [b[4], b[5]];
  }

  /** A field that cannot be read is one that is cut off. */
  lemma FieldErrors(b: seq<byte>)
    ensures var (r2, r4, r8) := (ReadU16(b), ReadU32(b), ReadU64(b));
            && (r2.NotRead? ==> r2.error == TruncatedPayload) && (r4.NotRead? ==> r4.error == TruncatedPayload)
            && (r8.NotRead? ==> r8.error == TruncatedPayload)
    ensures ReadVersion(b).NotRead? ==> ReadVersion(b).error == TruncatedPayload
    ensures forall maximum: nat :: ReadString(b, maximum).NotRead? ==> ReadString(b, maximum).error == TruncatedPayload
    ensures ReadDigest(b).NotRead? ==> ReadDigest(b).error == TruncatedPayload
  {}

  predicate IsFieldError<T>(r: Read<T>) {
    r.NotRead? ==> r.error == TruncatedPayload || r.error == InvalidField
  }

  lemma ReaderErrors(b: seq<byte>)
    ensures IsFieldError(ReadHello(b)) && IsFieldError(ReadWelcome(b)) && IsFieldError(ReadBoundary(b))
    ensures IsFieldError(ReadAssetReady(b)) && IsFieldError(ReadAssetError(b))
  {
    hide ReadU16, ReadU32, ReadU64, ReadVersion, AreCapabilitiesValid, IsManifestBoundaryValid;
    forall b': seq<byte> {
      FieldErrors(b');
    }
  }

  lemma AssetErrors(b: seq<byte>)
    ensures IsFieldError(ReadManifestAsset(b))
  {
    hide ReadU32, ReadU64, ReadDescriptionFields, IsDescriptionValid;
    FieldErrors(b);
    if ReadU64(b).Parsed? {
      var b1 := ReadU64(b).rest;
      FieldErrors(b1);
      if ReadU32(b1).Parsed? {
        DescriptionErrors(ReadU32(b1).rest);
      }
    }
  }

  lemma DescriptionErrors(b: seq<byte>)
    ensures IsFieldError(ReadDescriptionFields(b))
  {
    hide ReadU16, ReadU32, ReadU64, ReadString, ReadDigest;
    FieldErrors(b);
    if ReadU32(b).Parsed? {
      var b1 := ReadU32(b).rest;
      FieldErrors(b1);
      if ReadU16(b1).Parsed? {
        var b2 := ReadU16(b1).rest;
        FieldErrors(b2);
        if ReadString(b2, MAXIMUM_LOGICAL_NAME_LENGTH).Parsed? {
          var b3 := ReadString(b2, MAXIMUM_LOGICAL_NAME_LENGTH).rest;
          FieldErrors(b3);
          if ReadString(b3, MAXIMUM_URL_LENGTH).Parsed? {
            var b4 := ReadString(b3, MAXIMUM_URL_LENGTH).rest;
            FieldErrors(b4);
            if ReadU64(b4).Parsed? {
              FieldErrors(ReadU64(b4).rest);
            }
          }
        }
      }
    }
  }

  /** What goes wrong inside a payload is never blamed on the header. */
  lemma PayloadErrors(kind: u16, payload: seq<byte>)
    requires 1 <= kind <= 10
    ensures var r := DecodePayload(kind, payload);
            r.NotDecoded? ==> r.error == TruncatedPayload || r.error == InvalidField || r.error == PayloadLengthMismatch
  {
    hide ReadU16, ReadU64, ReadHello, ReadWelcome, ReadBoundary, ReadManifestAsset, ReadAssetReady, ReadAssetError;
    ReaderErrors(payload);
    AssetErrors(payload);
    FieldErrors(payload);
  }
}
