/** The decoder accepts exactly the encoder's image, and each undoes the other. */
module ProtocolExactness {
  import opened Bytes
  import opened Assets
  import opened Protocol

  // Field by field: reading takes off what writing put in front, and only that.

  lemma ReadsU16(v: u16, tail: seq<byte>)
    ensures ReadU16(U16(v) + tail) == Parsed(v, tail)
  {
    FieldU16(v, 0, 0);
    assert (U16(v) + tail)[2..] == tail;
  }

  lemma ReadFromU16(b: seq<byte>)
    ensures ReadU16(b).Parsed? ==> b == U16(ReadU16(b).value) + ReadU16(b).rest
  {
    if |b| >= 2 {
      FieldU16(0, b[0], b[1]);
    }
  }

  lemma ReadsU32(v: u32, tail: seq<byte>)
    ensures ReadU32(U32(v) + tail) == Parsed(v, tail)
  {
    FieldU32(v);
    assert (U32(v) + tail)[4..] == tail;
  }

  lemma ReadFromU32(b: seq<byte>)
    ensures ReadU32(b).Parsed? ==> b == U32(ReadU32(b).value) + ReadU32(b).rest
  {
    if |b| >= 4 {
      FieldBytes32(b[0], b[1], b[2], b[3]);
    }
  }

  lemma ReadsU64(v: u64, tail: seq<byte>)
    ensures ReadU64(U64(v) + tail) == Parsed(v, tail)
  {
    var hi, lo := v / 0x1_0000_0000, v % 0x1_0000_0000;
    assert U64(v) + tail == U32(hi) + (U32(lo) + tail);
    ReadsU32(hi, U32(lo) + tail);
    ReadsU32(lo, tail);
    FieldU64(v, hi, lo);
  }

  lemma ReadFromU64(b: seq<byte>)
    ensures ReadU64(b).Parsed? ==> b == U64(ReadU64(b).value) + ReadU64(b).rest
  {
    ReadFromU32(b);
    if ReadU32(b).Parsed? {
      var b1 := ReadU32(b).rest;
      ReadFromU32(b1);
      if ReadU32(b1).Parsed? {
        FieldU64(0, ReadU32(b).value, ReadU32(b1).value);
      }
    }
  }

  lemma ReadsString(s: seq<byte>, maximum: nat, tail: seq<byte>)
    requires |s| <= maximum < 0x1_0000
    ensures ReadString(WithString(s, tail), maximum) == Parsed(s, tail)
  {
    hide U16, ReadU16;
    ReadsU16(|s|, s + tail);
    assert (s + tail)[..|s|] == s && (s + tail)[|s|..] == tail;
  }

  lemma ReadFromString(b: seq<byte>, maximum: nat)
    requires maximum < 0x1_0000
    ensures var r := ReadString(b, maximum); r.Parsed? ==> |r.value| <= maximum && b == WithString(r.value, r.rest)
  {
    ReadFromU16(b);
    if ReadString(b, maximum).Parsed? {
      var b1 := ReadU16(b).rest;
      assert b1 == b1[..ReadU16(b).value] + b1[ReadU16(b).value..];
    }
  }

  lemma ReadsVersion(v: RuntimeVersion, tail: seq<byte>)
    ensures ReadVersion(WithVersion(v, tail)) == Parsed(v, tail)
  {
    ReadsU16(v.major, U16(v.minor) + (U16(v.patch) + tail));
    ReadsU16(v.minor, U16(v.patch) + tail);
    ReadsU16(v.patch, tail);
  }

  lemma ReadFromVersion(b: seq<byte>)
    ensures var r := ReadVersion(b); r.Parsed? ==> b == WithVersion(r.value, r.rest)
  {
    if ReadVersion(b).Parsed? {
      ReadFromU16(b);
      var b1 := ReadU16(b).rest;
      ReadFromU16(b1);
      ReadFromU16(ReadU16(b1).rest);
    }
  }

  lemma ReadsDescription(a: AssetDescription, tail: seq<byte>)
    requires |a.logicalName| <= MAXIMUM_LOGICAL_NAME_LENGTH && |a.downloadUrl| <= MAXIMUM_URL_LENGTH
    ensures ReadDescriptionFields(WithDescription(a, tail)) == Parsed(a, tail)
  {
    var t5 := a.sha256 + tail;
    var t4 := U64(a.fileSize) + t5;
    var t3 := WithString(a.downloadUrl, t4);
    var t2 := WithString(a.logicalName, t3);
    ReadsU32(a.assetId, U16(a.kind) + t2);
    ReadsU16(a.kind, t2);
    ReadsString(a.logicalName, MAXIMUM_LOGICAL_NAME_LENGTH, t3);
    ReadsString(a.downloadUrl, MAXIMUM_URL_LENGTH, t4);
    ReadsU64(a.fileSize, t5);
    assert t5[..32] == a.sha256 && t5[32..] == tail;
  }

  lemma ReadFromDescription(b: seq<byte>)
    ensures var r := ReadDescriptionFields(b);
            r.Parsed? ==> && |r.value.logicalName| <= MAXIMUM_LOGICAL_NAME_LENGTH && |r.value.downloadUrl| <= MAXIMUM_URL_LENGTH
                          && b == WithDescription(r.value, r.rest)
  {
    hide ReadU16, ReadU32, ReadU64, ReadString;
    if ReadDescriptionFields(b).Parsed? {
      ReadFromU32(b);
      var b1 := ReadU32(b).rest;
      ReadFromU16(b1);
      var b2 := ReadU16(b1).rest;
      ReadFromString(b2, MAXIMUM_LOGICAL_NAME_LENGTH);
      var b3 := ReadString(b2, MAXIMUM_LOGICAL_NAME_LENGTH).rest;
      ReadFromString(b3, MAXIMUM_URL_LENGTH);
      var b4 := ReadString(b3, MAXIMUM_URL_LENGTH).rest;
      ReadFromU64(b4);
      var b5 := ReadU64(b4).rest;
      assert b5 == b5[..32] + b5[32..];
    }
  }

  lemma ReadsBoundary(revision: u64, count: u32, total: u64, tail: seq<byte>)
    ensures ReadBoundary(WithBoundary(revision, count, total, tail)) ==
            if IsManifestBoundaryValid(revision, count, total) then Parsed((revision, count, total), tail) else NotRead(InvalidField)
  {
    ReadsU64(revision, U32(count) + (U64(total) + tail));
    ReadsU32(count, U64(total) + tail);
    ReadsU64(total, tail);
  }

  lemma ReadFromBoundary(b: seq<byte>)
    ensures var r := ReadBoundary(b);
            r.Parsed? ==> && IsManifestBoundaryValid(r.value.0, r.value.1, r.value.2)
                          && b == WithBoundary(r.value.0, r.value.1, r.value.2, r.rest)
  {
    if ReadBoundary(b).Parsed? {
      ReadFromU64(b);
      var b1 := ReadU64(b).rest;
      ReadFromU32(b1);
      ReadFromU64(ReadU32(b1).rest);
    }
  }

  // Payload by payload.

  /** No text is longer than a reader takes. */
  predicate IsLegible(m: Message) {
    m.ManifestAsset? ==>
      |m.asset.logicalName| <= MAXIMUM_LOGICAL_NAME_LENGTH && |m.asset.downloadUrl| <= MAXIMUM_URL_LENGTH
  }

  lemma EncodableLegible(m: Message)
    requires IsEncodable(m)
    ensures IsLegible(m)
  {}

  function ReadBack(m: Message, tail: seq<byte>): Read<Message> {
    if IsEncodable(m) then Parsed(m, tail) else NotRead(InvalidField)
  }

  lemma ReadsHello(m: Message, tail: seq<byte>)
    requires m.Hello?
    ensures ReadHello(WithPayload(m, tail)) == ReadBack(m, tail)
  {
    var t3 := U32(m.capabilities) + tail;
    var t2 := U16(m.sampVersion) + t3;
    ReadsVersion(m.runtimeVersion, U16(m.protocolVersion) + t2);
    ReadsU16(m.protocolVersion, t2);
    ReadsU16(m.sampVersion, t3);
    ReadsU32(m.capabilities, tail);
  }

  lemma ReadsWelcome(m: Message, tail: seq<byte>)
    requires m.Welcome?
    ensures ReadWelcome(WithPayload(m, tail)) == ReadBack(m, tail)
  {
    var t3 := U32(m.negotiatedCapabilities) + tail;
    var t2 := U16(m.serverProtocolVersion) + t3;
    ReadsU16(m.acceptedProtocolVersion, WithVersion(m.serverRuntimeVersion, t2));
    ReadsVersion(m.serverRuntimeVersion, t2);
    ReadsU16(m.serverProtocolVersion, t3);
    ReadsU32(m.negotiatedCapabilities, tail);
  }

  lemma ReadsManifestAsset(m: Message, tail: seq<byte>)
    requires m.ManifestAsset? && IsLegible(m)
    ensures ReadManifestAsset(WithPayload(m, tail)) == ReadBack(m, tail)
  {
    var t := WithDescription(m.asset, tail);
    ReadsU64(m.manifestRevision, U32(m.assetIndex) + t);
    ReadsU32(m.assetIndex, t);
    ReadsDescription(m.asset, tail);
  }

  lemma ReadsReport(m: Message, tail: seq<byte>)
    requires m.AssetReady? || m.AssetError?
    ensures m.AssetReady? ==> ReadAssetReady(WithPayload(m, tail)) == ReadBack(m, tail)
    ensures m.AssetError? ==> ReadAssetError(WithPayload(m, tail)) == ReadBack(m, tail)
  {
    var t := if m.AssetReady? then tail else U16(m.reason) + tail;
    ReadsU64(m.manifestRevision, U32(m.assetId) + t);
    ReadsU32(m.assetId, t);
    if m.AssetError? {
      ReadsU16(m.reason, tail);
    }
  }

  lemma ReadsPayload(m: Message, tail: seq<byte>)
    requires IsLegible(m)
    ensures ReadPayload(TypeOf(m), WithPayload(m, tail)) == ReadBack(m, tail)
  {
    hide IsDescriptionValid, ReadHello, ReadWelcome, ReadManifestAsset, ReadAssetReady, ReadAssetError, ReadBoundary, ReadU16, ReadU64;
    match m {
      case Hello(_, _, _, _) => ReadsHello(m, tail);
      case Welcome(_, _, _, _) => ReadsWelcome(m, tail);
      case Reject(reason) => ReadsU16(reason, tail);
      case Ping(nonce) => ReadsU64(nonce, tail);
      case Pong(nonce) => ReadsU64(nonce, tail);
      case ManifestBegin(revision, count, total) => ReadsBoundary(revision, count, total, tail);
      case ManifestAsset(_, _, _) => ReadsManifestAsset(m, tail);
      case ManifestEnd(revision, count, total) => ReadsBoundary(revision, count, total, tail);
      case AssetReady(_, _) => ReadsReport(m, tail);
      case AssetError(_, _, _) => ReadsReport(m, tail);
    }
  }

  /** The payload image of a message in front of a tail, for the messages that have one. */
  function ImageOf(m: Message, tail: seq<byte>): Option<seq<byte>> {
    if IsEncodable(m) then Some(WithPayload(m, tail)) else None
  }

  /** What a successful read has taken off is the image of what it returned. */
  ghost predicate IsImage(kind: u16, b: seq<byte>, r: Read<Message>) {
    r.Parsed? ==> TypeOf(r.value) == kind && ImageOf(r.value, r.rest) == Some(b)
  }

  lemma ReadFromHello(b: seq<byte>)
    ensures IsImage(1, b, ReadHello(b))
  {
    if ReadHello(b).Parsed? {
      ReadFromVersion(b);
      var b1 := ReadVersion(b).rest;
      ReadFromU16(b1);
      var b2 := ReadU16(b1).rest;
      ReadFromU16(b2);
      ReadFromU32(ReadU16(b2).rest);
    }
  }

  lemma ReadFromWelcome(b: seq<byte>)
    ensures IsImage(2, b, ReadWelcome(b))
  {
    if ReadWelcome(b).Parsed? {
      ReadFromU16(b);
      var b1 := ReadU16(b).rest;
      ReadFromVersion(b1);
      var b2 := ReadVersion(b1).rest;
      ReadFromU16(b2);
      ReadFromU32(ReadU16(b2).rest);
    }
  }

  lemma ReadFromManifestAsset(b: seq<byte>)
    ensures IsImage(7, b, ReadManifestAsset(b))
  {
    hide IsDescriptionValid, ReadU32, ReadU64, ReadDescriptionFields;
    if ReadManifestAsset(b).Parsed? {
      ReadFromU64(b);
      var b1 := ReadU64(b).rest;
      ReadFromU32(b1);
      var b2 := ReadU32(b1).rest;
      ReadFromDescription(b2);
    }
  }

  lemma ReadFromReport(b: seq<byte>)
    ensures IsImage(9, b, ReadAssetReady(b)) && IsImage(10, b, ReadAssetError(b))
  {
    ReadFromU64(b);
    if ReadU64(b).Parsed? {
      var b1 := ReadU64(b).rest;
      ReadFromU32(b1);
      if ReadU32(b1).Parsed? {
        ReadFromU16(ReadU32(b1).rest);
      }
    }
  }

  lemma ReadFromPayload(kind: u16, b: seq<byte>)
    requires 1 <= kind <= 10
    ensures IsImage(kind, b, ReadPayload(kind, b))
  {
    match kind {
      case 1 => ReadFromHello(b);
      case 2 => ReadFromWelcome(b);
      case 3 => ReadFromU16(b);
      case 4 => ReadFromU64(b);
      case 5 => ReadFromU64(b);
      case 6 => ReadFromBoundary(b);
      case 7 => ReadFromManifestAsset(b);
      case 8 => ReadFromBoundary(b);
      case _ => ReadFromReport(b);
    }
  }

  // Whole packets.

  /** The header of a packet, read back. */
  lemma HeaderRead(kind: u16, size: u32, rest: seq<byte>)
    ensures ReadHeader(HeaderOf(kind, size) + rest) == Header(MAGIC, PROTOCOL_VERSION, kind, size)
    ensures (HeaderOf(kind, size) + rest)[HEADER_SIZE..] == rest
  {
    FieldU32(MAGIC);
    FieldU16(PROTOCOL_VERSION, 0, 0);
    FieldU16(kind, 0, 0);
    FieldU32(size);
  }

  lemma HeaderFromFields(b: seq<byte>)
    requires |b| >= HEADER_SIZE
    requires ReadHeader(b).magic == MAGIC && ReadHeader(b).version == PROTOCOL_VERSION
    ensures b[..HEADER_SIZE] == HeaderOf(ReadHeader(b).kind, ReadHeader(b).size)
  {
    FieldBytes32(b[0], b[1], b[2], b[3]);
    FieldU16(0, b[4], b[5]);
    FieldU16(0, b[6], b[7]);
    FieldBytes32(b[8], b[9], b[10], b[11]);
  }

  lemma DecodedPayload(m: Message)
    requires IsLegible(m)
    ensures DecodePayload(TypeOf(m), PayloadOf(m)) == if IsEncodable(m) then Decoded(m) else NotDecoded(InvalidField)
  {
    hide ReadPayload, WithPayload, IsEncodable, IsLegible;
    ReadsPayload(m, []);
  }

  /** Decoding undoes encoding. */
  lemma DecodeOfEncode(m: Message)
    requires IsEncodable(m)
    ensures DecodePacket(PacketOf(m)) == Decoded(m)
  {
    hide ReadHeader, DecodePayload, PayloadOf, IsEncodable, HeaderOf, PayloadSize;
    PayloadLength(m);
    HeaderRead(TypeOf(m), |PayloadOf(m)|, PayloadOf(m));
    EncodableLegible(m);
    DecodedPayload(m);
  }

  /** What an accepted packet's header says. */
  lemma DecodedHeader(b: seq<byte>)
    requires DecodePacket(b).Decoded?
    ensures HEADER_SIZE <= |b| <= MAXIMUM_PACKET_SIZE
    ensures var kind := ReadHeader(b).kind;
            && 1 <= kind <= 10
            && b[..HEADER_SIZE] == HeaderOf(kind, |b| - HEADER_SIZE)
            && DecodePacket(b) == DecodePayload(kind, b[HEADER_SIZE..])
  {
    hide DecodePayload;
    HeaderFromFields(b);
  }

  /** Encoding undoes decoding, byte for byte. */
  lemma EncodeOfDecode(b: seq<byte>)
    requires DecodePacket(b).Decoded?
    ensures EncodePacket(DecodePacket(b).message, PROTOCOL_VERSION) == Encoded(b)
  {
    hide ReadPayload, WithPayload, IsEncodable, DecodePacket, HeaderOf, ReadHeader;
    DecodedHeader(b);
    var payload := b[HEADER_SIZE..];
    ReadFromPayload(ReadHeader(b).kind, payload);
    assert b == b[..HEADER_SIZE] + payload;
  }

  /** The decoder's language is the encoder's image, and decoding is the inverse on it. */
  lemma CodecExactness(b: seq<byte>, m: Message)
    ensures DecodePacket(b) == Decoded(m) <==> EncodePacket(m, PROTOCOL_VERSION) == Encoded(b)
  {
    hide DecodePacket, PacketOf, IsEncodable;
    if DecodePacket(b) == Decoded(m) {
      EncodeOfDecode(b);
    }
    if EncodePacket(m, PROTOCOL_VERSION) == Encoded(b) {
      DecodeOfEncode(m);
    }
  }

  /** Losing any tail of a packet is noticed, with the error that says whether the header survived. */
  lemma TruncatedPacket(m: Message, cut: nat)
    requires IsEncodable(m)
    requires cut < |PacketOf(m)|
    ensures DecodePacket(PacketOf(m)[..cut]) == NotDecoded(if cut < HEADER_SIZE then TruncatedHeader else TruncatedPayload)
  {
    hide IsEncodable, HeaderOf, DecodePayload, PayloadOf, PayloadSize, ReadHeader;
    PayloadLength(m);
    if cut >= HEADER_SIZE {
      var rest := PayloadOf(m)[..cut - HEADER_SIZE];
      assert PacketOf(m)[..cut] == HeaderOf(TypeOf(m), |PayloadOf(m)|) + rest;
      HeaderRead(TypeOf(m), |PayloadOf(m)|, rest);
    }
  }

  /** So is any byte too many. */
  lemma ExtendedPacket(m: Message, extra: seq<byte>)
    requires IsEncodable(m)
    requires extra != []
    ensures DecodePacket(PacketOf(m) + extra) == NotDecoded(PayloadLengthMismatch)
  {
    hide IsEncodable, HeaderOf, DecodePayload, PayloadOf, PayloadSize, ReadHeader;
    PayloadLength(m);
    var rest := PayloadOf(m) + extra;
    assert PacketOf(m) + extra == HeaderOf(TypeOf(m), |PayloadOf(m)|) + rest;
    HeaderRead(TypeOf(m), |PayloadOf(m)|, rest);
  }
}
