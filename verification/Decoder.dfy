/** The cursor reader and the decoder built on it, proved to compute module Protocol's reading functions. */
module Decoder {
  import opened Bytes
  import opened Assets
  import opened Protocol

  class ByteReader {
    const bytes: seq<byte>
    var offset: nat

    ghost predicate Valid()
      reads this
    {
      offset <= |bytes|
    }

    /** What is left to read. */
    ghost function Rest(): seq<byte>
      reads this
      requires Valid()
    {
      bytes[offset..]
    }

    constructor (bytes: seq<byte>)
      ensures Valid() && Rest() == bytes && this.bytes == bytes
    {
      this.bytes := bytes;
      offset := 0;
    }

    function Remaining(): (r: nat)
      reads this
      requires Valid()
      ensures r == |Rest()|
    {
      |bytes| - offset
    }

    method ReadU8() returns (ok: bool, value: byte)
      requires Valid()
      modifies this
      ensures Valid()
      ensures ok == (old(Rest()) != [])
      ensures if ok then value == old(Rest())[0] && Rest() == old(Rest())[1..] else Rest() == []
    {
      if offset >= |bytes| {
        return false, 0;
      }
      value := bytes[offset];
      offset := offset + 1;
      ok := true;
    }

    /** A field too long for what is left is refused, with everything left consumed. */
    method ReadU16() returns (ok: bool, value: u16)
      requires Valid()
      modifies this
      ensures Valid()
      ensures match Protocol.ReadU16(old(Rest()))
              case Parsed(v, rest) => ok && value == v && Rest() == rest
              case NotRead(e) => e == TruncatedPayload && !ok && Rest() == []
    {
      var high, low;
      value := 0;
      ok, high := ReadU8();
      if !ok {
        return;
      }
      ok, low := ReadU8();
      if !ok {
        return;
      }
      value := FromU16(high, low);
    }

    method ReadU32() returns (ok: bool, value: u32)
      requires Valid()
      modifies this
      ensures Valid()
      ensures match Protocol.ReadU32(old(Rest()))
              case Parsed(v, rest) => ok && value == v && Rest() == rest
              case NotRead(e) => e == TruncatedPayload && !ok && Rest() == []
    {
      ghost var was := Rest();
      var read: seq<byte> := [];
      value := 0;
      for i := 0 to 4
        invariant Valid() && |read| == i <= |was| && read == was[..i] && Rest() == was[i..]
      {
        var b;
        ok, b := ReadU8();
        if !ok {
          return;
        }
        read := read + [b];
      }
      ok := true;
      value := FromU32(read[0], read[1], read[2], read[3]);
    }

    method ReadU64() returns (ok: bool, value: u64)
      requires Valid()
      modifies this
      ensures Valid()
      ensures match Protocol.ReadU64(old(Rest()))
              case Parsed(v, rest) => ok && value == v && Rest() == rest
              case NotRead(e) => e == TruncatedPayload && !ok && Rest() == []
    {
      var high, low;
      value := 0;
      ok, high := ReadU32();
      if !ok {
        return;
      }
      ok, low := ReadU32();
      if !ok {
        return;
      }
      value := FromU64(high, low);
    }

    /** Bytes are taken whole or not at all. */
    method ReadDigest() returns (ok: bool, output: Digest)
      requires Valid()
      modifies this
      ensures Valid()
      ensures match Protocol.ReadDigest(old(Rest()))
              case Parsed(v, rest) => ok && output == v && Rest() == rest
              case NotRead(e) => e == TruncatedPayload && !ok && Rest() == old(Rest())
    {
      if 32 > Remaining() {
        return false, seq(32, i => 0);
      }
      output := bytes[offset..offset + 32];
      offset := offset + 32;
      ok := true;
    }

    /** A string is refused when its length exceeds the field's maximum or what is left; the length is consumed. */
    method ReadString(maximumLength: nat) returns (ok: bool, output: seq<byte>)
      requires Valid()
      modifies this
      ensures Valid()
      ensures match Protocol.ReadString(old(Rest()), maximumLength)
              case Parsed(v, rest) => ok && output == v && Rest() == rest
              case NotRead(e) => e == TruncatedPayload && !ok && Rest() == if |old(Rest())| < 2 then [] else old(Rest())[2..]
    {
      var length;
      output := [];
      ok, length := ReadU16();
      if !ok {
        return;
      }
      if length > maximumLength || length > Remaining() {
        return false, [];
      }
      output := bytes[offset..offset + length];
      offset := offset + length;
    }
  }

  method ReadRuntimeVersion(reader: ByteReader) returns (ok: bool, version: RuntimeVersion)
    requires reader.Valid()
    modifies reader
    ensures reader.Valid()
    ensures match ReadVersion(old(reader.Rest()))
            case Parsed(v, rest) => ok && version == v && reader.Rest() == rest
            case NotRead(e) => e == TruncatedPayload && !ok
  {
    hide Protocol.ReadU16;
    var major, minor, patch;
    version := RuntimeVersion(0, 0, 0);
    ok, major := reader.ReadU16();
    if ok {
      ok, minor := reader.ReadU16();
      if ok {
        ok, patch := reader.ReadU16();
        version := RuntimeVersion(major, minor, patch);
      }
    }
  }

  method ReadAssetDescription(reader: ByteReader) returns (result: Read<AssetDescription>)
    requires reader.Valid()
    modifies reader
    ensures reader.Valid()
    ensures result == ReadDescription(old(reader.Rest()))
    ensures result.Parsed? ==> reader.Rest() == result.rest
  {
    hide IsDescriptionValid, Protocol.ReadU16, Protocol.ReadU32, Protocol.ReadU64, Protocol.ReadString, Protocol.ReadDigest;
    var id, kind, name, url, size, digest;
    var ok;
    ok, id := reader.ReadU32();
    if !ok {
      return NotRead(TruncatedPayload);
    }
    ok, kind := reader.ReadU16();
    if !ok {
      return NotRead(TruncatedPayload);
    }
    ok, name := reader.ReadString(MAXIMUM_LOGICAL_NAME_LENGTH);
    if !ok {
      return NotRead(TruncatedPayload);
    }
    ok, url := reader.ReadString(MAXIMUM_URL_LENGTH);
    if !ok {
      return NotRead(TruncatedPayload);
    }
    ok, size := reader.ReadU64();
    if !ok {
      return NotRead(TruncatedPayload);
    }
    ok, digest := reader.ReadDigest();
    if !ok {
      return NotRead(TruncatedPayload);
    }
    var asset := AssetDescription(id, kind, name, url, size, digest);
    var valid := IsAssetDescriptionValid(asset);
    return if valid then Parsed(asset, reader.bytes[reader.offset..]) else NotRead(InvalidField);
  }

  method DecodeHello(reader: ByteReader) returns (result: Read<Message>)
    requires reader.Valid()
    modifies reader
    ensures reader.Valid()
    ensures result == ReadHello(old(reader.Rest()))
    ensures result.Parsed? ==> reader.Rest() == result.rest
  {
    hide ReadVersion, Protocol.ReadU16, Protocol.ReadU32;
    var runtime, protocol, samp, capabilities;
    var ok;
    ok, runtime := ReadRuntimeVersion(reader);
    if !ok {
      return NotRead(TruncatedPayload);
    }
    ok, protocol := reader.ReadU16();
    if !ok {
      return NotRead(TruncatedPayload);
    }
    ok, samp := reader.ReadU16();
    if !ok {
      return NotRead(TruncatedPayload);
    }
    ok, capabilities := reader.ReadU32();
    if !ok {
      return NotRead(TruncatedPayload);
    }
    if !IsSampVersionValueValid(samp) || !AreCapabilitiesValid(capabilities) {
      return NotRead(InvalidField);
    }
    return Parsed(Hello(runtime, protocol, samp, capabilities), reader.bytes[reader.offset..]);
  }

  method DecodeWelcome(reader: ByteReader) returns (result: Read<Message>)
    requires reader.Valid()
    modifies reader
    ensures reader.Valid()
    ensures result == ReadWelcome(old(reader.Rest()))
    ensures result.Parsed? ==> reader.Rest() == result.rest
  {
    hide ReadVersion, Protocol.ReadU16, Protocol.ReadU32;
    var accepted, runtime, protocol, negotiated;
    var ok;
    ok, accepted := reader.ReadU16();
    if !ok {
      return NotRead(TruncatedPayload);
    }
    ok, runtime := ReadRuntimeVersion(reader);
    if !ok {
      return NotRead(TruncatedPayload);
    }
    ok, protocol := reader.ReadU16();
    if !ok {
      return NotRead(TruncatedPayload);
    }
    ok, negotiated := reader.ReadU32();
    if !ok {
      return NotRead(TruncatedPayload);
    }
    if !AreCapabilitiesValid(negotiated) {
      return NotRead(InvalidField);
    }
    return Parsed(Welcome(accepted, runtime, protocol, negotiated), reader.bytes[reader.offset..]);
  }

  method DecodeBoundary(reader: ByteReader) returns (result: Read<(u64, u32, u64)>)
    requires reader.Valid()
    modifies reader
    ensures reader.Valid()
    ensures result == ReadBoundary(old(reader.Rest()))
    ensures result.Parsed? ==> reader.Rest() == result.rest
  {
    hide Protocol.ReadU32, Protocol.ReadU64;
    var revision, count, total;
    var ok;
    ok, revision := reader.ReadU64();
    if !ok {
      return NotRead(TruncatedPayload);
    }
    ok, count := reader.ReadU32();
    if !ok {
      return NotRead(TruncatedPayload);
    }
    ok, total := reader.ReadU64();
    if !ok {
      return NotRead(TruncatedPayload);
    }
    if !IsManifestBoundaryValid(revision, count, total) {
      return NotRead(InvalidField);
    }
    return Parsed((revision, count, total), reader.bytes[reader.offset..]);
  }

  method DecodeManifestAsset(reader: ByteReader) returns (result: Read<Message>)
    requires reader.Valid()
    modifies reader
    ensures reader.Valid()
    ensures result == ReadManifestAsset(old(reader.Rest()))
    ensures result.Parsed? ==> reader.Rest() == result.rest
  {
    hide ReadDescription, Protocol.ReadU32, Protocol.ReadU64;
    var revision, index;
    var ok;
    ok, revision := reader.ReadU64();
    if !ok {
      return NotRead(TruncatedPayload);
    }
    ok, index := reader.ReadU32();
    if !ok {
      return NotRead(TruncatedPayload);
    }
    var asset := ReadAssetDescription(reader);
    match asset {
      case NotRead(error) => return NotRead(error);
      case Parsed(value, rest) =>
        if revision == 0 || index >= MAXIMUM_ASSETS_PER_MANIFEST {
          return NotRead(InvalidField);
        }
        return Parsed(ManifestAsset(revision, index, value), rest);
    }
  }

  method DecodeReport(reader: ByteReader, isError: bool) returns (result: Read<Message>)
    requires reader.Valid()
    modifies reader
    ensures reader.Valid()
    ensures result == if isError then ReadAssetError(old(reader.Rest())) else ReadAssetReady(old(reader.Rest()))
    ensures result.Parsed? ==> reader.Rest() == result.rest
  {
    hide Protocol.ReadU16, Protocol.ReadU32, Protocol.ReadU64;
    var revision, id, reason;
    var ok;
    ok, revision := reader.ReadU64();
    if !ok {
      return NotRead(TruncatedPayload);
    }
    ok, id := reader.ReadU32();
    if !ok {
      return NotRead(TruncatedPayload);
    }
    if !isError {
      if revision == 0 || id == 0 {
        return NotRead(InvalidField);
      }
      return Parsed(AssetReady(revision, id), reader.bytes[reader.offset..]);
    }
    ok, reason := reader.ReadU16();
    if !ok {
      return NotRead(TruncatedPayload);
    }
    if revision == 0 || id == 0 || !IsAssetErrorReasonValid(reason) {
      return NotRead(InvalidField);
    }
    return Parsed(AssetError(revision, id, reason), reader.bytes[reader.offset..]);
  }

  method DecodeNumber(reader: ByteReader, kind: u16) returns (result: Read<Message>)
    requires reader.Valid() && 3 <= kind <= 5
    modifies reader
    ensures reader.Valid()
    ensures result == ReadPayload(kind, old(reader.Rest()))
    ensures result.Parsed? ==> reader.Rest() == result.rest
  {
    hide Protocol.ReadU16, Protocol.ReadU64;
    var ok;
    if kind == 3 {
      var reason;
      ok, reason := reader.ReadU16();
      if !ok {
        return NotRead(TruncatedPayload);
      }
      if !IsRejectReasonValid(reason) {
        return NotRead(InvalidField);
      }
      return Parsed(Reject(reason), reader.bytes[reader.offset..]);
    }
    var nonce;
    ok, nonce := reader.ReadU64();
    if !ok {
      return NotRead(TruncatedPayload);
    }
    return Parsed(if kind == 4 then Ping(nonce) else Pong(nonce), reader.bytes[reader.offset..]);
  }

  method DecodeManifestEdge(reader: ByteReader, kind: u16) returns (result: Read<Message>)
    requires reader.Valid() && (kind == 6 || kind == 8)
    modifies reader
    ensures reader.Valid()
    ensures result == ReadPayload(kind, old(reader.Rest()))
    ensures result.Parsed? ==> reader.Rest() == result.rest
  {
    hide ReadBoundary;
    var boundary := DecodeBoundary(reader);
    match boundary {
      case NotRead(error) => return NotRead(error);
      case Parsed(b, rest) =>
        return Parsed(if kind == 6 then ManifestBegin(b.0, b.1, b.2) else ManifestEnd(b.0, b.1, b.2), rest);
    }
  }

  method DecodeHandshake(reader: ByteReader, kind: u16) returns (result: Read<Message>)
    requires reader.Valid() && 1 <= kind <= 5
    modifies reader
    ensures reader.Valid()
    ensures result == ReadPayload(kind, old(reader.Rest()))
    ensures result.Parsed? ==> reader.Rest() == result.rest
  {
    hide ReadHello, ReadWelcome, Protocol.ReadU16, Protocol.ReadU64;
    match kind {
      case 1 => result := DecodeHello(reader);
      case 2 => result := DecodeWelcome(reader);
      case _ => result := DecodeNumber(reader, kind);
    }
  }

  method DecodeAssetMessage(reader: ByteReader, kind: u16) returns (result: Read<Message>)
    requires reader.Valid() && 6 <= kind <= 10
    modifies reader
    ensures reader.Valid()
    ensures result == ReadPayload(kind, old(reader.Rest()))
    ensures result.Parsed? ==> reader.Rest() == result.rest
  {
    hide ReadBoundary, ReadManifestAsset, ReadAssetReady, ReadAssetError;
    match kind {
      case 7 => result := DecodeManifestAsset(reader);
      case 9 => result := DecodeReport(reader, false);
      case 10 => result := DecodeReport(reader, true);
      case _ => result := DecodeManifestEdge(reader, kind);
    }
  }

  method DecodePayload(kind: u16, payload: seq<byte>) returns (result: DecodeResult)
    requires 1 <= kind <= 10
    ensures result == Protocol.DecodePayload(kind, payload)
  {
    hide ReadPayload;
    var reader := new ByteReader(payload);
    var read: Read<Message>;
    if kind <= 5 {
      read := DecodeHandshake(reader, kind);
    } else {
      read := DecodeAssetMessage(reader, kind);
    }
    match read {
      case NotRead(error) => return NotDecoded(error);
      case Parsed(message, _) =>
        return if reader.Remaining() == 0 then Decoded(message) else NotDecoded(PayloadLengthMismatch);
    }
  }

  method DecodeHeader(reader: ByteReader) returns (header: Header)
    requires reader.Valid() && |reader.Rest()| >= HEADER_SIZE
    modifies reader
    ensures reader.Valid()
    ensures header == ReadHeader(old(reader.Rest())) && reader.Rest() == old(reader.Rest())[HEADER_SIZE..]
  {
    hide FromU16, FromU32;
    ghost var was := reader.Rest();
    var ok, magic := reader.ReadU32();
    assert reader.Rest() == was[4..];
    var version, kind, size;
    ok, version := reader.ReadU16();
    assert reader.Rest() == was[6..];
    ok, kind := reader.ReadU16();
    assert reader.Rest() == was[8..];
    ok, size := reader.ReadU32();
    assert reader.Rest() == was[12..];
    return Header(magic, version, kind, size);
  }

  /** The decoder. */
  method DecodePacket(bytes: seq<byte>) returns (result: DecodeResult)
    ensures result == Protocol.DecodePacket(bytes)
  {
    hide Protocol.DecodePayload, ReadHeader;
    if |bytes| < HEADER_SIZE {
      return NotDecoded(TruncatedHeader);
    }
    var reader := new ByteReader(bytes);
    var header := DecodeHeader(reader);
    if header.magic != MAGIC {
      return NotDecoded(InvalidMagic);
    }
    if header.version != PROTOCOL_VERSION {
      return NotDecoded(UnsupportedProtocolVersion);
    }
    if header.size > MAXIMUM_PAYLOAD_SIZE {
      return NotDecoded(OversizedPayload);
    }
    if header.size > reader.Remaining() {
      return NotDecoded(TruncatedPayload);
    }
    if header.size != reader.Remaining() {
      return NotDecoded(PayloadLengthMismatch);
    }
    if !(1 <= header.kind <= 10) {
      return NotDecoded(UnknownMessageType);
    }
    result := DecodePayload(header.kind, bytes[HEADER_SIZE..]);
  }
}
