/** The bounded writer and the encoder built on it, proved to compute the packet images of
    module Protocol and never to run out of room. */
module Encoder {
  import opened Bytes
  import opened Assets
  import opened Protocol

  /** What is left of a byte string that must fit a packet. */
  function Fit(s: seq<byte>): seq<byte> {
    if |s| <= MAXIMUM_PACKET_SIZE then s else s[..MAXIMUM_PACKET_SIZE]
  }

  class ByteWriter {
    var bytes: seq<byte>

    ghost predicate Valid()
      reads this
    {
      |bytes| <= MAXIMUM_PACKET_SIZE
    }

    constructor ()
      ensures Valid() && bytes == []
    {
      bytes := [];
    }

    method WriteU8(value: byte) returns (ok: bool)
      requires Valid()
      modifies this
      ensures Valid()
      ensures ok == (|old(bytes)| + 1 <= MAXIMUM_PACKET_SIZE)
      ensures bytes == Fit(old(bytes) + [value])
    {
      if |bytes| == MAXIMUM_PACKET_SIZE {
        assert bytes == (bytes + [value])[..MAXIMUM_PACKET_SIZE];
        return false;
      }
      bytes := bytes + [value];
      return true;
    }

    method WriteU16(value: u16) returns (ok: bool)
      requires Valid()
      modifies this
      ensures Valid()
      ensures ok == (|old(bytes)| + 2 <= MAXIMUM_PACKET_SIZE)
      ensures bytes == Fit(old(bytes) + U16(value))
    {
      ok := WriteU8(value / 0x100);
      if ok {
        ok := WriteU8(value % 0x100);
      }
    }

    method WriteU32(value: u32) returns (ok: bool)
      requires Valid()
      modifies this
      ensures Valid()
      ensures ok == (|old(bytes)| + 4 <= MAXIMUM_PACKET_SIZE)
      ensures bytes == Fit(old(bytes) + U32(value))
    {
      ok := WriteU8(value / 0x100_0000);
      if ok {
        ok := WriteU8(value / 0x1_0000 % 0x100);
      }
      if ok {
        ok := WriteU8(value / 0x100 % 0x100);
      }
      if ok {
        ok := WriteU8(value % 0x100);
      }
    }

    method WriteU64(value: u64) returns (ok: bool)
      requires Valid()
      modifies this
      ensures Valid()
      ensures ok == (|old(bytes)| + 8 <= MAXIMUM_PACKET_SIZE)
      ensures bytes == Fit(old(bytes) + U64(value))
    {
      ghost var was := bytes;
      ok := WriteU32(value / 0x1_0000_0000);
      if ok {
        ok := WriteU32(value % 0x1_0000_0000);
      }
      assert was + U64(value) == was + U32(value / 0x1_0000_0000) + U32(value % 0x1_0000_0000);
    }

    method WriteBytes(data: seq<byte>) returns (ok: bool)
      requires Valid()
      modifies this
      ensures Valid()
      ensures ok == (|old(bytes)| + |data| <= MAXIMUM_PACKET_SIZE)
      ensures bytes == if ok then old(bytes) + data else old(bytes)
    {
      if |data| > MAXIMUM_PACKET_SIZE - |bytes| {
        return false;
      }
      bytes := bytes + data;
      return true;
    }

    method WriteString(value: seq<byte>) returns (ok: bool)
      requires Valid()
      modifies this
      ensures Valid()
      ensures ok == (|old(bytes)| + 2 + |value| <= MAXIMUM_PACKET_SIZE)
      ensures ok ==> bytes == old(bytes) + U16(|value|) + value
      ensures !ok ==> bytes == if |value| >= 0x1_0000 then old(bytes) else Fit(old(bytes) + U16(|value|))
    {
      if |value| >= 0x1_0000 {
        return false;
      }
      ok := WriteU16(|value|);
      if ok {
        ok := WriteBytes(value);
      }
    }

    method WriteRuntimeVersion(version: RuntimeVersion) returns (ok: bool)
      requires Valid()
      modifies this
      ensures Valid()
      ensures ok == (|old(bytes)| + 6 <= MAXIMUM_PACKET_SIZE)
      ensures ok ==> bytes == old(bytes) + WithVersion(version, [])
    {
      ghost var was := bytes;
      ok := WriteU16(version.major);
      if ok {
        ok := WriteU16(version.minor);
      }
      if ok {
        ok := WriteU16(version.patch);
        assert was + U16(version.major) + U16(version.minor) + U16(version.patch) == was + WithVersion(version, []);
      }
    }

    method WriteAssetDescription(asset: AssetDescription) returns (ok: bool)
      requires Valid()
      modifies this
      ensures Valid()
      ensures ok == (|old(bytes)| + 50 + |asset.logicalName| + |asset.downloadUrl| <= MAXIMUM_PACKET_SIZE)
      ensures ok ==> bytes == old(bytes) + WithDescription(asset, [])
    {
      ghost var was := bytes;
      ok := WriteU32(asset.assetId);
      if ok {
        ok := WriteU16(asset.kind);
      }
      if ok {
        ok := WriteString(asset.logicalName);
      }
      if ok {
        ok := WriteString(asset.downloadUrl);
      }
      if ok {
        ok := WriteU64(asset.fileSize);
      }
      if ok {
        ok := WriteBytes(asset.sha256);
      }
      if ok {
        DescriptionPieces(was, asset);
      }
    }

    method WriteBoundary(revision: u64, count: u32, total: u64) returns (ok: bool)
      requires Valid()
      modifies this
      ensures Valid()
      ensures ok == (|old(bytes)| + 20 <= MAXIMUM_PACKET_SIZE)
      ensures ok ==> bytes == old(bytes) + WithBoundary(revision, count, total, [])
    {
      hide U64, U32;
      ghost var was := bytes;
      ok := WriteU64(revision);
      if ok {
        ok := WriteU32(count);
      }
      if ok {
        ok := WriteU64(total);
        assert was + U64(revision) + U32(count) + U64(total) == was + WithBoundary(revision, count, total, []);
      }
    }
  }

  lemma DescriptionPieces(was: seq<byte>, a: AssetDescription)
    requires |a.logicalName| < 0x1_0000 && |a.downloadUrl| < 0x1_0000
    ensures was + U32(a.assetId) + U16(a.kind) + U16(|a.logicalName|) + a.logicalName + U16(|a.downloadUrl|) + a.downloadUrl
            + U64(a.fileSize) + a.sha256 == was + WithDescription(a, [])
  {
    hide U16, U32, U64;
    var tail := U64(a.fileSize) + (a.sha256 + []);
    var url := WithString(a.downloadUrl, tail);
    assert url == U16(|a.downloadUrl|) + a.downloadUrl + U64(a.fileSize) + a.sha256;
    var name := WithString(a.logicalName, url);
    assert name == U16(|a.logicalName|) + a.logicalName + url;
    assert WithDescription(a, []) == U32(a.assetId) + U16(a.kind) + name;
  }

  /** The outcome of writing a payload: refused fields first, then room. */
  function PayloadError(m: Message, used: nat): Option<EncodeError> {
    if !IsEncodable(m) then Some(EncodeInvalidField)
    else if used + PayloadSize(m) > MAXIMUM_PACKET_SIZE then Some(OversizedEncoding)
    else None
  }

  method EncodeHello(writer: ByteWriter, m: Message) returns (error: Option<EncodeError>)
    requires m.Hello? && writer.Valid()
    modifies writer
    ensures writer.Valid() && error == PayloadError(m, |old(writer.bytes)|)
    ensures error == None ==> writer.bytes == old(writer.bytes) + PayloadOf(m)
  {
    hide U16, U32;
    if !IsSampVersionValueValid(m.sampVersion) || !AreCapabilitiesValid(m.capabilities) {
      return Some(EncodeInvalidField);
    }
    ghost var was := writer.bytes;
    var ok := writer.WriteRuntimeVersion(m.runtimeVersion);
    if ok {
      ok := writer.WriteU16(m.protocolVersion);
    }
    if ok {
      ok := writer.WriteU16(m.sampVersion);
    }
    if ok {
      ok := writer.WriteU32(m.capabilities);
    }
    if !ok {
      return Some(OversizedEncoding);
    }
    assert was + WithVersion(m.runtimeVersion, []) + U16(m.protocolVersion) + U16(m.sampVersion) + U32(m.capabilities)
      == was + PayloadOf(m);
    return None;
  }

  method EncodeWelcome(writer: ByteWriter, m: Message) returns (error: Option<EncodeError>)
    requires m.Welcome? && writer.Valid()
    modifies writer
    ensures writer.Valid() && error == PayloadError(m, |old(writer.bytes)|)
    ensures error == None ==> writer.bytes == old(writer.bytes) + PayloadOf(m)
  {
    hide U16, U32;
    if !AreCapabilitiesValid(m.negotiatedCapabilities) {
      return Some(EncodeInvalidField);
    }
    ghost var was := writer.bytes;
    var ok := writer.WriteU16(m.acceptedProtocolVersion);
    if ok {
      ok := writer.WriteRuntimeVersion(m.serverRuntimeVersion);
    }
    if ok {
      ok := writer.WriteU16(m.serverProtocolVersion);
    }
    if ok {
      ok := writer.WriteU32(m.negotiatedCapabilities);
    }
    if !ok {
      return Some(OversizedEncoding);
    }
    assert was + U16(m.acceptedProtocolVersion) + WithVersion(m.serverRuntimeVersion, []) + U16(m.serverProtocolVersion)
      + U32(m.negotiatedCapabilities) == was + PayloadOf(m);
    return None;
  }

  method EncodeManifestAsset(writer: ByteWriter, m: Message) returns (error: Option<EncodeError>)
    requires m.ManifestAsset? && writer.Valid()
    modifies writer
    ensures writer.Valid() && error == PayloadError(m, |old(writer.bytes)|)
    ensures error == None ==> writer.bytes == old(writer.bytes) + PayloadOf(m)
  {
    hide U64, U32, WithDescription;
    var valid := IsAssetDescriptionValid(m.asset);
    if m.manifestRevision == 0 || m.assetIndex >= MAXIMUM_ASSETS_PER_MANIFEST || !valid {
      return Some(EncodeInvalidField);
    }
    hide IsDescriptionValid;
    ghost var was := writer.bytes;
    var ok := writer.WriteU64(m.manifestRevision);
    if ok {
      ok := writer.WriteU32(m.assetIndex);
    }
    if ok {
      ok := writer.WriteAssetDescription(m.asset);
    }
    if !ok {
      return Some(OversizedEncoding);
    }
    assert was + U64(m.manifestRevision) + U32(m.assetIndex) + WithDescription(m.asset, []) == was + PayloadOf(m);
    return None;
  }

  method EncodeReport(writer: ByteWriter, m: Message) returns (error: Option<EncodeError>)
    requires (m.AssetReady? || m.AssetError?) && writer.Valid()
    modifies writer
    ensures writer.Valid() && error == PayloadError(m, |old(writer.bytes)|)
    ensures error == None ==> writer.bytes == old(writer.bytes) + PayloadOf(m)
  {
    hide U64, U32, U16;
    if m.manifestRevision == 0 || m.assetId == 0 || (m.AssetError? && !IsAssetErrorReasonValid(m.reason)) {
      return Some(EncodeInvalidField);
    }
    ghost var was := writer.bytes;
    var ok := writer.WriteU64(m.manifestRevision);
    if ok {
      ok := writer.WriteU32(m.assetId);
    }
    if ok && m.AssetError? {
      ok := writer.WriteU16(m.reason);
    }
    if !ok {
      return Some(OversizedEncoding);
    }
    if m.AssetError? {
      assert was + U64(m.manifestRevision) + U32(m.assetId) + U16(m.reason) == was + PayloadOf(m);
    } else {
      assert was + U64(m.manifestRevision) + U32(m.assetId) == was + PayloadOf(m);
    }
    return None;
  }

  method EncodePayload(writer: ByteWriter, m: Message) returns (error: Option<EncodeError>)
    requires writer.Valid()
    modifies writer
    ensures writer.Valid() && error == PayloadError(m, |old(writer.bytes)|)
    ensures error == None ==> writer.bytes == old(writer.bytes) + PayloadOf(m)
  {
    hide U64, U32, U16, IsDescriptionValid;
    ghost var was := writer.bytes;
    var ok := true;
    match m {
      case Hello(_, _, _, _) =>
        error := EncodeHello(writer, m);
        return;
      case Welcome(_, _, _, _) =>
        error := EncodeWelcome(writer, m);
        return;
      case Reject(reason) =>
        if !IsRejectReasonValid(reason) {
          return Some(EncodeInvalidField);
        }
        ok := writer.WriteU16(reason);
        assert was + U16(reason) == was + PayloadOf(m);
      case Ping(nonce) =>
        ok := writer.WriteU64(nonce);
        assert was + U64(nonce) == was + PayloadOf(m);
      case Pong(nonce) =>
        ok := writer.WriteU64(nonce);
        assert was + U64(nonce) == was + PayloadOf(m);
      case ManifestBegin(revision, count, total) =>
        if !IsManifestBoundaryValid(revision, count, total) {
          return Some(EncodeInvalidField);
        }
        ok := writer.WriteBoundary(revision, count, total);
      case ManifestAsset(_, _, _) =>
        error := EncodeManifestAsset(writer, m);
        return;
      case ManifestEnd(revision, count, total) =>
        if !IsManifestBoundaryValid(revision, count, total) {
          return Some(EncodeInvalidField);
        }
        ok := writer.WriteBoundary(revision, count, total);
      case AssetReady(_, _) =>
        error := EncodeReport(writer, m);
        return;
      case AssetError(_, _, _) =>
        error := EncodeReport(writer, m);
        return;
    }
    return if ok then None else Some(OversizedEncoding);
  }

  /** The encoder: refuses what is not encodable, and never runs out of room on what is. */
  method EncodePacket(m: Message, protocolVersion: u16) returns (result: EncodeResult)
    ensures result == Protocol.EncodePacket(m, protocolVersion)
  {
    hide IsEncodable, PayloadOf, HeaderOf, PayloadSize, TypeOf;
    if protocolVersion != PROTOCOL_VERSION {
      return NotEncoded(EncodeInvalidField);
    }
    var payloadWriter := new ByteWriter();
    var payloadError := EncodePayload(payloadWriter, m);
    if IsEncodable(m) {
      PayloadLength(m);
    }
    match payloadError {
      case Some(error) => return NotEncoded(error);
      case None =>
    }
    var payload := payloadWriter.bytes;
    assert payload == PayloadOf(m);
    if |payload| > MAXIMUM_PAYLOAD_SIZE {
      return NotEncoded(OversizedEncoding);
    }
    var packetWriter := new ByteWriter();
    var ok := WriteHeader(packetWriter, TypeOf(m), |payload|);
    if !ok {
      return NotEncoded(OversizedEncoding);
    }
    for i := 0 to |payload|
      invariant packetWriter.Valid() && fresh(packetWriter)
      invariant packetWriter.bytes == HeaderOf(TypeOf(m), |payload|) + payload[..i]
    {
      ok := packetWriter.WriteU8(payload[i]);
      if !ok {
        return NotEncoded(OversizedEncoding);
      }
      assert payload[..i + 1] == payload[..i] + [payload[i]];
    }
    assert payload[..|payload|] == payload;
    return Encoded(packetWriter.bytes);
  }

  method WriteHeader(writer: ByteWriter, kind: u16, size: u32) returns (ok: bool)
    requires writer.Valid() && writer.bytes == []
    modifies writer
    ensures writer.Valid() && ok && writer.bytes == HeaderOf(kind, size)
  {
    hide U16, U32;
    ok := writer.WriteU32(MAGIC);
    assert [] + U32(MAGIC) == U32(MAGIC);
    if ok {
      ok := writer.WriteU16(PROTOCOL_VERSION);
    }
    if ok {
      ok := writer.WriteU16(kind);
    }
    if ok {
      ok := writer.WriteU32(size);
    }
  }
}
