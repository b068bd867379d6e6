/** The CMOD packet language: what a message looks like on the wire, and which byte strings are packets. */
module Protocol {
  import opened Bytes
  import opened Assets

  const MAGIC: u32 := 0x434D4F44
  const PROTOCOL_VERSION: u16 := 1
  const HEADER_SIZE := 12
  const MAXIMUM_PACKET_SIZE := 4096
  const MAXIMUM_PAYLOAD_SIZE := 4084
  const DECLARED_CAPABILITIES: u32 := 31

  datatype RuntimeVersion = RuntimeVersion(major: u16, minor: u16, patch: u16)

  // Enumerations that travel as numbers.
  const R4_FAMILY: byte := 7
  const UNSUPPORTED_PROTOCOL: u16 := 1
  const UNSUPPORTED_CLIENT_RUNTIME: u16 := 2
  const UNSUPPORTED_SAMP_BUILD: u16 := 3
  const MALFORMED_HANDSHAKE: u16 := 4
  const UNSUPPORTED_CAPABILITIES: u16 := 5
  const INVALID_MANIFEST: u16 := 1
  const UNSUPPORTED_SCHEME: u16 := 2
  const NETWORK_FAILURE: u16 := 3
  const TIMEOUT: u16 := 4
  const SIZE_MISMATCH: u16 := 5
  const HASH_MISMATCH: u16 := 6
  const DISK_FAILURE: u16 := 7
  const INTERNAL_ERROR: u16 := 8

  datatype Message =
    | Hello(runtimeVersion: RuntimeVersion, protocolVersion: u16, sampVersion: byte, capabilities: u32)
    | Welcome(acceptedProtocolVersion: u16, serverRuntimeVersion: RuntimeVersion, serverProtocolVersion: u16, negotiatedCapabilities: u32)
    | Reject(rejectReason: u16)
    | Ping(nonce: u64)
    | Pong(nonce: u64)
    | ManifestBegin(manifestRevision: u64, assetCount: u32, totalDownloadSize: u64)
    | ManifestAsset(manifestRevision: u64, assetIndex: u32, asset: AssetDescription)
    | ManifestEnd(manifestRevision: u64, assetCount: u32, totalDownloadSize: u64)
    | AssetReady(manifestRevision: u64, assetId: u32)
    | AssetError(manifestRevision: u64, assetId: u32, reason: u16)

  datatype EncodeError = EncodeInvalidField | OversizedEncoding
  datatype EncodeResult = Encoded(bytes: seq<byte>) | NotEncoded(error: EncodeError)

  datatype DecodeError =
    | TruncatedHeader | InvalidMagic | UnsupportedProtocolVersion | OversizedPayload | TruncatedPayload
    | PayloadLengthMismatch | UnknownMessageType | InvalidField
  datatype DecodeResult = Decoded(message: Message) | NotDecoded(error: DecodeError)

  // Field validity, the same on both sides of the wire.

  predicate AreCapabilitiesValid(flags: u32) {
    BitClear(flags, DECLARED_CAPABILITIES) == 0
  }

  predicate IsSampVersionValueValid(value: u16) {
    value <= R4_FAMILY
  }

  predicate IsRejectReasonValid(value: u16) {
    UNSUPPORTED_PROTOCOL <= value <= UNSUPPORTED_CAPABILITIES
  }

  predicate IsAssetErrorReasonValid(value: u16) {
    INVALID_MANIFEST <= value <= INTERNAL_ERROR
  }

  predicate IsManifestBoundaryValid(revision: u64, count: u32, totalSize: u64) {
    && revision != 0
    && count <= MAXIMUM_ASSETS_PER_MANIFEST
    && totalSize <= MAXIMUM_TOTAL_DOWNLOAD_SIZE
    && (count != 0 || totalSize == 0)
  }

  predicate IsEncodable(m: Message) {
    match m
    case Hello(_, _, sampVersion, capabilities) => IsSampVersionValueValid(sampVersion) && AreCapabilitiesValid(capabilities)
    case Welcome(_, _, _, negotiated) => AreCapabilitiesValid(negotiated)
    case Reject(reason) => IsRejectReasonValid(reason)
    case Ping(_) => true
    case Pong(_) => true
    case ManifestBegin(revision, count, total) => IsManifestBoundaryValid(revision, count, total)
    case ManifestAsset(revision, index, asset) =>
      revision != 0 && index < MAXIMUM_ASSETS_PER_MANIFEST && IsDescriptionValid(asset)
    case ManifestEnd(revision, count, total) => IsManifestBoundaryValid(revision, count, total)
    case AssetReady(revision, id) => revision != 0 && id != 0
    case AssetError(revision, id, reason) => revision != 0 && id != 0 && IsAssetErrorReasonValid(reason)
  }

  function TypeOf(m: Message): (t: u16)
    ensures 1 <= t <= 10
  {
    match m
    case Hello(_, _, _, _) => 1
    case Welcome(_, _, _, _) => 2
    case Reject(_) => 3
    case Ping(_) => 4
    case Pong(_) => 5
    case ManifestBegin(_, _, _) => 6
    case ManifestAsset(_, _, _) => 7
    case ManifestEnd(_, _, _) => 8
    case AssetReady(_, _) => 9
    case AssetError(_, _, _) => 10
  }

  // The wire image of a message. Each piece is put in front of what follows it, so that a
  // reader consumes exactly what a writer prepended.

  function WithVersion(v: RuntimeVersion, tail: seq<byte>): seq<byte> {
    U16(v.major) + (U16(v.minor) + (U16(v.patch) + tail))
  }

  function WithString(s: seq<byte>, tail: seq<byte>): seq<byte> {
    U16(|s| % 0x1_0000) + (s + tail)
  }

  function WithDescription(a: AssetDescription, tail: seq<byte>): seq<byte> {
    U32(a.assetId) + (U16(a.kind) +
      WithString(a.logicalName, WithString(a.downloadUrl, U64(a.fileSize) + (a.sha256 + tail))))
  }

  function WithBoundary(revision: u64, count: u32, total: u64, tail: seq<byte>): seq<byte> {
    U64(revision) + (U32(count) + (U64(total) + tail))
  }

  function WithPayload(m: Message, tail: seq<byte>): seq<byte> {
    match m
    case Hello(runtime, protocol, samp, capabilities) =>
      WithVersion(runtime, U16(protocol) + (U16(samp) + (U32(capabilities) + tail)))
    case Welcome(accepted, runtime, protocol, negotiated) =>
      U16(accepted) + WithVersion(runtime, U16(protocol) + (U32(negotiated) + tail))
    case Reject(reason) => U16(reason) + tail
    case Ping(nonce) => U64(nonce) + tail
    case Pong(nonce) => U64(nonce) + tail
    case ManifestBegin(revision, count, total) => WithBoundary(revision, count, total, tail)
    case ManifestAsset(revision, index, asset) => U64(revision) + (U32(index) + WithDescription(asset, tail))
    case ManifestEnd(revision, count, total) => WithBoundary(revision, count, total, tail)
    case AssetReady(revision, id) => U64(revision) + (U32(id) + tail)
    case AssetError(revision, id, reason) => U64(revision) + (U32(id) + (U16(reason) + tail))
  }

  function PayloadOf(m: Message): seq<byte> {
    WithPayload(m, [])
  }

  function PayloadSize(m: Message): nat {
    match m
    case Hello(_, _, _, _) => 14
    case Welcome(_, _, _, _) => 14
    case Reject(_) => 2
    case Ping(_) => 8
    case Pong(_) => 8
    case ManifestBegin(_, _, _) => 20
    case ManifestAsset(_, _, asset) => SerializedAssetBytes(asset)
    case ManifestEnd(_, _, _) => 20
    case AssetReady(_, _) => 12
    case AssetError(_, _, _) => 14
  }

  /** The accounting formula is the encoded length; no encodable message comes near the packet limit. */
  lemma PayloadLength(m: Message)
    requires IsEncodable(m)
    ensures |PayloadOf(m)| == PayloadSize(m) <= 2206
    ensures |PacketOf(m)| == HEADER_SIZE + PayloadSize(m) <= 2218
  {
    WithPayloadLength(m, []);
  }

  lemma WithPayloadLength(m: Message, tail: seq<byte>)
    ensures |WithPayload(m, tail)| == PayloadSize(m) + |tail|
  {}

  function HeaderOf(kind: u16, size: u32): (h: seq<byte>)
    ensures |h| == HEADER_SIZE
  {
    U32(MAGIC) + U16(PROTOCOL_VERSION) + U16(kind) + U32(size)
  }

  /** The packet of a message; no length of an encodable one is cut by the 16- and 32-bit casts. */
  function PacketOf(m: Message): seq<byte> {
    HeaderOf(TypeOf(m), |PayloadOf(m)| % 0x1_0000_0000) + PayloadOf(m)
  }

  function EncodePacket(m: Message, protocolVersion: u16): EncodeResult {
    if protocolVersion == PROTOCOL_VERSION && IsEncodable(m) then Encoded(PacketOf(m))
    else NotEncoded(EncodeInvalidField)
  }

  // Reading: a cursor is what is left to read.

  datatype Read<+T> = NotRead(error: DecodeError) | Parsed(value: T, rest: seq<byte>) {
    predicate IsFailure() {
      NotRead?
    }

    function PropagateFailure<U>(): Read<U>
      requires NotRead?
    {
      NotRead(error)
    }

    function Extract(): (T, seq<byte>)
      requires Parsed?
    {
      (value, rest)
    }
  }

  function ReadU16(b: seq<byte>): Read<u16> {
    if |b| < 2 then NotRead(TruncatedPayload) else Parsed(FromU16(b[0], b[1]), b[2..])
  }

  function ReadU32(b: seq<byte>): Read<u32> {
    if |b| < 4 then NotRead(TruncatedPayload) else Parsed(FromU32(b[0], b[1], b[2], b[3]), b[4..])
  }

  function ReadU64(b: seq<byte>): Read<u64> {
    var (hi, b1) :- ReadU32(b);
    var (lo, b2) :- ReadU32(b1);
    Parsed(FromU64(hi, lo), b2)
  }

  function ReadBytes(b: seq<byte>, size: nat): Read<seq<byte>> {
    if |b| < size then NotRead(TruncatedPayload) else Parsed(b[..size], b[size..])
  }

  function ReadDigest(b: seq<byte>): Read<Digest> {
    if |b| < 32 then NotRead(TruncatedPayload) else Parsed(b[..32], b[32..])
  }

  function ReadString(b: seq<byte>, maximum: nat): Read<seq<byte>> {
    var (length, b1) :- ReadU16(b);
    if length > maximum then NotRead(TruncatedPayload) else ReadBytes(b1, length)
  }

  function ReadVersion(b: seq<byte>): Read<RuntimeVersion> {
    var (major, b1) :- ReadU16(b);
    var (minor, b2) :- ReadU16(b1);
    var (patch, b3) :- ReadU16(b2);
    Parsed(RuntimeVersion(major, minor, patch), b3)
  }

  function ReadDescriptionFields(b: seq<byte>): Read<AssetDescription> {
    var (id, b1) :- ReadU32(b);
    var (kind, b2) :- ReadU16(b1);
    var (name, b3) :- ReadString(b2, MAXIMUM_LOGICAL_NAME_LENGTH);
    var (url, b4) :- ReadString(b3, MAXIMUM_URL_LENGTH);
    var (size, b5) :- ReadU64(b4);
    var (digest, b6) :- ReadDigest(b5);
    Parsed(AssetDescription(id, kind, name, url, size, digest), b6)
  }

  function ReadDescription(b: seq<byte>): Read<AssetDescription> {
    var (asset, rest) :- ReadDescriptionFields(b);
    if IsDescriptionValid(asset) then Parsed(asset, rest) else NotRead(InvalidField)
  }

  function ReadHello(b: seq<byte>): Read<Message> {
    var (runtime, b1) :- ReadVersion(b);
    var (protocol, b2) :- ReadU16(b1);
    var (samp, b3) :- ReadU16(b2);
    var (capabilities, b4) :- ReadU32(b3);
    if IsSampVersionValueValid(samp) && AreCapabilitiesValid(capabilities)
    then Parsed(Hello(runtime, protocol, samp, capabilities), b4)
    else NotRead(InvalidField)
  }

  function ReadWelcome(b: seq<byte>): Read<Message> {
    var (accepted, b1) :- ReadU16(b);
    var (runtime, b2) :- ReadVersion(b1);
    var (protocol, b3) :- ReadU16(b2);
    var (negotiated, b4) :- ReadU32(b3);
    if AreCapabilitiesValid(negotiated) then Parsed(Welcome(accepted, runtime, protocol, negotiated), b4)
    else NotRead(InvalidField)
  }

  function ReadBoundary(b: seq<byte>): Read<(u64, u32, u64)> {
    var (revision, b1) :- ReadU64(b);
    var (count, b2) :- ReadU32(b1);
    var (total, b3) :- ReadU64(b2);
    if IsManifestBoundaryValid(revision, count, total) then Parsed((revision, count, total), b3)
    else NotRead(InvalidField)
  }

  function ReadManifestAsset(b: seq<byte>): Read<Message> {
    var (revision, b1) :- ReadU64(b);
    var (index, b2) :- ReadU32(b1);
    var (asset, b3) :- ReadDescription(b2);
    if revision != 0 && index < MAXIMUM_ASSETS_PER_MANIFEST then Parsed(ManifestAsset(revision, index, asset), b3)
    else NotRead(InvalidField)
  }

  function ReadAssetReady(b: seq<byte>): Read<Message> {
    var (revision, b1) :- ReadU64(b);
    var (id, b2) :- ReadU32(b1);
    if revision != 0 && id != 0 then Parsed(AssetReady(revision, id), b2) else NotRead(InvalidField)
  }

  function ReadAssetError(b: seq<byte>): Read<Message> {
    var (revision, b1) :- ReadU64(b);
    var (id, b2) :- ReadU32(b1);
    var (reason, b3) :- ReadU16(b2);
    if revision != 0 && id != 0 && IsAssetErrorReasonValid(reason) then Parsed(AssetError(revision, id, reason), b3)
    else NotRead(InvalidField)
  }

  function ReadPayload(kind: u16, b: seq<byte>): Read<Message>
    requires 1 <= kind <= 10
  {
    match kind
    case 1 => ReadHello(b)
    case 2 => ReadWelcome(b)
    case 3 =>
      var (reason, b1) :- ReadU16(b);
      if IsRejectReasonValid(reason) then Parsed(Reject(reason), b1) else NotRead(InvalidField)
    case 4 =>
      var (nonce, b1) :- ReadU64(b);
      Parsed(Ping(nonce), b1)
    case 5 =>
      var (nonce, b1) :- ReadU64(b);
      Parsed(Pong(nonce), b1)
    case 6 =>
      var (boundary, b1) :- ReadBoundary(b);
      Parsed(ManifestBegin(boundary.0, boundary.1, boundary.2), b1)
    case 7 => ReadManifestAsset(b)
    case 8 =>
      var (boundary, b1) :- ReadBoundary(b);
      Parsed(ManifestEnd(boundary.0, boundary.1, boundary.2), b1)
    case 9 => ReadAssetReady(b)
    case _ => ReadAssetError(b)
  }

  function DecodePayload(kind: u16, payload: seq<byte>): DecodeResult
    requires 1 <= kind <= 10
  {
    match ReadPayload(kind, payload)
    case NotRead(error) => NotDecoded(error)
    case Parsed(message, rest) => if rest == [] then Decoded(message) else NotDecoded(PayloadLengthMismatch)
  }

  datatype Header = Header(magic: u32, version: u16, kind: u16, size: u32)

  function ReadHeader(b: seq<byte>): Header
    requires |b| >= HEADER_SIZE
  {
    Header(FromU32(b[0], b[1], b[2], b[3]), FromU16(b[4], b[5]), FromU16(b[6], b[7]), FromU32(b[8], b[9], b[10], b[11]))
  }

  function DecodePacket(bytes: seq<byte>): DecodeResult {
    if |bytes| < HEADER_SIZE then NotDecoded(TruncatedHeader)
    else
      var header := ReadHeader(bytes);
      if header.magic != MAGIC then NotDecoded(InvalidMagic)
      else if header.version != PROTOCOL_VERSION then NotDecoded(UnsupportedProtocolVersion)
      else if header.size > MAXIMUM_PAYLOAD_SIZE then NotDecoded(OversizedPayload)
      else if header.size > |bytes| - HEADER_SIZE then NotDecoded(TruncatedPayload)
      else if header.size != |bytes| - HEADER_SIZE then NotDecoded(PayloadLengthMismatch)
      else if !(1 <= header.kind <= 10) then NotDecoded(UnknownMessageType)
      else DecodePayload(header.kind, bytes[HEADER_SIZE..])
  }
}
