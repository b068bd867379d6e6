/** The RakNet carrier frame: one identifying byte in front of a CMOD packet. */
module TransportFrame {
  import opened Bytes
  import opened Protocol
  import opened ProtocolExactness

  const RAKNET_PACKET_ID: byte := 0x5E
  const PREFIX_SIZE := 1
  const MAXIMUM_FRAME_SIZE := PREFIX_SIZE + MAXIMUM_PACKET_SIZE

  datatype InspectedFrame = Unrelated | CustomModel(protocolBytes: seq<byte>)

  predicate HasProtocolMagic(bytes: seq<byte>) {
    |bytes| >= 4 && bytes[0] == 'C' as int && bytes[1] == 'M' as int && bytes[2] == 'O' as int && bytes[3] == 'D' as int
  }

  function InspectProtocolPayload(bytes: seq<byte>): InspectedFrame {
    if HasProtocolMagic(bytes) then CustomModel(bytes) else Unrelated
  }

  function Inspect(frame: seq<byte>): InspectedFrame {
    if |frame| <= PREFIX_SIZE || frame[0] != RAKNET_PACKET_ID then Unrelated
    else InspectProtocolPayload(frame[PREFIX_SIZE..])
  }

  function Encode(bytes: seq<byte>): Option<seq<byte>> {
    if HasProtocolMagic(bytes) && |bytes| <= MAXIMUM_PACKET_SIZE then Some([RAKNET_PACKET_ID] + bytes) else None
  }

  /** A frame is claimed exactly when it starts with the carrier byte and the magic. */
  predicate IsClaimed(frame: seq<byte>) {
    Inspect(frame).CustomModel?
  }

  /** Framing and inspecting undo each other on everything that fits a packet. */
  lemma FrameExactness(frame: seq<byte>, bytes: seq<byte>)
    ensures Encode(bytes) == Some(frame) <==> Inspect(frame) == CustomModel(bytes) && |frame| <= MAXIMUM_FRAME_SIZE
  {
    if Inspect(frame) == CustomModel(bytes) {
      assert frame == [frame[0]] + frame[PREFIX_SIZE..];
    }
  }

  /** What a sender puts on the wire for a message; None when it is not encodable. */
  function Wire(m: Message): Option<seq<byte>> {
    match EncodePacket(m, PROTOCOL_VERSION)
    case Encoded(bytes) => Encode(bytes)
    case NotEncoded(_) => None
  }

  /** What a receiver makes of a frame: the message it carries, if it is a well-formed CMOD frame. */
  function Deliver(frame: seq<byte>): Option<Message> {
    match Inspect(frame)
    case Unrelated => None
    case CustomModel(bytes) =>
      match DecodePacket(bytes)
      case Decoded(m) => Some(m)
      case NotDecoded(_) => None
  }

  lemma PacketHasMagic(m: Message)
    ensures HasProtocolMagic(PacketOf(m))
  {
    hide PayloadOf;
    assert U32(MAGIC) == [0x43, 0x4D, 0x4F, 0x44];
    assert PacketOf(m)[..4] == U32(MAGIC);
    assert forall i | 0 <= i < 4 :: PacketOf(m)[i] == U32(MAGIC)[i];
  }

  /** Every encodable message has a frame, no other has, and a frame delivers its message and nothing else does. */
  lemma WireExactness(m: Message, frame: seq<byte>)
    ensures Wire(m).Some? <==> IsEncodable(m)
    ensures Wire(m) == Some(frame) <==> Deliver(frame) == Some(m)
  {
    hide DecodePacket, PacketOf, HasProtocolMagic, Inspect, IsEncodable, PayloadOf, PayloadSize, Encode;
    PacketHasMagic(m);
    if IsEncodable(m) {
      PayloadLength(m);
      assert Encode(PacketOf(m)).Some? by {
        FramesPacket(PacketOf(m));
      }
    }
    if Wire(m) == Some(frame) {
      DecodeOfEncode(m);
      FrameExactness(frame, PacketOf(m));
    }
    if Deliver(frame) == Some(m) {
      var bytes := Inspect(frame).protocolBytes;
      DecodedHeader(bytes);
      EncodeOfDecode(bytes);
      InspectedSize(frame);
      FrameExactness(frame, bytes);
    }
  }

  lemma InspectedSize(frame: seq<byte>)
    requires Inspect(frame).CustomModel?
    ensures |frame| == PREFIX_SIZE + |Inspect(frame).protocolBytes|
  {}

  lemma FramesPacket(bytes: seq<byte>)
    requires HasProtocolMagic(bytes) && |bytes| <= MAXIMUM_PACKET_SIZE
    ensures Encode(bytes).Some?
  {}

  /** An encodable message survives the trip over the wire. */
  lemma WireRoundTrip(m: Message)
    requires IsEncodable(m)
    ensures Wire(m).Some? && Deliver(Wire(m).value) == Some(m)
  {
    hide Wire, Deliver, IsEncodable;
    WireExactness(m, []);
    WireExactness(m, Wire(m).value);
  }
}
