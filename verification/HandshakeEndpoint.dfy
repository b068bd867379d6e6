/** The server's handshake desk: it answers claimed payloads, and answers everything but a Hello with a rejection. */
module HandshakeEndpoint {
  import opened Bytes
  import opened Protocol
  import opened TransportFrame
  import opened ServerTransport
  import PC = PlayerCapabilities

  datatype DispatchResult = UnrelatedPayload | WelcomeSent | RejectSent | ResponseLost

  /** What a dispatch leaves behind. */
  datatype Outcome = Outcome(players: PC.Players, line: Line, result: DispatchResult)

  function SendResponse(players: PC.Players, t: Line, playerId: u32, response: Message): Outcome {
    var (t', ok) := SendMessage(t, playerId, response);
    Outcome(players, t', if !ok then ResponseLost else if response.Welcome? then WelcomeSent else RejectSent)
  }

  function TurnAway(players: PC.Players, t: Line, playerId: u32, reason: u16): Outcome {
    var (players', response) := PC.RejectWith(players, playerId, reason);
    SendResponse(players', t, playerId, response)
  }

  function DispatchClaimed(policy: PC.HandshakePolicy, players: PC.Players, t: Line, playerId: u32, bytes: seq<byte>): Outcome {
    if |bytes| > MAXIMUM_PACKET_SIZE then TurnAway(players, t, playerId, MALFORMED_HANDSHAKE)
    else match DecodePacket(bytes)
      case NotDecoded(error) =>
        TurnAway(players, t, playerId, if error == UnsupportedProtocolVersion then UNSUPPORTED_PROTOCOL else MALFORMED_HANDSHAKE)
      case Decoded(m) =>
        if !m.Hello? then TurnAway(players, t, playerId, MALFORMED_HANDSHAKE)
        else
          var (players', response) := PC.Hear(policy, players, playerId, m);
          SendResponse(players', t, playerId, response)
  }

  function DispatchPayload(policy: PC.HandshakePolicy, players: PC.Players, t: Line, playerId: u32, bytes: seq<byte>): Outcome {
    match InspectProtocolPayload(bytes)
    case Unrelated => Outcome(players, t, UnrelatedPayload)
    case CustomModel(claimed) => DispatchClaimed(policy, players, t, playerId, claimed)
  }

  function DispatchFrame(policy: PC.HandshakePolicy, players: PC.Players, t: Line, playerId: u32, frame: seq<byte>): Outcome {
    match Inspect(frame)
    case Unrelated => Outcome(players, t, UnrelatedPayload)
    case CustomModel(claimed) => DispatchClaimed(policy, players, t, playerId, claimed)
  }

  /** An encodable response is put to the player, and the result says what became of it. */
  lemma ResponseTalk(players: PC.Players, t: Line, playerId: u32, response: Message, q: u32)
    requires IsEncodable(response) && (response.Welcome? || response.Reject?)
    ensures var o := SendResponse(players, t, playerId, response);
            && o.players == players
            && o.result == (if !Takes(t.answers, 1) then ResponseLost else if response.Welcome? then WelcomeSent else RejectSent)
            && TalkTo(o.line.attempts, q) ==
               TalkTo(t.attempts, q) + (if q == playerId then [Said(response, Takes(t.answers, 1))] else [])
  {
    hide IsEncodable, SendMessage, TalkTo;
    SendMessageTalk(t, playerId, response, q);
  }

  /** Turning away always leaves the player rejected for the given reason, and tells it so. */
  lemma TurnAwayTalk(policy: PC.HandshakePolicy, players: PC.Players, t: Line, playerId: u32, reason: u16, q: u32)
    requires PC.Inv(policy, players) && IsRejectReasonValid(reason)
    ensures var o := TurnAway(players, t, playerId, reason);
            && PC.Inv(policy, o.players)
            && o.players == PC.RejectWith(players, playerId, reason).0
            && o.result == (if Takes(t.answers, 1) then RejectSent else ResponseLost)
            && TalkTo(o.line.attempts, q) ==
               TalkTo(t.attempts, q) + (if q == playerId then [Said(Reject(reason), Takes(t.answers, 1))] else [])
  {
    hide SendResponse, TalkTo;
    ResponseTalk(PC.RejectWith(players, playerId, reason).0, t, playerId, Reject(reason), q);
  }

  function HelloIn(bytes: seq<byte>): Option<Message> {
    match DecodePacket(bytes)
    case Decoded(m) => if m.Hello? then Some(m) else None
    case NotDecoded(_) => None
  }

  function RefusalOf(bytes: seq<byte>): u16 {
    if |bytes| <= MAXIMUM_PACKET_SIZE && DecodePacket(bytes) == NotDecoded(UnsupportedProtocolVersion)
    then UNSUPPORTED_PROTOCOL else MALFORMED_HANDSHAKE
  }

  /** A claimed payload that is anything but a Hello in a packet of legal size gets its sender rejected and told so:
      for its protocol version when that is what stopped the decoder, as malformed otherwise. */
  lemma NonHelloRejected(policy: PC.HandshakePolicy, players: PC.Players, t: Line, playerId: u32, bytes: seq<byte>, q: u32)
    requires PC.Inv(policy, players)
    requires |bytes| > MAXIMUM_PACKET_SIZE || HelloIn(bytes) == None
    ensures var o := DispatchClaimed(policy, players, t, playerId, bytes);
            && PC.Inv(policy, o.players)
            && playerId in o.players && o.players[playerId].state == PC.Rejected
            && o.players[playerId].rejectReason == Some(RefusalOf(bytes))
            && o.players - {playerId} == players - {playerId}
            && o.result == (if Takes(t.answers, 1) then RejectSent else ResponseLost)
            && TalkTo(o.line.attempts, q) ==
               TalkTo(t.attempts, q) + (if q == playerId then [Said(Reject(RefusalOf(bytes)), Takes(t.answers, 1))] else [])
  {
    hide DecodePacket, TurnAway, TalkTo;
    TurnAwayTalk(policy, players, t, playerId, RefusalOf(bytes), q);
  }

  /** A Hello is answered from the record it leads to: a Welcome that offers what the record negotiated, or a Reject
      with the record's reason. */
  lemma HelloAnswered(policy: PC.HandshakePolicy, players: PC.Players, t: Line, playerId: u32, bytes: seq<byte>, q: u32)
    requires PC.Inv(policy, players)
    requires |bytes| <= MAXIMUM_PACKET_SIZE && HelloIn(bytes).Some?
    ensures var (o, (players', response)) := (DispatchClaimed(policy, players, t, playerId, bytes),
                                               PC.Hear(policy, players, playerId, HelloIn(bytes).value));
            && PC.Inv(policy, o.players)
            && o.players == players'
            && (response.Welcome? || response.Reject?)
            && (o.result == WelcomeSent <==> response.Welcome? && Takes(t.answers, 1))
            && TalkTo(o.line.attempts, q) ==
               TalkTo(t.attempts, q) + (if q == playerId then [Said(response, Takes(t.answers, 1))] else [])
  {
    hide DecodePacket, SendResponse, TalkTo, PC.Hear, PC.RecordInv, PC.Inv, IsEncodable;
    var hello := HelloIn(bytes).value;
    PC.HearKeeps(policy, players, playerId, hello);
    ResponseTalk(PC.Hear(policy, players, playerId, hello).0, t, playerId, PC.Hear(policy, players, playerId, hello).1, q);
  }

  // The object.

  class HandshakeEndpoint {
    const tracker: PC.PlayerCapabilityTracker
    const transport: ServerTransport

    constructor (tracker: PC.PlayerCapabilityTracker, transport: ServerTransport)
      ensures this.tracker == tracker && this.transport == transport
    {
      this.tracker, this.transport := tracker, transport;
    }

    method OnPlayerConnected(playerId: u32)
      modifies tracker
      ensures tracker.players == PC.Begin(old(tracker.players), playerId)
    {
      tracker.BeginHandshake(playerId);
    }

    method OnPlayerDisconnected(playerId: u32)
      modifies tracker
      ensures tracker.players == old(tracker.players) - {playerId}
    {
      tracker.RemovePlayer(playerId);
    }

    method DispatchIncoming(playerId: u32, frame: seq<byte>) returns (result: DispatchResult)
      modifies tracker, transport
      ensures Outcome(tracker.players, transport.View(), result) ==
              DispatchFrame(tracker.policy, old(tracker.players), old(transport.View()), playerId, frame)
    {
      hide DispatchClaimed;
      var inspected := Inspect(frame);
      if inspected == Unrelated {
        return UnrelatedPayload;
      }
      result := DispatchClaimedProtocol(playerId, inspected.protocolBytes);
    }

    method DispatchProtocolPayload(playerId: u32, protocolBytes: seq<byte>) returns (result: DispatchResult)
      modifies tracker, transport
      ensures Outcome(tracker.players, transport.View(), result) ==
              DispatchPayload(tracker.policy, old(tracker.players), old(transport.View()), playerId, protocolBytes)
    {
      hide DispatchClaimed;
      var inspected := InspectProtocolPayload(protocolBytes);
      if inspected == Unrelated {
        return UnrelatedPayload;
      }
      result := DispatchClaimedProtocol(playerId, inspected.protocolBytes);
    }

    method DispatchClaimedProtocol(playerId: u32, protocolBytes: seq<byte>) returns (result: DispatchResult)
      modifies tracker, transport
      ensures Outcome(tracker.players, transport.View(), result) ==
              DispatchClaimed(tracker.policy, old(tracker.players), old(transport.View()), playerId, protocolBytes)
    {
      hide DecodePacket, PC.Hear, SendResponse;
      if |protocolBytes| > MAXIMUM_PACKET_SIZE {
        result := RejectPlayer(playerId, MALFORMED_HANDSHAKE);
        return;
      }
      var decoded := DecodePacket(protocolBytes);
      if decoded.NotDecoded? {
        result := RejectPlayer(playerId, if decoded.error == UnsupportedProtocolVersion then UNSUPPORTED_PROTOCOL else MALFORMED_HANDSHAKE);
        return;
      }
      if !decoded.message.Hello? {
        result := RejectPlayer(playerId, MALFORMED_HANDSHAKE);
        return;
      }
      var response := tracker.HandleHello(playerId, decoded.message);
      result := Respond(playerId, response);
    }

    method RejectMalformed(playerId: u32) returns (result: DispatchResult)
      modifies tracker, transport
      ensures Outcome(tracker.players, transport.View(), result) ==
              TurnAway(old(tracker.players), old(transport.View()), playerId, MALFORMED_HANDSHAKE)
    {
      result := RejectPlayer(playerId, MALFORMED_HANDSHAKE);
    }

    method RejectPlayer(playerId: u32, reason: u16) returns (result: DispatchResult)
      modifies tracker, transport
      ensures Outcome(tracker.players, transport.View(), result) ==
              TurnAway(old(tracker.players), old(transport.View()), playerId, reason)
    {
      hide SendResponse;
      var response := tracker.RejectPlayer(playerId, reason);
      result := Respond(playerId, response);
    }

    method Respond(playerId: u32, response: Message) returns (result: DispatchResult)
      modifies transport
      ensures Outcome(tracker.players, transport.View(), result) ==
              SendResponse(tracker.players, old(transport.View()), playerId, response)
    {
      hide Wire;
      var frame := Wire(response);
      if frame == None {
        return ResponseLost;
      }
      var ok := transport.Send(playerId, frame.value);
      if !ok {
        return ResponseLost;
      }
      return if response.Welcome? then WelcomeSent else RejectSent;
    }
  }
}
