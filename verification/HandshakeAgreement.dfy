/** The two halves of the handshake, put together over delivered frames, agree. */
module HandshakeAgreement {
  import opened Bytes
  import opened Protocol
  import opened ProtocolExactness
  import opened TransportFrame
  import opened ServerTransport
  import opened HandshakeEndpoint
  import PC = PlayerCapabilities
  import CH = ClientHandshake

  /** A new connection on both sides, one Hello, one answer, and the client's confirmation when it is welcomed.
      The Hello travels as a frame and reaches the server without its carrier byte; the answer comes back as one. */
  function Loopback(c: CH.Configuration, policy: PC.HandshakePolicy, players: PC.Players, playerId: u32): (CH.Handshake, PC.Players) {
    var players1 := PC.Begin(players, playerId);
    var (h1, hello) := CH.Taken(c, CH.AfterConnected(CH.UNCONNECTED));
    match hello
    case None => (h1, players1)
    case Some(bytes) =>
      var o := DispatchPayload(policy, players1, Line([true], []), playerId, bytes);
      if o.line.attempts == [] then (h1, o.players)
      else
        match Inspect(o.line.attempts[0].frame)
        case Unrelated => (h1, o.players)
        case CustomModel(answer) => (CH.Confirmed(CH.AfterPacket(c, h1, answer).0).0, o.players)
  }

  /** What a first Hello is answered with. */
  function Answer(c: CH.Configuration, policy: PC.HandshakePolicy): Message {
    var hello := CH.HelloOf(c);
    match PC.Objection(policy, hello)
    case Some(reason) => Reject(reason)
    case None => Welcome(PROTOCOL_VERSION, policy.serverRuntimeVersion, PROTOCOL_VERSION,
                         BitAnd(c.capabilities, policy.serverCapabilities))
  }

  lemma HelloTravels(c: CH.Configuration)
    requires c.sampVersion <= R4_FAMILY && AreCapabilitiesValid(c.capabilities)
    ensures var (h, hello) := CH.Taken(c, CH.AfterConnected(CH.UNCONNECTED));
            && h == CH.Handshake(CH.HelloSent, None, None)
            && hello.Some?
            && |hello.value| <= MAXIMUM_PACKET_SIZE
            && HasProtocolMagic(hello.value)
            && DecodePacket(hello.value) == Decoded(CH.HelloOf(c))
  {
    hide DecodePacket, PacketOf, HasProtocolMagic, AreCapabilitiesValid;
    DecodeOfEncode(CH.HelloOf(c));
    PayloadLength(CH.HelloOf(c));
    PacketHasMagic(CH.HelloOf(c));
  }

  /** The client takes the answer for what it says: a Welcome it can live with, or a Reject. */
  lemma AnswerTaken(c: CH.Configuration, policy: PC.HandshakePolicy, frame: seq<byte>)
    requires AreCapabilitiesValid(policy.serverCapabilities)
    requires Wire(Answer(c, policy)) == Some(frame)
    ensures Inspect(frame).CustomModel?
    ensures var h := CH.Confirmed(CH.AfterPacket(c, CH.Handshake(CH.HelloSent, None, None), Inspect(frame).protocolBytes).0).0;
            h == if Answer(c, policy).Welcome? then CH.Handshake(CH.ClientCompatible, Some(Answer(c, policy)), None)
                 else CH.Handshake(CH.ClientRejected, None, Some(Answer(c, policy)))
  {
    hide Wire, DecodePacket, Inspect, BitAnd, AreCapabilitiesValid, PC.Objection;
    var m := Answer(c, policy);
    WireExactness(m, frame);
    if m.Welcome? {
      PC.MaskedByValid(c.capabilities, policy.serverCapabilities);
      BitAndWithin(c.capabilities, policy.serverCapabilities);
    }
  }

  lemma AnswerEncodable(c: CH.Configuration, policy: PC.HandshakePolicy)
    requires AreCapabilitiesValid(policy.serverCapabilities)
    ensures IsEncodable(Answer(c, policy))
    ensures Wire(Answer(c, policy)).Some?
  {
    hide Wire, BitAnd, AreCapabilitiesValid, PC.IsKnownBuild, PC.HasTransport, PC.IsRuntimeSupported;
    PC.MaskedByValid(c.capabilities, policy.serverCapabilities);
    WireExactness(Answer(c, policy), []);
  }

  /** What has to fit for the two sides to take each other, read off their configurations. */
  ghost predicate Fits(c: CH.Configuration, policy: PC.HandshakePolicy) {
    && c.runtimeVersion.major == policy.minimumClientRuntime.major
    && PC.Release(c.runtimeVersion) >= PC.Release(policy.minimumClientRuntime)
    && (c.sampVersion == 1 || c.sampVersion == 4)
    && Covers(c.capabilities, policy.requiredCapabilities)
    && Covers(policy.serverCapabilities, policy.requiredCapabilities)
  }

  lemma FitsExactly(client: CH.Configuration, policy: PC.HandshakePolicy)
    ensures var c := CH.Masked(client);
            PC.Objection(policy, CH.HelloOf(c)) == None <==> Fits(c, policy)
  {
    hide BitAnd, HasBit, PC.IsKnownBuild, PC.HasTransport, PC.IsRuntimeSupported, PC.Release;
    var c := CH.Masked(client);
    PC.ObjectionMeans(policy, CH.HelloOf(c));
    DeclaredValid(client.capabilities);
  }

  /** Agreement: when both messages get through, a fresh connection ends with both sides compatible on the same
      negotiated capabilities, if their configurations fit, and otherwise with both sides rejected for the same reason; and
      the server has on record what the client declared. Only a client whose build number is not a protocol value
      never says Hello, and then nothing happens. */
  lemma LoopbackAgreement(client: CH.Configuration, server: PC.HandshakePolicy, players: PC.Players, playerId: u32)
    ensures var (c, policy) := (CH.Masked(client), PC.Masked(server));
            var (h, players') := Loopback(c, policy, players, playerId);
            && playerId in players' && players' - {playerId} == players - {playerId}
            && var p := players'[playerId];
            && (c.sampVersion > 7 ==> h.state == CH.Connected && p == PC.PENDING)
            && (c.sampVersion <= 7 ==>
                && p.runtimeVersion == client.runtimeVersion && p.protocolVersion == 1
                && p.sampVersion == client.sampVersion && p.declaredCapabilities == c.capabilities
                && if Fits(c, policy) then
                  && h.state == CH.ClientCompatible && p.state == PC.Compatible
                  && h.welcome.Some? && h.welcome.value.Welcome?
                  && h.welcome.value.serverRuntimeVersion == server.serverRuntimeVersion
                  && h.welcome.value.negotiatedCapabilities == p.negotiatedCapabilities
                                                            == BitAnd(c.capabilities, policy.serverCapabilities)
                else
                  && h.state == CH.ClientRejected && p.state == PC.Rejected && p.rejectReason.Some?
                  && h.rejection == Some(Reject(p.rejectReason.value)))
  {
    hide DecodePacket, Wire, Inspect, BitAnd, AreCapabilitiesValid, PC.Objection, HasProtocolMagic, Fits;
    var (c, policy) := (CH.Masked(client), PC.Masked(server));
    PC.MaskedValid(server);
    FitsExactly(client, policy);
    assert AreCapabilitiesValid(c.capabilities) by {
      DeclaredValid(client.capabilities);
    }
    if c.sampVersion <= R4_FAMILY {
      HelloTravels(c);
      AnswerEncodable(c, policy);
      var frame := Wire(Answer(c, policy)).value;
      AnswerTaken(c, policy, frame);
    }
  }

  lemma DeclaredValid(flags: u32)
    ensures AreCapabilitiesValid(BitAnd(flags, DECLARED_CAPABILITIES))
  {
    hide BitAnd;
    BitAndCommutes(flags, DECLARED_CAPABILITIES);
    BitAndWithin(DECLARED_CAPABILITIES, flags);
  }

  /** When they agree on compatibility, the negotiated bits are those declared by the client, offered by the server
      and known to the protocol, and no required bit is missing. */
  lemma AgreedCapabilities(client: CH.Configuration, server: PC.HandshakePolicy, i: nat)
    ensures var (c, policy) := (CH.Masked(client), PC.Masked(server));
            var shared := BitAnd(c.capabilities, policy.serverCapabilities);
            && (HasBit(shared, i) <==>
                HasBit(client.capabilities, i) && HasBit(server.serverCapabilities, i) && HasBit(DECLARED_CAPABILITIES, i))
            && (Fits(c, policy) ==>
                (HasBit(server.requiredCapabilities, i) && HasBit(DECLARED_CAPABILITIES, i) ==> HasBit(shared, i)))
  {
    hide BitAnd, HasBit, AreCapabilitiesValid, PC.IsKnownBuild, PC.HasTransport, PC.IsRuntimeSupported;
    var (c, policy) := (CH.Masked(client), PC.Masked(server));
    BitAndIsIntersection(client.capabilities, DECLARED_CAPABILITIES, i);
    BitAndIsIntersection(server.serverCapabilities, DECLARED_CAPABILITIES, i);
    BitAndIsIntersection(server.requiredCapabilities, DECLARED_CAPABILITIES, i);
    BitAndIsIntersection(c.capabilities, policy.serverCapabilities, i);
  }
}
