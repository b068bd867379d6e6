/** The server component: which incoming payload goes where, and when a manifest is published. */
module ServerComponent {
  import opened Bytes
  import opened Protocol
  import opened TransportFrame
  import opened ServerTransport
  import PC = PlayerCapabilities
  import HE = HandshakeEndpoint
  import AP = AssetPublication
  import AR = AssetRegistry

  type i32 = x: int | -0x8000_0000 <= x < 0x8000_0000

  /** What a packet handler finds behind the packet id: the whole bytes left to read, the odd bits after them, and
      whether reading is at a byte boundary. */
  datatype BitStream = BitStream(unread: seq<byte>, extraBits: nat, aligned: bool)

  datatype Core = Core(tracker: PC.Players, assets: AP.Players, registry: AR.Registry, line: Line)

  /** What the component makes of a payload. */
  datatype Verdict = NotOurs | Misshapen | Undecodable | HelloInput(hello: Message) | OtherInput(message: Message)

  function VerdictOf(player: i32, stream: BitStream): Verdict {
    if player < 0 || |stream.unread| < 4 || !stream.aligned || !HasProtocolMagic(stream.unread[..4]) then NotOurs
    else if stream.extraBits != 0 || |stream.unread| > MAXIMUM_PACKET_SIZE then Misshapen
    else match DecodePacket(stream.unread)
      case NotDecoded(_) => Undecodable
      case Decoded(m) => if m.Hello? then HelloInput(m) else OtherInput(m)
  }

  function AfterDispatch(s: Core, o: HE.Outcome): Core {
    s.(tracker := o.players, line := o.line)
  }

  /** A Hello is answered; only when its Welcome was sent does the manifest follow. */
  ghost function Greeted(policy: PC.HandshakePolicy, s: Core, playerId: u32, bytes: seq<byte>): Core
    requires AR.Inv(s.registry)
  {
    AR.PublishedSize(s.registry);
    var o := HE.DispatchPayload(policy, s.tracker, s.line, playerId, bytes);
    var s1 := AfterDispatch(s, o);
    if o.result != HE.WelcomeSent then s1
    else
      var (assets, line, _) := AP.Publish(s1.assets, s1.line, AR.BuildManifest(s1.registry), playerId);
      s1.(assets := assets, line := line)
  }

  /** One payload, and whether other handlers are to see it. */
  ghost function Received(policy: PC.HandshakePolicy, s: Core, player: i32, stream: BitStream): (Core, bool)
    requires AR.Inv(s.registry)
  {
    match VerdictOf(player, stream)
    case NotOurs => (s, true)
    case Misshapen => (AfterDispatch(s, HE.TurnAway(s.tracker, s.line, player, MALFORMED_HANDSHAKE)), false)
    case Undecodable => (s, false)
    case HelloInput(_) => (Greeted(policy, s, player, stream.unread), false)
    case OtherInput(m) => (s.(assets := AP.Receive(s.assets, player, m).0), false)
  }

  /** Whose payloads the component takes: those of a real player that start, at a byte boundary, with the four letters of
      the protocol. Every other one it leaves alone and passes on; none of its own does another handler ever see. */
  lemma PassesOnTheRest(policy: PC.HandshakePolicy, s: Core, player: i32, stream: BitStream)
    requires AR.Inv(s.registry)
    ensures var (s', passOn) := Received(policy, s, player, stream);
            var foreign := player < 0 || !stream.aligned || |stream.unread| < 4 || stream.unread[..4] != [0x43, 0x4D, 0x4F, 0x44];
            && (passOn <==> foreign)
            && (foreign ==> s' == s)
  {
    hide DecodePacket, AR.Inv, Greeted, AP.Receive, HE.TurnAway;
    if |stream.unread| >= 4 {
      var front := stream.unread[..4];
      assert front == [front[0], front[1], front[2], front[3]];
    }
  }

  /** Of the claimed payloads that are no Hello the component rejects exactly those whose shape is wrong, a guard any caller
      can check; every other one leaves the handshake records and the wire alone. */
  lemma RejectsOnlyMisshapen(policy: PC.HandshakePolicy, s: Core, player: i32, stream: BitStream)
    requires AR.Inv(s.registry) && PC.Inv(policy, s.tracker)
    requires VerdictOf(player, stream) != NotOurs && !VerdictOf(player, stream).HelloInput?
    ensures player >= 0
    ensures var s' := Received(policy, s, player, stream).0;
            var misshapen := stream.extraBits != 0 || |stream.unread| > MAXIMUM_PACKET_SIZE;
            && (misshapen ==>
                && player in s'.tracker && s'.tracker[player].state == PC.Rejected
                && s'.tracker[player].rejectReason == Some(MALFORMED_HANDSHAKE)
                && TalkTo(s'.line.attempts, player) ==
                   TalkTo(s.line.attempts, player) + [Said(Reject(MALFORMED_HANDSHAKE), Takes(s.line.answers, 1))])
            && (!misshapen ==> s'.tracker == s.tracker && s'.line == s.line)
  {
    hide DecodePacket, HE.TurnAway, PC.Inv, AR.Inv, AP.Receive, TalkTo;
    HE.TurnAwayTalk(policy, s.tracker, s.line, player, MALFORMED_HANDSHAKE, player);
  }

  /** The magic alone: claimed, impossible to decode, and dropped without a word. */
  const MAGIC_ONLY := BitStream([0x43, 0x4D, 0x4F, 0x44], 0, true)

  lemma UndecodableDropped(policy: PC.HandshakePolicy, s: Core, player: i32)
    requires AR.Inv(s.registry) && player >= 0
    ensures VerdictOf(player, MAGIC_ONLY) == Undecodable
    ensures Received(policy, s, player, MAGIC_ONLY) == (s, false)
  {
    hide AR.Inv;
    assert HasProtocolMagic(MAGIC_ONLY.unread[..4]);
  }

  // The object.

  class CustomModelComponent {
    const tracker: PC.PlayerCapabilityTracker
    const transport: ServerTransport
    const endpoint: HE.HandshakeEndpoint
    const registry: AR.AssetRegistry
    const assets: AP.AssetPublication
    var lastDispatch: HE.DispatchResult
    var lastAssetDispatch: AP.AssetDispatchResult

    ghost predicate Valid()
      reads this, registry
    {
      && endpoint.tracker == tracker && endpoint.transport == transport
      && assets.registry == registry && assets.transport == transport
      && registry.Valid()
    }

    function View(): Core
      reads tracker, transport, registry, assets
    {
      Core(tracker.players, assets.players, registry.View(), transport.View())
    }

    constructor (policy: PC.HandshakePolicy, answers: seq<bool>)
      ensures Valid() && tracker.policy == PC.Masked(policy)
      ensures View() == Core(map[], map[], AR.EMPTY, Line(answers, []))
      ensures fresh(tracker) && fresh(transport) && fresh(registry) && fresh(assets)
    {
      hide PC.Inv, AR.Inv, PC.Masked;
      var t := new PC.PlayerCapabilityTracker(policy);
      var l := new ServerTransport(answers);
      var r := new AR.AssetRegistry();
      tracker, transport, registry := t, l, r;
      endpoint := new HE.HandshakeEndpoint(t, l);
      assets := new AP.AssetPublication(r, l);
      lastDispatch, lastAssetDispatch := HE.ResponseLost, AP.ReportIgnored;
    }

    method Reset()
      requires Valid()
      modifies tracker, assets
      ensures Valid() && View() == old(View()).(tracker := map[], assets := map[])
    {
      tracker.Reset();
      assets.Reset();
    }

    method OnPlayerConnect(player: i32)
      requires Valid()
      modifies tracker, assets
      ensures Valid()
      ensures View() == if player < 0 then old(View())
                        else old(View()).(tracker := PC.Begin(old(tracker.players), player),
                                          assets := old(assets.players)[player := AP.PENDING])
    {
      if player >= 0 {
        endpoint.OnPlayerConnected(player);
        assets.OnPlayerConnected(player);
      }
    }

    method OnPlayerDisconnect(player: i32)
      requires Valid()
      modifies tracker, assets
      ensures Valid()
      ensures View() == if player < 0 then old(View())
                        else old(View()).(tracker := old(tracker.players) - {player},
                                          assets := old(assets.players) - {player})
    {
      if player >= 0 {
        endpoint.OnPlayerDisconnected(player);
        assets.OnPlayerDisconnected(player);
      }
    }

    method OnReceive(player: i32, stream: BitStream) returns (passOn: bool)
      requires Valid()
      modifies this, tracker, transport, assets
      ensures Valid()
      ensures (View(), passOn) == Received(tracker.policy, old(View()), player, stream)
    {
      hide DecodePacket, AP.Publish, AP.Receive, HE.TurnAway, HE.DispatchPayload, AR.BuildManifest, AR.Inv;
      if player < 0 {
        return true;
      }
      var unread := stream.unread;
      if |unread| < 4 || !stream.aligned {
        return true;
      }
      if InspectProtocolPayload(unread[..4]) == Unrelated {
        return true;
      }
      if stream.extraBits != 0 || |unread| > MAXIMUM_PACKET_SIZE {
        var _ := endpoint.RejectMalformed(player);
        return false;
      }
      var decoded := DecodePacket(unread);
      var isHello := decoded.Decoded? && decoded.message.Hello?;
      lastDispatch, lastAssetDispatch := HE.ResponseLost, AP.ReportIgnored;
      DispatchProtocol(player, unread);
      if isHello && lastDispatch == HE.WelcomeSent {
        var _ := assets.OnPlayerCompatible(player);
      }
      return false;
    }

    method DispatchProtocol(playerId: u32, bytes: seq<byte>)
      requires Valid()
      modifies this, tracker, transport, assets
      ensures Valid()
      ensures match DecodePacket(bytes)
              case NotDecoded(_) => View() == old(View()) && lastDispatch == HE.ResponseLost && lastAssetDispatch == AP.OutOfOrder
              case Decoded(m) =>
                if m.Hello? then
                  var o := HE.DispatchPayload(tracker.policy, old(tracker.players), old(transport.View()), playerId, bytes);
                  && View() == AfterDispatch(old(View()), o)
                  && lastDispatch == o.result && lastAssetDispatch == old(lastAssetDispatch)
                else
                  var (players, result) := AP.Receive(old(assets.players), playerId, m);
                  && View() == old(View()).(assets := players)
                  && lastAssetDispatch == result && lastDispatch == old(lastDispatch)
    {
      hide DecodePacket, AP.Receive, HE.DispatchPayload, AR.Inv;
      var decoded := DecodePacket(bytes);
      if decoded.NotDecoded? {
        lastDispatch, lastAssetDispatch := HE.ResponseLost, AP.OutOfOrder;
      } else if decoded.message.Hello? {
        lastDispatch := endpoint.DispatchProtocolPayload(playerId, bytes);
      } else {
        lastAssetDispatch := assets.HandleIncoming(playerId, decoded.message);
      }
    }
  }
}
