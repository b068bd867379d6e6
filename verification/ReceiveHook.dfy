/** The client's receive hook: a filter over the packets the game pulls, and the source of connection events. */
module ReceiveHook {
  import opened Bytes
  import opened TransportFrame

  const DISCONNECTION_NOTIFICATION: byte := 32
  const CONNECTION_LOST: byte := 33
  const MAXIMUM_CONSUMED_PACKETS_PER_CALL := 64

  /** A packet as the hook can see it: whether its record, the front of its data and all of its data are readable
      memory, and the data, if the record points to any. */
  datatype Packet = Packet(id: nat, readable: bool, data: Option<seq<byte>>, frontReadable: bool, wholeReadable: bool)

  /** Everything that happens at the hook's boundary. Asked is the connection query and its answer; Opened and Closed
      mark where the hook changes its mind about being connected. */
  datatype Entry =
    | Asked(connected: bool) | Opened | Closed | Pulled(packet: Option<Packet>) | ConnectedCall | DisconnectedCall | PumpCall
    | Dispatched(bytes: seq<byte>) | Freed(freed: Packet) | Returned(packet: Option<Packet>)

  datatype Hook = Hook(connected: bool, awaitingDisconnectedState: bool, connectedEventPending: bool, connectedEventSent: bool)

  /** The hook, the packets the original function will still yield (none left: it yields null), and what happened. */
  datatype Site = Site(hook: Hook, supply: seq<Option<Packet>>, trace: seq<Entry>)

  const INSTALLED := Hook(false, false, false, false)

  function Log(s: Site, entries: seq<Entry>): Site {
    s.(trace := s.trace + entries)
  }

  // The steps.

  function ObserveConnection(s: Site, connected: bool): Site {
    var asked := Log(s, [Asked(connected)]);
    if s.hook.awaitingDisconnectedState then
      if connected then asked else asked.(hook := s.hook.(awaitingDisconnectedState := false))
    else if connected == s.hook.connected then asked
    else
      Site(Hook(connected, false, false, false), s.supply,
           asked.trace + [if connected then Opened else Closed]
                       + if s.hook.connectedEventSent && !connected then [DisconnectedCall] else [])
  }

  function NotifyConnectedIfPending(s: Site): Site {
    if !s.hook.connected || !s.hook.connectedEventPending || s.hook.connectedEventSent then s
    else Log(s.(hook := s.hook.(connectedEventPending := false, connectedEventSent := true)), [ConnectedCall])
  }

  function NotifyDisconnected(s: Site): Site {
    if !s.hook.connected then s
    else
      Site(Hook(false, true, false, false), s.supply,
           s.trace + [Closed] + if s.hook.connectedEventSent then [DisconnectedCall] else [])
  }

  /** The hook finds a CMOD frame in the packet and keeps the packet from the game. */
  predicate IsConsumed(p: Packet) {
    p.readable && p.data.Some? && p.frontReadable && IsClaimed(p.data.value)
  }

  predicate IsDispatched(p: Packet) {
    IsConsumed(p) && |p.data.value| <= MAXIMUM_FRAME_SIZE && p.wholeReadable
  }

  function Pull(s: Site): (Site, Option<Packet>) {
    if s.supply == [] then (Log(s, [Pulled(None)]), None)
    else (Log(s.(supply := s.supply[1..]), [Pulled(s.supply[0])]), s.supply[0])
  }

  function MarkPending(s: Site): Site {
    if s.hook.connected && !s.hook.connectedEventSent then s.(hook := s.hook.(connectedEventPending := true)) else s
  }

  /** The packet goes back to the game, after the hook has noticed a disconnection in it. */
  function HandBack(s: Site, p: Packet): Site {
    var seen := if p.readable then MarkPending(s) else s;
    if p.readable && p.data.Some? && p.data.value != [] && p.frontReadable
       && (p.data.value[0] == DISCONNECTION_NOTIFICATION || p.data.value[0] == CONNECTION_LOST)
    then NotifyDisconnected(seen) else seen
  }

  function KeepBack(s: Site, p: Packet): Site
    requires IsConsumed(p)
  {
    var marked := MarkPending(s);
    var told := if IsDispatched(p) then Log(marked, [Dispatched(Inspect(p.data.value).protocolBytes)]) else marked;
    Log(told, [Freed(p)])
  }

  /** The loop, with `left` pulls to go. */
  function Consume(s: Site, left: nat): (Site, Option<Packet>)
    decreases left
  {
    if left == 0 then (s, None)
    else
      var (pulled, packet) := Pull(s);
      var told := NotifyConnectedIfPending(pulled);
      match packet
      case None => (told, None)
      case Some(p) => if IsConsumed(p) then Consume(KeepBack(told, p), left - 1) else (HandBack(told, p), Some(p))
  }

  function Receive(s: Site, connected: bool): (Site, Option<Packet>) {
    var observed := ObserveConnection(s, connected);
    var pumped := if observed.hook.connectedEventSent then Log(observed, [PumpCall]) else observed;
    var (after, packet) := Consume(pumped, MAXIMUM_CONSUMED_PACKETS_PER_CALL);
    (Log(after, [Returned(packet)]), packet)
  }

  // The object.

  class RakNetTransport {
    var connected: bool
    var awaitingDisconnectedState: bool
    var connectedEventPending: bool
    var connectedEventSent: bool
    var supply: seq<Option<Packet>>
    var trace: seq<Entry>

    function View(): Site
      reads this
    {
      Site(Hook(connected, awaitingDisconnectedState, connectedEventPending, connectedEventSent), supply, trace)
    }

    constructor (supply: seq<Option<Packet>>)
      ensures View() == Site(INSTALLED, supply, [])
    {
      connected, awaitingDisconnectedState, connectedEventPending, connectedEventSent := false, false, false, false;
      this.supply, trace := supply, [];
    }

    method Observe(isConnected: bool)
      modifies this
      ensures View() == ObserveConnection(old(View()), isConnected)
    {
      trace := trace + [Asked(isConnected)];
      if awaitingDisconnectedState {
        if isConnected {
          return;
        }
        awaitingDisconnectedState := false;
        return;
      }
      if isConnected == connected {
        return;
      }
      connected := isConnected;
      trace := trace + [if isConnected then Opened else Closed];
      connectedEventPending := false;
      var notifyDisconnected := connectedEventSent && !isConnected;
      connectedEventSent := false;
      if notifyDisconnected {
        trace := trace + [DisconnectedCall];
      }
    }

    method TellConnected()
      modifies this
      ensures View() == NotifyConnectedIfPending(old(View()))
    {
      if !connected || !connectedEventPending || connectedEventSent {
        return;
      }
      connectedEventPending := false;
      connectedEventSent := true;
      trace := trace + [ConnectedCall];
    }

    method TellDisconnected()
      modifies this
      ensures View() == NotifyDisconnected(old(View()))
    {
      if !connected {
        return;
      }
      connected := false;
      trace := trace + [Closed];
      awaitingDisconnectedState := true;
      connectedEventPending := false;
      var notify := connectedEventSent;
      connectedEventSent := false;
      if notify {
        trace := trace + [DisconnectedCall];
      }
    }

    method OriginalReceive() returns (packet: Option<Packet>)
      modifies this
      ensures (View(), packet) == Pull(old(View()))
    {
      packet := if supply == [] then None else supply[0];
      supply := if supply == [] then [] else supply[1..];
      trace := trace + [Pulled(packet)];
    }

    method ReceivePacket(isConnected: bool) returns (packet: Option<Packet>)
      modifies this
      ensures (View(), packet) == Receive(old(View()), isConnected)
    {
      hide Inspect;
      Observe(isConnected);
      if connectedEventSent {
        trace := trace + [PumpCall];
      }
      packet := ConsumePackets();
      trace := trace + [Returned(packet)];
    }

    method ConsumePackets() returns (packet: Option<Packet>)
      modifies this
      ensures (View(), packet) == Consume(old(View()), MAXIMUM_CONSUMED_PACKETS_PER_CALL)
    {
      hide Inspect, NotifyConnectedIfPending, NotifyDisconnected, Pull;
      for consumed := 0 to MAXIMUM_CONSUMED_PACKETS_PER_CALL
        invariant Consume(old(View()), MAXIMUM_CONSUMED_PACKETS_PER_CALL) ==
                  Consume(View(), MAXIMUM_CONSUMED_PACKETS_PER_CALL - consumed)
      {
        packet := OriginalReceive();
        TellConnected();
        if packet == None || !packet.value.readable {
          return;
        }
        if connected && !connectedEventSent {
          connectedEventPending := true;
        }
        var data := packet.value.data;
        if data == None || data.value == [] || !packet.value.frontReadable {
          Unclaimed(packet.value);
          return;
        }
        if data.value[0] == DISCONNECTION_NOTIFICATION || data.value[0] == CONNECTION_LOST {
          Unclaimed(packet.value);
          TellDisconnected();
          return;
        }
        var inspected := Inspect(data.value);
        if inspected == Unrelated {
          return;
        }
        if |data.value| <= MAXIMUM_FRAME_SIZE && packet.value.wholeReadable {
          trace := trace + [Dispatched(inspected.protocolBytes)];
        }
        trace := trace + [Freed(packet.value)];
      }
      return None;
    }
  }

  /** A packet that is short or of another kind is never a CMOD frame. */
  lemma Unclaimed(p: Packet)
    ensures p.data.Some? && (p.data.value == [] || p.data.value[0] != RAKNET_PACKET_ID) ==> !IsConsumed(p)
  {}
}
