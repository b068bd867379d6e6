/** Whole runs of the receive hook: it loses, duplicates and invents nothing, its connection events strictly
    alternate, and each connection makes the client say Hello once. */
module HookRuns {
  import opened Bytes
  import opened Protocol
  import opened TransportFrame
  import opened ReceiveHook
  import opened AssetManager
  import opened ClientRuntime
  import CH = ClientHandshake

  /** A run: one call of the hook for each answer of the connection query. */
  function RunCalls(s: Site, answers: seq<bool>): Site {
    if answers == [] then s else Receive(RunCalls(s, answers[..|answers| - 1]), answers[|answers| - 1]).0
  }

  // What happened to the packets.

  datatype Ledger = Ledger(asked: seq<bool>, pulls: nat, pulled: seq<Packet>, returned: seq<Packet>, freed: seq<Packet>,
                          dispatched: seq<seq<byte>>)

  function Book(l: Ledger, entry: Entry): Ledger {
    match entry
    case Asked(connected) => l.(asked := l.asked + [connected])
    case Pulled(packet) => l.(pulls := l.pulls + 1, pulled := l.pulled + Present(packet))
    case Returned(packet) => l.(returned := l.returned + Present(packet))
    case Freed(packet) => l.(freed := l.freed + [packet])
    case Dispatched(bytes) => l.(dispatched := l.dispatched + [bytes])
    case _ => l
  }

  function Present(packet: Option<Packet>): seq<Packet> {
    match packet case None => [] case Some(p) => [p]
  }

  function LedgerOf(trace: seq<Entry>): Ledger {
    if trace == [] then Ledger([], 0, [], [], [], []) else Book(LedgerOf(trace[..|trace| - 1]), trace[|trace| - 1])
  }

  function Supplied(supply: seq<Option<Packet>>): seq<Packet> {
    if supply == [] then [] else Present(supply[0]) + Supplied(supply[1..])
  }

  /** The packets the hook has nothing to do with. */
  function Foreign(packets: seq<Packet>): seq<Packet> {
    if packets == [] then []
    else
      var last := packets[|packets| - 1];
      Foreign(packets[..|packets| - 1]) + if IsConsumed(last) then [] else [last]
  }

  function Own(packets: seq<Packet>): seq<Packet> {
    if packets == [] then []
    else
      var last := packets[|packets| - 1];
      Own(packets[..|packets| - 1]) + if IsConsumed(last) then [last] else []
  }

  /** What the client runtime is to be given out of them. */
  function Payloads(packets: seq<Packet>): seq<seq<byte>> {
    if packets == [] then []
    else
      var last := packets[|packets| - 1];
      Payloads(packets[..|packets| - 1]) + if IsDispatched(last) then [Inspect(last.data.value).protocolBytes] else []
  }

  ghost predicate IsBalanced(l: Ledger) {
    && l.returned == Foreign(l.pulled)
    && l.freed == Own(l.pulled)
    && l.dispatched == Payloads(l.pulled)
  }

  lemma Appended(trace: seq<Entry>, entry: Entry)
    ensures LedgerOf(trace + [entry]) == Book(LedgerOf(trace), entry)
  {
    assert (trace + [entry])[..|trace|] == trace;
  }

  lemma OneMore(packets: seq<Packet>, p: Packet)
    ensures Foreign(packets + [p]) == Foreign(packets) + if IsConsumed(p) then [] else [p]
    ensures Own(packets + [p]) == Own(packets) + if IsConsumed(p) then [p] else []
    ensures Payloads(packets + [p]) == Payloads(packets) + if IsDispatched(p) then [Inspect(p.data.value).protocolBytes] else []
  {
    hide IsConsumed, IsDispatched, Inspect;
    assert (packets + [p])[..|packets|] == packets;
  }

  /** Entries that are not about packets. */
  lemma QuietSteps(s: Site, connected: bool)
    ensures LedgerOf(ObserveConnection(s, connected).trace) == Book(LedgerOf(s.trace), Asked(connected))
    ensures LedgerOf(NotifyConnectedIfPending(s).trace) == LedgerOf(s.trace)
    ensures LedgerOf(NotifyDisconnected(s).trace) == LedgerOf(s.trace)
    ensures LedgerOf(Log(s, [PumpCall]).trace) == LedgerOf(s.trace)
    ensures ObserveConnection(s, connected).supply == NotifyConnectedIfPending(s).supply == NotifyDisconnected(s).supply == s.supply
  {
    hide LedgerOf;
    var mark := [if connected then Opened else Closed];
    var asked := s.trace + [Asked(connected)];
    Appended(s.trace, Asked(connected));
    Appended(asked, mark[0]);
    Appended(asked + mark, DisconnectedCall);
    Appended(s.trace, Closed);
    Appended(s.trace + [Closed], DisconnectedCall);
    Appended(s.trace, ConnectedCall);
    Appended(s.trace, PumpCall);
    assert asked + mark + [] == asked + mark && s.trace + [Closed] + [] == s.trace + [Closed];
  }

  lemma PullBooks(s: Site)
    ensures var (s', packet) := Pull(s);
            var (l, l') := (LedgerOf(s.trace), LedgerOf(s'.trace));
            && l' == l.(pulls := l.pulls + 1, pulled := l.pulled + Present(packet))
            && Present(packet) + Supplied(s'.supply) == Supplied(s.supply)
  {
    Appended(s.trace, Pulled(Pull(s).1));
  }

  lemma KeepBackBooks(s: Site, p: Packet)
    requires IsConsumed(p)
    ensures var (l, l') := (LedgerOf(s.trace), LedgerOf(KeepBack(s, p).trace));
            l' == l.(freed := l.freed + [p],
                     dispatched := l.dispatched + if IsDispatched(p) then [Inspect(p.data.value).protocolBytes] else [])
    ensures KeepBack(s, p).supply == s.supply
  {
    hide LedgerOf, Inspect, IsDispatched;
    var marked := MarkPending(s);
    var entry := Dispatched(Inspect(p.data.value).protocolBytes);
    Appended(marked.trace, entry);
    Appended(marked.trace + [entry], Freed(p));
    Appended(marked.trace, Freed(p));
  }

  /** The loop: one call pulls at most its allowance, gives back the first packet that is not its own, and has
      freed and dispatched those before it. */
  lemma {:induction false} ConsumeBalances(s: Site, left: nat)
    requires IsBalanced(LedgerOf(s.trace))
    ensures var (s', packet) := Consume(s, left);
            var (l, l') := (LedgerOf(s.trace), LedgerOf(s'.trace));
            && IsBalanced(Book(l', Returned(packet)))
            && l'.asked == l.asked
            && l'.pulls <= l.pulls + left
            && l'.pulled + Supplied(s'.supply) == l.pulled + Supplied(s.supply)
    decreases left
  {
    hide Pull, NotifyConnectedIfPending, KeepBack, NotifyDisconnected, IsConsumed, IsDispatched, Inspect, Foreign, Own, Payloads,
         LedgerOf, Supplied;
    if left > 0 {
      PullBooks(s);
      var (pulled, packet) := Pull(s);
      QuietSteps(pulled, false);
      var told := NotifyConnectedIfPending(pulled);
      if packet.Some? {
        var p := packet.value;
        OneMore(LedgerOf(s.trace).pulled, p);
        var l := LedgerOf(s.trace);
        assert l.pulled + ([p] + Supplied(pulled.supply)) == l.pulled + [p] + Supplied(pulled.supply);
        if IsConsumed(p) {
          KeepBackBooks(told, p);
          var kept := KeepBack(told, p);
          assert l.returned + [] == l.returned;
          ConsumeBalances(kept, left - 1);
        } else {
          HandBackQuiet(told, p);
          NotDispatched(p);
          assert l.freed + [] == l.freed && l.dispatched + [] == l.dispatched;
        }
      } else {
        NothingPulled(s);
      }
    }
  }

  lemma NotDispatched(p: Packet)
    requires !IsConsumed(p)
    ensures !IsDispatched(p)
  {}

  lemma NothingPulled(s: Site)
    requires Pull(s).1 == None
    ensures var l := LedgerOf(s.trace); LedgerOf(Pull(s).0.trace) == l.(pulls := l.pulls + 1)
    ensures Supplied(Pull(s).0.supply) == Supplied(s.supply)
  {
    PullBooks(s);
    var l := LedgerOf(s.trace);
    assert l.pulled + [] == l.pulled;
  }

  lemma HandBackQuiet(s: Site, p: Packet)
    ensures LedgerOf(HandBack(s, p).trace) == LedgerOf(s.trace) && HandBack(s, p).supply == s.supply
  {
    QuietSteps(s, false);
    QuietSteps(MarkPending(s), false);
  }

  /** One call. */
  lemma ReceiveBalances(s: Site, connected: bool)
    requires IsBalanced(LedgerOf(s.trace))
    ensures var s' := Receive(s, connected).0;
            var (l, l') := (LedgerOf(s.trace), LedgerOf(s'.trace));
            && IsBalanced(l')
            && l'.asked == l.asked + [connected]
            && l'.pulls <= l.pulls + MAXIMUM_CONSUMED_PACKETS_PER_CALL
            && l'.pulled + Supplied(s'.supply) == l.pulled + Supplied(s.supply)
  {
    hide ObserveConnection, Consume, LedgerOf, Supplied, Foreign, Own, Payloads;
    var observed := ObserveConnection(s, connected);
    QuietSteps(s, connected);
    QuietSteps(observed, connected);
    var pumped := if observed.hook.connectedEventSent then Log(observed, [PumpCall]) else observed;
    ConsumeBalances(pumped, MAXIMUM_CONSUMED_PACKETS_PER_CALL);
    var (after, packet) := Consume(pumped, MAXIMUM_CONSUMED_PACKETS_PER_CALL);
    Appended(after.trace, Returned(packet));
  }

  /** The hook is a filter: over any run, it has asked once a call, what has been pulled is the front of what the original function supplies; the
      game gets back, unchanged and in order, exactly the pulled packets that carry no CMOD frame; every packet that
      does is freed, once each and in order; the runtime is given the payloads of those that are readable and no
      larger than a frame, in order; and no call pulls more than its allowance. */
  lemma {:induction false} HookIsFilter(supply: seq<Option<Packet>>, answers: seq<bool>)
    ensures var s := RunCalls(Site(INSTALLED, supply, []), answers);
            var l := LedgerOf(s.trace);
            && l.asked == answers
            && l.pulled + Supplied(s.supply) == Supplied(supply)
            && l.returned == Foreign(l.pulled)
            && l.freed == Own(l.pulled)
            && l.dispatched == Payloads(l.pulled)
    ensures forall n | 0 <= n < |answers| ::
              var site := Site(INSTALLED, supply, []);
              var (before, after) := (RunCalls(site, answers[..n]), RunCalls(site, answers[..n + 1]));
              LedgerOf(after.trace).pulls <= LedgerOf(before.trace).pulls + MAXIMUM_CONSUMED_PACKETS_PER_CALL
  {
    hide Receive, Supplied, Foreign, Own, Payloads, LedgerOf;
    if answers == [] {
      NoPackets();
    } else {
      var (init, last) := (answers[..|answers| - 1], answers[|answers| - 1]);
      HookIsFilter(supply, init);
      var before := RunCalls(Site(INSTALLED, supply, []), init);
      ReceiveBalances(before, last);
      assert init + [last] == answers && answers[..|answers|] == answers;
      assert RunCalls(Site(INSTALLED, supply, []), answers) == Receive(before, last).0;
      forall n | 0 <= n < |answers|
        ensures var site := Site(INSTALLED, supply, []);
                var (before, after) := (RunCalls(site, answers[..n]), RunCalls(site, answers[..n + 1]));
                LedgerOf(after.trace).pulls <= LedgerOf(before.trace).pulls + MAXIMUM_CONSUMED_PACKETS_PER_CALL
      {
        hide RunCalls;
        if n < |init| {
          assert answers[..n] == init[..n] && answers[..n + 1] == init[..n + 1];
        }
      }
    }
  }

  lemma NoPackets()
    ensures Foreign([]) == [] && Own([]) == [] && Payloads([]) == [] && LedgerOf([]) == Ledger([], 0, [], [], [], [])
  {}

  // The connection events.

  /** The connection events of a trace, true for Connected. */
  function CallsIn(trace: seq<Entry>): seq<bool> {
    if trace == [] then []
    else
      CallsIn(trace[..|trace| - 1]) +
      match trace[|trace| - 1]
      case ConnectedCall => [true]
      case DisconnectedCall => [false]
      case _ => []
  }

  predicate Alternate(calls: seq<bool>) {
    forall i | 0 <= i < |calls| :: calls[i] == (i % 2 == 0)
  }

  predicate IsMark(entry: Entry) {
    entry == Opened || entry == Closed || entry == ConnectedCall
  }

  predicate IsSight(entry: Entry) {
    entry.Pulled? && entry.packet.Some? && entry.packet.value.readable
  }

  /** The hook's connection began at `o` and it has said nothing about it yet. */
  ghost predicate Untold(trace: seq<Entry>, o: int) {
    0 <= o < |trace| && trace[o] == Opened && forall i | o < i < |trace| :: !IsMark(trace[i])
  }

  /** ... and it has seen a packet in it. */
  ghost predicate Sighted(trace: seq<Entry>, o: int, j: int) {
    Untold(trace, o) && o < j < |trace| && IsSight(trace[j])
  }

  /** The call at `k` is the first in its connection, comes right after a pull, and an earlier pull of the same
      connection had yielded a packet. */
  ghost predicate IsHeralded(trace: seq<Entry>, k: int)
    requires 0 <= k < |trace|
  {
    k > 0 && trace[k - 1].Pulled? && exists o, j :: j < k - 1 && Sighted(trace[..k], o, j)
  }

  ghost predicate AllHeralded(trace: seq<Entry>) {
    forall k | 0 <= k < |trace| && trace[k] == ConnectedCall :: IsHeralded(trace, k)
  }

  ghost predicate HookInv(s: Site) {
    var h := s.hook;
    && (h.connectedEventSent ==> h.connected && !h.connectedEventPending)
    && (h.awaitingDisconnectedState ==> !h.connected)
    && (h.connectedEventPending ==> h.connected && exists o, j :: Sighted(s.trace, o, j))
    && (h.connected && !h.connectedEventSent ==> exists o :: Untold(s.trace, o))
    && Alternate(CallsIn(s.trace))
    && (h.connectedEventSent <==> |CallsIn(s.trace)| % 2 == 1)
    && AllHeralded(s.trace)
  }

  lemma AppendedCall(trace: seq<Entry>, entry: Entry)
    ensures CallsIn(trace + [entry]) == CallsIn(trace) +
            (match entry case ConnectedCall => [true] case DisconnectedCall => [false] case _ => [])
  {
    assert (trace + [entry])[..|trace|] == trace;
  }

  lemma StillHeralded(trace: seq<Entry>, entry: Entry)
    requires AllHeralded(trace) && entry != ConnectedCall
    ensures AllHeralded(trace + [entry])
  {
    hide Sighted;
    var after := trace + [entry];
    forall k | 0 <= k < |after| && after[k] == ConnectedCall
      ensures IsHeralded(after, k)
    {
      assert after[..k] == trace[..k] && IsHeralded(trace, k);
    }
  }

  lemma StillUntold(trace: seq<Entry>, entry: Entry, o: int)
    requires Untold(trace, o) && !IsMark(entry)
    ensures Untold(trace + [entry], o)
  {}

  /** An entry that is no mark and no call keeps everything about a hook that does not change. */
  lemma QuietEntry(s: Site, entry: Entry)
    requires HookInv(s) && !IsMark(entry) && entry != DisconnectedCall
    ensures HookInv(Log(s, [entry]))
    ensures forall o, j | Sighted(s.trace, o, j) :: Sighted(s.trace + [entry], o, j)
    ensures CallsIn(s.trace + [entry]) == CallsIn(s.trace)
  {
    hide IsMark, Untold, Sighted, CallsIn, AllHeralded;
    var calls := CallsIn(s.trace);
    AppendedCall(s.trace, entry);
    assert calls + [] == calls;
    MarkIs();
    StillHeralded(s.trace, entry);
    forall o | Untold(s.trace, o)
      ensures Untold(s.trace + [entry], o)
    {
      StillUntold(s.trace, entry, o);
    }
    forall o, j | Sighted(s.trace, o, j)
      ensures Sighted(s.trace + [entry], o, j)
    {
      StillSighted(s.trace, entry, o, j);
    }
  }

  lemma StillSighted(trace: seq<Entry>, entry: Entry, o: int, j: int)
    requires Sighted(trace, o, j) && !IsMark(entry)
    ensures Sighted(trace + [entry], o, j)
  {}

  lemma MarkIs()
    ensures IsMark(ConnectedCall) && IsMark(Opened) && IsMark(Closed)
  {}

  /** Closing a connection says so exactly when it had been announced. */
  lemma CloseKeeps(s: Site, awaiting: bool)
    requires HookInv(s) && s.hook.connected
    ensures HookInv(Site(Hook(false, awaiting, false, false), s.supply,
                         s.trace + [Closed] + if s.hook.connectedEventSent then [DisconnectedCall] else []))
  {
    hide CallsIn, AllHeralded, Untold, Sighted;
    var calls := CallsIn(s.trace);
    var closed := s.trace + [Closed];
    AppendedCall(s.trace, Closed);
    StillHeralded(s.trace, Closed);
    AppendedCall(closed, DisconnectedCall);
    StillHeralded(closed, DisconnectedCall);
    assert closed + [] == closed && calls + [] == calls;
  }

  lemma OpenKeeps(s: Site)
    requires HookInv(s) && !s.hook.connected && !s.hook.awaitingDisconnectedState
    ensures HookInv(Site(Hook(true, false, false, false), s.supply, s.trace + [Opened]))
  {
    hide CallsIn, AllHeralded, Sighted;
    AppendedCall(s.trace, Opened);
    StillHeralded(s.trace, Opened);
    var calls := CallsIn(s.trace);
    assert calls + [] == calls;
    assert Untold(s.trace + [Opened], |s.trace|);
  }

  lemma ObserveKeeps(s: Site, connected: bool)
    requires HookInv(s)
    ensures HookInv(ObserveConnection(s, connected))
  {
    hide CallsIn, AllHeralded, Untold, Sighted, Alternate;
    var asked := Log(s, [Asked(connected)]);
    QuietEntry(s, Asked(connected));
    assert asked.trace + [Opened] + [] == asked.trace + [Opened];
    if !s.hook.awaitingDisconnectedState && connected != s.hook.connected {
      if connected {
        OpenKeeps(asked);
      } else {
        CloseKeeps(asked, false);
      }
    } else {
      AnswerKeeps(asked);
    }
  }

  lemma AnswerKeeps(s: Site)
    requires HookInv(s)
    ensures HookInv(s.(hook := s.hook.(awaitingDisconnectedState := false)))
  {}

  /** A pull and the announcement it may bring. */
  lemma PullKeeps(s: Site)
    requires HookInv(s)
    ensures var s' := NotifyConnectedIfPending(Pull(s).0);
            && HookInv(s')
            && var packet := Pull(s).1;
            (packet.Some? && packet.value.readable && s'.hook.connected && !s'.hook.connectedEventSent ==>
              exists o, j :: Sighted(s'.trace, o, j))
  {
    hide AllHeralded, CallsIn;
    var (pulled, packet) := Pull(s);
    var entry := Pulled(packet);
    assert pulled.trace == s.trace + [entry];
    QuietEntry(s, entry);
    var s' := NotifyConnectedIfPending(pulled);
    if s'.trace != pulled.trace {
      var o, j :| Sighted(s.trace, o, j);
      AnnounceKeeps(pulled.trace, o, j);
    } else if packet.Some? && packet.value.readable && s'.hook.connected && !s'.hook.connectedEventSent {
      var o :| Untold(s.trace, o);
      StillUntold(s.trace, entry, o);
      assert Sighted(s'.trace, o, |s.trace|);
    }
  }

  lemma AnnounceKeeps(trace: seq<Entry>, o: int, j: int)
    requires AllHeralded(trace) && trace != [] && trace[|trace| - 1].Pulled?
    requires j < |trace| - 1 && Sighted(trace, o, j)
    requires Alternate(CallsIn(trace)) && |CallsIn(trace)| % 2 == 0
    ensures var after := trace + [ConnectedCall];
            && AllHeralded(after)
            && Alternate(CallsIn(after)) && |CallsIn(after)| % 2 == 1
  {
    hide CallsIn, Sighted;
    AppendedCall(trace, ConnectedCall);
    var after := trace + [ConnectedCall];
    forall k | 0 <= k < |after| && after[k] == ConnectedCall
      ensures IsHeralded(after, k)
    {
      if k < |trace| {
        assert after[..k] == trace[..k] && IsHeralded(trace, k);
      } else {
        assert after[..k] == trace;
      }
    }
  }

  lemma MarkPendingKeeps(s: Site)
    requires HookInv(s)
    requires s.hook.connected && !s.hook.connectedEventSent ==> exists o, j :: Sighted(s.trace, o, j)
    ensures HookInv(MarkPending(s))
  {
    hide CallsIn, AllHeralded, Untold, Sighted, Alternate;
  }

  lemma KeepBackKeeps(s: Site, p: Packet)
    requires HookInv(s) && IsConsumed(p)
    requires s.hook.connected && !s.hook.connectedEventSent ==> exists o, j :: Sighted(s.trace, o, j)
    ensures HookInv(KeepBack(s, p))
  {
    hide HookInv, Sighted, Inspect, IsDispatched;
    MarkPendingKeeps(s);
    var marked := MarkPending(s);
    var entry := Dispatched(Inspect(p.data.value).protocolBytes);
    QuietEntry(marked, entry);
    QuietEntry(marked, Freed(p));
    QuietEntry(Log(marked, [entry]), Freed(p));
  }

  lemma HandBackKeeps(s: Site, p: Packet)
    requires HookInv(s)
    requires p.readable && s.hook.connected && !s.hook.connectedEventSent ==> exists o, j :: Sighted(s.trace, o, j)
    ensures HookInv(HandBack(s, p))
  {
    hide HookInv, Sighted;
    if p.readable {
      MarkPendingKeeps(s);
      var marked := MarkPending(s);
      if marked.hook.connected {
        CloseKeeps(marked, true);
      }
    }
  }

  lemma {:induction false} ConsumeKeeps(s: Site, left: nat)
    requires HookInv(s)
    ensures HookInv(Consume(s, left).0)
    decreases left
  {
    hide HookInv, Sighted, Pull, NotifyConnectedIfPending, KeepBack, HandBack;
    if left > 0 {
      PullKeeps(s);
      var (pulled, packet) := Pull(s);
      var told := NotifyConnectedIfPending(pulled);
      if packet.Some? {
        ConsumedReadable(packet.value);
        if IsConsumed(packet.value) {
          KeepBackKeeps(told, packet.value);
          ConsumeKeeps(KeepBack(told, packet.value), left - 1);
        } else {
          HandBackKeeps(told, packet.value);
        }
      }
    }
  }

  lemma ConsumedReadable(p: Packet)
    ensures IsConsumed(p) ==> p.readable
  {}

  lemma ReceiveKeeps(s: Site, connected: bool)
    requires HookInv(s)
    ensures HookInv(Receive(s, connected).0)
  {
    hide HookInv, ObserveConnection, Consume;
    ObserveKeeps(s, connected);
    var observed := ObserveConnection(s, connected);
    QuietEntry(observed, PumpCall);
    var pumped := if observed.hook.connectedEventSent then Log(observed, [PumpCall]) else observed;
    ConsumeKeeps(pumped, MAXIMUM_CONSUMED_PACKETS_PER_CALL);
    var (after, packet) := Consume(pumped, MAXIMUM_CONSUMED_PACKETS_PER_CALL);
    QuietEntry(after, Returned(packet));
  }

  lemma {:induction false} RunKeeps(supply: seq<Option<Packet>>, answers: seq<bool>)
    ensures HookInv(RunCalls(Site(INSTALLED, supply, []), answers))
  {
    hide Receive, HookInv;
    if answers == [] {
      InstalledInv(supply);
    } else {
      RunKeeps(supply, answers[..|answers| - 1]);
      ReceiveKeeps(RunCalls(Site(INSTALLED, supply, []), answers[..|answers| - 1]), answers[|answers| - 1]);
    }
  }

  lemma InstalledInv(supply: seq<Option<Packet>>)
    ensures HookInv(Site(INSTALLED, supply, []))
  {}

  /** Whatever the connection query answers and whatever is pulled: the events are Connected, Disconnected, Connected,
      and so on; and a Connected comes only after a packet was pulled in its connection and another pull was made. */
  lemma ConnectionEventsAlternate(supply: seq<Option<Packet>>, answers: seq<bool>)
    ensures var trace := RunCalls(Site(INSTALLED, supply, []), answers).trace;
            Alternate(CallsIn(trace)) && AllHeralded(trace)
  {
    hide RunCalls, CallsIn, AllHeralded, Alternate, Untold, Sighted;
    RunKeeps(supply, answers);
  }

  // What the handshake makes of them.

  /** The callback of the client runtime behind an entry, if there is one. */
  function CallbackOf(entry: Entry): Option<Callback> {
    match entry
    case ConnectedCall => Some(OnEvent(ConnectedEvent))
    case DisconnectedCall => Some(OnEvent(DisconnectedEvent))
    case PumpCall => Some(OnPump)
    case Dispatched(bytes) => Some(OnPayload(bytes))
    case _ => None
  }

  /** The client runtime and the Hello packets its handshake has yielded to it. */
  datatype Greeter = Greeter(client: Client, hellos: seq<seq<byte>>)

  function Greet(c: CH.Configuration, g: Greeter, entry: Entry): Greeter {
    match CallbackOf(entry)
    case None => g
    case Some(callback) =>
      var hello := if entry == ConnectedCall then CH.Taken(c, CH.AfterConnected(g.client.handshake)).1 else None;
      Greeter(AfterCallback(c, g.client, callback), g.hellos + match hello case Some(bytes) => [bytes] case None => [])
  }

  function GreeterAfter(c: CH.Configuration, answers: seq<bool>, trace: seq<Entry>): Greeter {
    if trace == [] then Greeter(Client(CH.UNCONNECTED, FRESH, Outbox(true, answers, [])), [])
    else Greet(c, GreeterAfter(c, answers, trace[..|trace| - 1]), trace[|trace| - 1])
  }

  /** How many Connected events there are among `n` alternating ones. */
  function Connections(n: nat): nat {
    (n + 1) / 2
  }

  /** What the handshake is between events: disconnected after an even number, past its Hello after an odd one. */
  ghost predicate IsGreeted(c: CH.Configuration, g: Greeter, calls: seq<bool>) {
    && g.client.out.attached
    && (|calls| % 2 == 0 ==> g.client.handshake.state == CH.Disconnected)
    && (|calls| % 2 == 1 ==> g.client.handshake.state != CH.Disconnected &&
                             (g.client.handshake.state == CH.Connected <==> !IsEncodable(CH.HelloOf(c))))
    && |g.hellos| == (if IsEncodable(CH.HelloOf(c)) then Connections(|calls|) else 0)
    && (forall i | 0 <= i < |g.hellos| :: EncodePacket(CH.HelloOf(c), PROTOCOL_VERSION) == Encoded(g.hellos[i]))
  }

  lemma GreetStep(c: CH.Configuration, g: Greeter, calls: seq<bool>, entry: Entry)
    requires IsGreeted(c, g, calls)
    ensures match entry
            case ConnectedCall => |calls| % 2 == 0 ==> IsGreeted(c, Greet(c, g, entry), calls + [true])
            case DisconnectedCall => |calls| % 2 == 1 ==> IsGreeted(c, Greet(c, g, entry), calls + [false])
            case _ => IsGreeted(c, Greet(c, g, entry), calls)
  {
    hide EncodePacket, DecodePacket, IsEncodable, CH.IsAcceptable, ReceiveMessage, SendReport, SendReports, Encode;
    HelloEncodes(c);
    if entry.Dispatched? {
      PayloadKeeps(c, g.client, entry.bytes);
    }
    KeepsAttached(c, g.client);
  }

  /** A payload moves the handshake neither to nor from being unconnected or merely connected. */
  lemma PayloadKeeps(config: CH.Configuration, c: Client, bytes: seq<byte>)
    ensures var (h, h') := (c.handshake, Incoming(config, c, bytes).handshake);
            && (h'.state == CH.Disconnected <==> h.state == CH.Disconnected)
            && (h'.state == CH.Connected <==> h.state == CH.Connected)
    ensures Incoming(config, c, bytes).out.attached == c.out.attached
  {
    hide EncodePacket, DecodePacket, IsEncodable, CH.IsAcceptable, ReceiveMessage, SendReport, SendReports, Encode;
    KeepsAttached(config, Heeded(config, c, bytes));
    forall m {
      ReportAttached(c.out, m);
    }
  }

  lemma ReportAttached(out: Outbox, m: Message)
    ensures SendReport(out, m).attached == out.attached
  {
    hide EncodePacket, DecodePacket, Encode;
  }

  lemma {:induction false} ReportsAttached(out: Outbox, events: seq<Event>)
    ensures SendReports(out, events).attached == out.attached
  {
    hide SendReport;
    if events != [] {
      var earlier := SendReports(out, events[..|events| - 1]);
      ReportsAttached(out, events[..|events| - 1]);
      if ReportOf(events[|events| - 1]).Some? {
        ReportAttached(earlier, ReportOf(events[|events| - 1]).value);
      }
    }
  }

  lemma KeepsAttached(config: CH.Configuration, c: Client)
    ensures Pumped(c).out.attached == c.out.attached && Pumped(c).handshake == c.handshake
  {
    hide SendReports;
    ReportsAttached(c.out, c.manager.events);
  }

  lemma {:induction false} AlternationGreets(c: CH.Configuration, sends: seq<bool>, trace: seq<Entry>)
    requires Alternate(CallsIn(trace))
    ensures IsGreeted(c, GreeterAfter(c, sends, trace), CallsIn(trace))
    ensures forall k | 0 <= k < |trace| && trace[k] == ConnectedCall :: GreeterAfter(c, sends, trace[..k]).client.handshake.state == CH.Disconnected
  {
    hide IsEncodable, EncodePacket, Greet;
    if trace != [] {
      var (earlier, last) := (trace[..|trace| - 1], trace[|trace| - 1]);
      assert earlier + [last] == trace;
      AppendedCall(earlier, last);
      var calls := CallsIn(earlier);
      assert calls + [] == calls;
      assert calls <= CallsIn(trace);
      AlternationGreets(c, sends, earlier);
      GreetStep(c, GreeterAfter(c, sends, earlier), calls, last);
      assert last == ConnectedCall || last == DisconnectedCall ==> CallsIn(trace)[|calls|] == (last == ConnectedCall);
      forall k | 0 <= k < |trace| && trace[k] == ConnectedCall
        ensures GreeterAfter(c, sends, trace[..k]).client.handshake.state == CH.Disconnected
      {
        if k < |earlier| {
          assert trace[..k] == earlier[..k];
        }
      }
    }
  }

  lemma HelloEncodes(c: CH.Configuration)
    ensures EncodePacket(CH.HelloOf(c), PROTOCOL_VERSION).Encoded? <==> IsEncodable(CH.HelloOf(c))
  {
    hide PacketOf;
  }
}
