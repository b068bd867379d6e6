/** What the receive hook's four flags are about: what has happened so far decides, without them, everything the hook
    does after every answer of the connection query and after every packet. */
module HookHistory {
  import opened Bytes
  import opened Protocol
  import opened TransportFrame
  import opened ReceiveHook
  import opened HookRuns
  import CH = ClientHandshake

  // What a history says.

  /** A connection began and has not ended. */
  ghost predicate IsOpen(t: seq<Entry>) {
    exists o :: 0 <= o < |t| && t[o] == Opened && forall i | o < i < |t| :: t[i] != Closed
  }

  /** ... and the runtime has been told of it. */
  ghost predicate IsAnnounced(t: seq<Entry>) {
    exists c :: 0 <= c < |t| && t[c] == ConnectedCall && forall i | c < i < |t| :: t[i] != Closed
  }

  /** ... and it has not. */
  ghost predicate IsUntold(t: seq<Entry>) {
    exists o :: Untold(t, o)
  }

  /** ... though a packet has been seen in it. */
  ghost predicate IsSighted(t: seq<Entry>) {
    exists o, j :: Sighted(t, o, j)
  }

  /** A packet, not an answer, ended the connection, and the query has not admitted it yet. */
  ghost predicate IsDisbelieved(t: seq<Entry>) {
    exists c :: DeniedAt(t, c)
  }

  ghost predicate DeniedAt(t: seq<Entry>, c: int) {
    0 < c < |t| && t[c] == Closed && !t[c - 1].Asked? && forall i | c < i < |t| :: t[i] != Asked(false)
  }

  /** A packet that tells of a disconnection. */
  predicate TellsOfLoss(p: Packet) {
    p.readable && p.data.Some? && p.data.value != [] && p.frontReadable && (p.data.value[0] == 32 || p.data.value[0] == 33)
  }

  /** How many packets the present call has pulled. */
  function PullsInCall(t: seq<Entry>): nat {
    if t == [] || t[|t| - 1].Asked? then 0 else PullsInCall(t[..|t| - 1]) + if t[|t| - 1].Pulled? then 1 else 0
  }

  predicate IsPrompt(entry: Entry) {
    entry.Asked? || entry.Pulled?
  }

  /** All that happens between a prompt and the next one, from what happened before it. */
  ghost function Reaction(before: seq<Entry>, prompt: Entry): seq<Entry>
    requires IsPrompt(prompt)
  {
    match prompt
    case Asked(true) =>
      if !IsOpen(before) && !IsDisbelieved(before) then [Opened] else if IsAnnounced(before) then [PumpCall] else []
    case Asked(false) =>
      if !IsOpen(before) then [] else if IsAnnounced(before) then [Closed, DisconnectedCall] else [Closed]
    case Pulled(packet) => Announcement(before) + Treatment(before, packet)
  }

  ghost function Announcement(before: seq<Entry>): seq<Entry> {
    if IsSighted(before) then [ConnectedCall] else []
  }

  ghost function Treatment(before: seq<Entry>, packet: Option<Packet>): seq<Entry> {
    if packet.Some? && IsConsumed(packet.value) then
      var data := packet.value.data.value;
      (if packet.value.wholeReadable && |data| <= 4097 then [Dispatched(data[1..])] else []) + [Freed(packet.value)] +
      if PullsInCall(before) == 63 then [Returned(None)] else []
    else if packet.Some? then Ending(before + [Pulled(packet)] + Announcement(before), packet.value) + [Returned(packet)]
    else [Returned(None)]
  }

  ghost function Ending(before: seq<Entry>, p: Packet): seq<Entry> {
    if !TellsOfLoss(p) then []
    else if !IsOpen(before) then []
    else if IsAnnounced(before) then [Closed, DisconnectedCall]
    else [Closed]
  }

  /** The prompt at `k` is followed by its reaction and then by nothing but the next prompt: the query if the call has
      ended, another pull if it has not. */
  ghost predicate Reacts(t: seq<Entry>, k: int)
    requires 0 <= k < |t| && IsPrompt(t[k])
  {
    var next := k + 1 + |Reaction(t[..k], t[k])|;
    && next <= |t| && t[k + 1..next] == Reaction(t[..k], t[k])
    && (next < |t| ==> IsPrompt(t[next]) && (t[next].Asked? <==> t[next - 1].Returned?))
  }

  ghost predicate AllReact(t: seq<Entry>) {
    forall k | 0 <= k < |t| && IsPrompt(t[k]) :: Reacts(t, k)
  }

  // One more entry.

  lemma HistoryAfter(t: seq<Entry>, e: Entry)
    ensures IsOpen(t + [e]) <==> e == Opened || (IsOpen(t) && e != Closed)
    ensures IsAnnounced(t + [e]) <==> e == ConnectedCall || (IsAnnounced(t) && e != Closed)
    ensures IsUntold(t + [e]) <==> e == Opened || (IsUntold(t) && !IsMark(e))
    ensures IsSighted(t + [e]) <==> !IsMark(e) && (IsSighted(t) || (IsUntold(t) && IsSight(e)))
    ensures IsDisbelieved(t + [e]) <==>
            (e == Closed && t != [] && !t[|t| - 1].Asked?) || (IsDisbelieved(t) && e != Asked(false))
    ensures PullsInCall(t + [e]) == if e.Asked? then 0 else PullsInCall(t) + if e.Pulled? then 1 else 0
  {
    hide PullsInCall;
    OpenAfter(t, e);
    AnnouncedAfter(t, e);
    SightedAfter(t, e);
    DisbelievedAfter(t, e);
    PullsAfter(t, e);
  }

  lemma PullsAfter(t: seq<Entry>, e: Entry)
    ensures PullsInCall(t + [e]) == if e.Asked? then 0 else PullsInCall(t) + if e.Pulled? then 1 else 0
  {
    assert (t + [e])[..|t|] == t;
  }

  lemma OpenAfter(t: seq<Entry>, e: Entry)
    ensures IsOpen(t + [e]) <==> e == Opened || (IsOpen(t) && e != Closed)
  {
    var t' := t + [e];
    assert t'[|t|] == e;
    if IsOpen(t) && e != Closed {
      var o :| 0 <= o < |t| && t[o] == Opened && forall i | o < i < |t| :: t[i] != Closed;
      assert t'[o] == Opened;
    }
    if IsOpen(t') && e != Opened {
      var o :| 0 <= o < |t'| && t'[o] == Opened && forall i | o < i < |t'| :: t'[i] != Closed;
      assert t[o] == Opened && forall i | o < i < |t| :: t[i] == t'[i];
    }
  }

  lemma AnnouncedAfter(t: seq<Entry>, e: Entry)
    ensures IsAnnounced(t + [e]) <==> e == ConnectedCall || (IsAnnounced(t) && e != Closed)
  {
    var t' := t + [e];
    assert t'[|t|] == e;
    if IsAnnounced(t) && e != Closed {
      var c :| 0 <= c < |t| && t[c] == ConnectedCall && forall i | c < i < |t| :: t[i] != Closed;
      assert t'[c] == ConnectedCall;
    }
    if IsAnnounced(t') && e != ConnectedCall {
      var c :| 0 <= c < |t'| && t'[c] == ConnectedCall && forall i | c < i < |t'| :: t'[i] != Closed;
      assert t[c] == ConnectedCall && forall i | c < i < |t| :: t[i] == t'[i];
    }
  }

  lemma UntoldAfter(t: seq<Entry>, e: Entry, o: int)
    ensures Untold(t + [e], o) <==> (e == Opened && o == |t|) || (Untold(t, o) && !IsMark(e))
  {
    var t' := t + [e];
    assert t'[|t|] == e;
    assert forall i | 0 <= i < |t| :: t'[i] == t[i];
  }

  lemma SightedAfter(t: seq<Entry>, e: Entry)
    ensures IsUntold(t + [e]) <==> e == Opened || (IsUntold(t) && !IsMark(e))
    ensures IsSighted(t + [e]) <==> !IsMark(e) && (IsSighted(t) || (IsUntold(t) && IsSight(e)))
  {
    var t' := t + [e];
    assert t'[|t|] == e;
    forall o
      ensures Untold(t', o) <==> (e == Opened && o == |t|) || (Untold(t, o) && !IsMark(e))
    {
      UntoldAfter(t, e, o);
    }
    assert e == Opened ==> Untold(t', |t|);
    if IsSighted(t) && !IsMark(e) {
      var o, j :| Sighted(t, o, j);
      assert Sighted(t', o, j);
    } else if IsUntold(t) && !IsMark(e) && IsSight(e) {
      var o :| Untold(t, o);
      UntoldIs(t, o);
      assert Sighted(t', o, |t|);
    }
    if IsSighted(t') {
      var o, j :| Sighted(t', o, j);
      UntoldIs(t', o);
      if j < |t| {
        assert t'[j] == t[j];
        assert !IsMark(e) && Sighted(t, o, j);
      }
    }
  }

  lemma UntoldIs(t: seq<Entry>, o: int)
    requires Untold(t, o)
    ensures 0 <= o < |t| && t[o] == Opened
  {}

  lemma DisbelievedAfter(t: seq<Entry>, e: Entry)
    ensures IsDisbelieved(t + [e]) <==>
            (e == Closed && t != [] && !t[|t| - 1].Asked?) || (IsDisbelieved(t) && e != Asked(false))
  {
    hide DeniedAt;
    forall c: int {
      DeniedAfter(t, e, c);
    }
    assert DeniedAt(t + [e], |t|) <==> e == Closed && t != [] && !t[|t| - 1].Asked?;
  }

  lemma DeniedAfter(t: seq<Entry>, e: Entry, c: int)
    ensures DeniedAt(t + [e], c) <==>
            (c == |t| && e == Closed && t != [] && !t[|t| - 1].Asked?) || (DeniedAt(t, c) && e != Asked(false))
    ensures DeniedAt(t, c) ==> c < |t|
  {
    var t' := t + [e];
    assert t'[|t|] == e;
    assert forall i | 0 <= i < |t| :: t'[i] == t[i];
  }

  // The flags remember the history.

  ghost predicate Remembers(h: Hook, t: seq<Entry>) {
    && (h.connected <==> IsOpen(t))
    && (h.connectedEventSent <==> IsAnnounced(t))
    && (h.connectedEventPending <==> IsSighted(t))
    && (h.awaitingDisconnectedState <==> IsDisbelieved(t))
    && (IsUntold(t) <==> IsOpen(t) && !IsAnnounced(t))
    && (IsAnnounced(t) ==> IsOpen(t))
    && (IsSighted(t) ==> IsUntold(t))
    && (IsDisbelieved(t) ==> !IsOpen(t))
  }

  /** The query, its answer and the pump. */
  function Observed(s: Site, connected: bool): Site {
    var observed := ObserveConnection(s, connected);
    if observed.hook.connectedEventSent then Log(observed, [PumpCall]) else observed
  }

  lemma ObserveRemembers(s: Site, connected: bool)
    requires Remembers(s.hook, s.trace)
    ensures var s' := Observed(s, connected);
            && s'.trace == s.trace + [Asked(connected)] + Reaction(s.trace, Asked(connected))
            && Remembers(s'.hook, s'.trace) && PullsInCall(s'.trace) == 0
            && !s'.trace[|s'.trace| - 1].Returned?
  {
    hide IsOpen, IsAnnounced, IsUntold, IsSighted, IsDisbelieved, PullsInCall;
    var asked := s.trace + [Asked(connected)];
    HistoryAfter(s.trace, Asked(connected));
    HistoryAfter(asked, PumpCall);
    HistoryAfter(asked, Opened);
    HistoryAfter(asked, Closed);
    HistoryAfter(asked + [Closed], DisconnectedCall);
    assert asked + [Opened] + [] == asked + [Opened] && asked + [Closed] + [] == asked + [Closed] && asked + [] == asked;
    assert asked + [Closed] + [DisconnectedCall] == asked + [Closed, DisconnectedCall];
  }

  /** One pull in a call that has `left` to go, and all that comes of it up to the next prompt. */
  function Turned(s: Site, left: nat): Site
    requires left > 0
  {
    var (pulled, packet) := Pull(s);
    var told := NotifyConnectedIfPending(pulled);
    if packet == None then Log(told, [Returned(None)])
    else if !IsConsumed(packet.value) then Log(HandBack(told, packet.value), [Returned(packet)])
    else
      var kept := KeepBack(told, packet.value);
      if left == 1 then Log(kept, [Returned(None)]) else kept
  }

  /** Before the packet is looked at, the flags know of everything but the packet. */
  lemma ToldRemembers(s: Site)
    requires Remembers(s.hook, s.trace)
    ensures var (pulled, packet) := Pull(s);
            var told := NotifyConnectedIfPending(pulled);
            && told.trace == s.trace + [Pulled(packet)] + Announcement(s.trace)
            && PullsInCall(told.trace) == PullsInCall(s.trace) + 1
            && (packet.Some? && packet.value.readable ==> Remembers(MarkPending(told).hook, told.trace))
            && (!(packet.Some? && packet.value.readable) ==> Remembers(told.hook, told.trace))
            && (IsOpen(told.trace) <==> IsOpen(s.trace))
            && (IsAnnounced(told.trace) <==> IsAnnounced(s.trace) || IsSighted(s.trace))
            && !told.trace[|told.trace| - 1].Asked?
  {
    hide IsOpen, IsAnnounced, IsUntold, IsSighted, IsDisbelieved, PullsInCall;
    var pulled := s.trace + [Pulled(Pull(s).1)];
    HistoryAfter(s.trace, Pulled(Pull(s).1));
    HistoryAfter(pulled, ConnectedCall);
    assert pulled + [] == pulled;
  }

  lemma HandBackRemembers(s: Site, p: Packet)
    requires Remembers((if p.readable then MarkPending(s) else s).hook, s.trace)
    requires s.trace != [] && !s.trace[|s.trace| - 1].Asked?
    ensures var s' := HandBack(s, p);
            && s'.trace == s.trace + Ending(s.trace, p)
            && Remembers(s'.hook, s'.trace)
  {
    hide IsOpen, IsAnnounced, IsUntold, IsSighted, IsDisbelieved;
    HistoryAfter(s.trace, Closed);
    HistoryAfter(s.trace + [Closed], DisconnectedCall);
    assert s.trace + [Closed] + [DisconnectedCall] == s.trace + [Closed, DisconnectedCall];
    assert s.trace + [Closed] + [] == s.trace + [Closed] && s.trace + [] == s.trace;
  }

  lemma KeepBackRemembers(s: Site, p: Packet)
    requires IsConsumed(p) && Remembers(MarkPending(s).hook, s.trace)
    ensures var s' := KeepBack(s, p);
            && s'.trace ==
               s.trace + (if p.wholeReadable && |p.data.value| <= 4097 then [Dispatched(p.data.value[1..])] else []) + [Freed(p)]
            && Remembers(s'.hook, s'.trace)
            && PullsInCall(s'.trace) == PullsInCall(s.trace)
  {
    hide IsOpen, IsAnnounced, IsUntold, IsSighted, IsDisbelieved, PullsInCall;
    var entry := Dispatched(p.data.value[1..]);
    HistoryAfter(s.trace, entry);
    HistoryAfter(s.trace + [entry], Freed(p));
    HistoryAfter(s.trace, Freed(p));
    assert s.trace + [] == s.trace;
  }

  lemma ReturnRemembers(s: Site, packet: Option<Packet>)
    requires Remembers(s.hook, s.trace)
    ensures Remembers(s.hook, s.trace + [Returned(packet)])
  {
    hide IsOpen, IsAnnounced, IsUntold, IsSighted, IsDisbelieved, PullsInCall;
    HistoryAfter(s.trace, Returned(packet));
  }

  /** A pull does what the history before it calls for. */
  lemma TurnRemembers(s: Site, left: nat)
    requires Remembers(s.hook, s.trace) && 0 < left && PullsInCall(s.trace) == MAXIMUM_CONSUMED_PACKETS_PER_CALL - left
    ensures var (s', packet) := (Turned(s, left), Pull(s).1);
            && s'.trace == s.trace + [Pulled(packet)] + Reaction(s.trace, Pulled(packet))
            && Remembers(s'.hook, s'.trace)
            && (left > 1 && packet.Some? && IsConsumed(packet.value) ==>
                PullsInCall(s'.trace) == MAXIMUM_CONSUMED_PACKETS_PER_CALL - (left - 1))
  {
    hide IsOpen, IsAnnounced, IsUntold, IsSighted, IsDisbelieved, PullsInCall, IsDispatched, Remembers, HandBack, KeepBack,
         MarkPending, Pull, NotifyConnectedIfPending, Announcement;
    ToldRemembers(s);
    var (pulled, packet) := Pull(s);
    var told := NotifyConnectedIfPending(pulled);
    if packet == None {
      ReturnRemembers(told, None);
    } else if IsConsumed(packet.value) {
      KeepBackRemembers(told, packet.value);
      ReturnRemembers(KeepBack(told, packet.value), None);
    } else {
      HandBackRemembers(told, packet.value);
      ReturnRemembers(HandBack(told, packet.value), packet);
    }
  }

  // Every prompt gets its reaction.

  lemma ReactionHasNoPrompt(before: seq<Entry>, prompt: Entry)
    requires IsPrompt(prompt)
    ensures forall e | e in Reaction(before, prompt) :: !IsPrompt(e)
  {
    hide IsOpen, IsAnnounced, IsSighted, IsDisbelieved, IsConsumed, IsDispatched, TellsOfLoss, PullsInCall;
  }

  /** How many announcements the history has called for, and how many there were. */
  ghost function Due(t: seq<Entry>): nat {
    if t == [] then 0
    else Due(t[..|t| - 1]) + if t[|t| - 1].Pulled? && IsSighted(t[..|t| - 1]) then 1 else 0
  }

  function Told(t: seq<Entry>): nat {
    if t == [] then 0 else Told(t[..|t| - 1]) + if t[|t| - 1] == ConnectedCall then 1 else 0
  }

  lemma CountsAfter(t: seq<Entry>, e: Entry)
    ensures Due(t + [e]) == Due(t) + if e.Pulled? && IsSighted(t) then 1 else 0
    ensures Told(t + [e]) == Told(t) + if e == ConnectedCall then 1 else 0
  {
    hide IsSighted;
    assert (t + [e])[..|t|] == t;
  }

  lemma {:induction false} CountsOver(t: seq<Entry>, r: seq<Entry>)
    requires forall e | e in r :: !IsPrompt(e) && e != ConnectedCall
    ensures Due(t + r) == Due(t) && Told(t + r) == Told(t)
  {
    hide Due, Told;
    if r == [] {
      assert t + r == t;
    } else {
      var (init, last) := (r[..|r| - 1], r[|r| - 1]);
      CountsOver(t, init);
      CountsAfter(t + init, last);
      assert last in r && t + init + [last] == t + r;
    }
  }

  lemma TurnCounts(t: seq<Entry>, prompt: Entry)
    requires IsPrompt(prompt)
    ensures var t' := t + [prompt] + Reaction(t, prompt);
            Due(t') - Due(t) == Told(t') - Told(t)
  {
    hide IsOpen, IsAnnounced, IsSighted, IsDisbelieved, IsConsumed, IsDispatched, TellsOfLoss, PullsInCall, Due, Told;
    CountsAfter(t, prompt);
    var asked := t + [prompt];
    match prompt {
      case Asked(_) => CountsOver(asked, Reaction(t, prompt));
      case Pulled(packet) =>
        var rest := Treatment(t, packet);
        CountsOver(asked, rest);
        CountsAfter(asked, ConnectedCall);
        CountsOver(asked + [ConnectedCall], rest);
        assert asked + ([] + rest) == asked + rest && asked + ([ConnectedCall] + rest) == asked + [ConnectedCall] + rest;
    }
  }

  ghost predicate Settles(t: seq<Entry>) {
    AllReact(t) && Due(t) == Told(t)
  }

  lemma AnotherTurn(t: seq<Entry>, prompt: Entry)
    requires Settles(t) && IsPrompt(prompt)
    requires t != [] ==> (prompt.Asked? <==> t[|t| - 1].Returned?)
    ensures Settles(t + [prompt] + Reaction(t, prompt))
  {
    hide Reaction, Due, Told, Reacts;
    TurnCounts(t, prompt);
    var r := Reaction(t, prompt);
    var t' := t + [prompt] + r;
    ReactionHasNoPrompt(t, prompt);
    forall k | 0 <= k < |t'| && IsPrompt(t'[k])
      ensures Reacts(t', k)
    {
      assert k < |t| ==> t'[k] == t[k];
      if k < |t| {
        StillReacts(t, [prompt] + r, k);
        assert t + ([prompt] + r) == t';
      } else if k == |t| {
        NewReacts(t, prompt);
      }
    }
  }

  lemma StillReacts(t: seq<Entry>, more: seq<Entry>, k: int)
    requires 0 <= k < |t| && IsPrompt(t[k]) && Reacts(t, k)
    requires more != [] && IsPrompt(more[0]) && (more[0].Asked? <==> t[|t| - 1].Returned?)
    ensures Reacts(t + more, k)
  {
    hide Reaction;
    var t' := t + more;
    assert t'[..k] == t[..k];
    var next := k + 1 + |Reaction(t[..k], t[k])|;
    assert t'[k + 1..next] == t[k + 1..next];
    assert t'[|t|] == more[0];
  }

  lemma NewReacts(t: seq<Entry>, prompt: Entry)
    requires IsPrompt(prompt)
    ensures Reacts(t + [prompt] + Reaction(t, prompt), |t|)
  {
    hide Reaction;
    var t' := t + [prompt] + Reaction(t, prompt);
    assert t'[..|t|] == t && t'[|t| + 1..] == Reaction(t, prompt);
  }

  lemma {:induction false} ConsumeReacts(s: Site, left: nat)
    requires Remembers(s.hook, s.trace) && Settles(s.trace)
    requires 0 < left && PullsInCall(s.trace) == MAXIMUM_CONSUMED_PACKETS_PER_CALL - left
    requires s.trace != [] && !s.trace[|s.trace| - 1].Returned?
    ensures var (s', packet) := Consume(s, left);
            var t := s'.trace + [Returned(packet)];
            Remembers(s'.hook, t) && Settles(t) && s.trace <= t
    decreases left
  {
    hide Remembers, Reaction, Settles, PullsInCall, KeepBack, HandBack, Pull, NotifyConnectedIfPending, IsConsumed;
    var packet := Pull(s).1;
    TurnRemembers(s, left);
    AnotherTurn(s.trace, Pulled(packet));
    var told := NotifyConnectedIfPending(Pull(s).0);
    assert packet.Some? && IsConsumed(packet.value) ==>
      Consume(s, left) == Consume(KeepBack(told, packet.value), left - 1);
    if packet.Some? && IsConsumed(packet.value) && left > 1 {
      LastFreed(told, packet.value);
      ConsumeReacts(Turned(s, left), left - 1);
    }
  }

  lemma LastFreed(s: Site, p: Packet)
    requires IsConsumed(p)
    ensures var t := KeepBack(s, p).trace; t != [] && t[|t| - 1] == Freed(p)
  {}

  /** A call. */
  ghost predicate IsSettled(s: Site) {
    Remembers(s.hook, s.trace) && Settles(s.trace) && (s.trace != [] ==> s.trace[0].Asked? && s.trace[|s.trace| - 1].Returned?)
  }

  lemma ReceiveReacts(s: Site, connected: bool)
    requires IsSettled(s)
    ensures IsSettled(Receive(s, connected).0)
  {
    hide Remembers, Reaction, Settles, PullsInCall, Consume, ObserveConnection;
    ObserveRemembers(s, connected);
    AnotherTurn(s.trace, Asked(connected));
    ConsumeReacts(Observed(s, connected), MAXIMUM_CONSUMED_PACKETS_PER_CALL);
  }

  lemma FreshSettled(supply: seq<Option<Packet>>)
    ensures IsSettled(Site(INSTALLED, supply, []))
  {}

  lemma {:induction false} RunReacts(supply: seq<Option<Packet>>, answers: seq<bool>)
    ensures IsSettled(RunCalls(Site(INSTALLED, supply, []), answers))
  {
    hide Receive, IsSettled;
    if answers == [] {
      FreshSettled(supply);
    } else {
      RunReacts(supply, answers[..|answers| - 1]);
      ReceiveReacts(RunCalls(Site(INSTALLED, supply, []), answers[..|answers| - 1]), answers[|answers| - 1]);
    }
  }

  /** Over any run the history decides: it begins with a query, ends with what a call returned, and after every
      answer and every packet there is exactly the reaction called for by what happened before, then the next query or the
      next pull. With the answers and the packets (`HookRuns.HookIsFilter`) that leaves nothing open. */
  lemma HistoryDecides(supply: seq<Option<Packet>>, answers: seq<bool>)
    ensures var t := RunCalls(Site(INSTALLED, supply, []), answers).trace;
            && AllReact(t)
            && (t != [] ==> t[0].Asked? && t[|t| - 1].Returned?)
  {
    hide RunCalls, AllReact, Remembers;
    RunReacts(supply, answers);
  }

  /** The reaction to a packet that tells of a loss. */
  lemma LossReaction(before: seq<Entry>, p: Packet)
    requires TellsOfLoss(p)
    ensures Reaction(before, Pulled(Some(p))) ==
            (if IsSighted(before) then [ConnectedCall] else []) +
            (if !IsOpen(before) then []
             else if IsAnnounced(before) || IsSighted(before) then [Closed, DisconnectedCall]
             else [Closed]) + [Returned(Some(p))]
  {
    hide IsOpen, IsAnnounced, IsSighted, IsDisbelieved, IsUntold, PullsInCall;
    var pulled := before + [Pulled(Some(p))];
    HistoryAfter(before, Pulled(Some(p)));
    HistoryAfter(pulled, ConnectedCall);
    Unclaimed(p);
    assert pulled + [] == pulled;
  }

  /** What comes after a prompt, entry by entry. */
  lemma ReactionAt(supply: seq<Option<Packet>>, answers: seq<bool>, k: nat)
    requires var t := RunCalls(Site(INSTALLED, supply, []), answers).trace; k < |t| && IsPrompt(t[k])
    ensures var t := RunCalls(Site(INSTALLED, supply, []), answers).trace;
            var r := Reaction(t[..k], t[k]);
            && k + 1 + |r| <= |t|
            && (forall i | 0 <= i < |r| :: t[k + 1 + i] == r[i])
            && (k + 1 + |r| == |t| ==> t[|t| - 1].Returned?)
            && (k + 1 + |r| < |t| ==> IsPrompt(t[k + 1 + |r|]))
  {
    hide RunCalls, Reaction;
    HistoryDecides(supply, answers);
    var t := RunCalls(Site(INSTALLED, supply, []), answers).trace;
    assert Reacts(t, k);
    var r := Reaction(t[..k], t[k]);
    forall i | 0 <= i < |r|
      ensures t[k + 1 + i] == r[i]
    {
      assert t[k + 1..k + 1 + |r|][i] == r[i];
    }
  }

  /** The same about connections, entry by entry: a connection that is not known opens with the first true answer that is
      not the echo of a loss; the first pull after a packet has been seen in it announces it at once; and a false answer
      or a packet that tells of a loss closes it, with a Disconnected exactly when it had been announced. */
  lemma EventsFollow(supply: seq<Option<Packet>>, answers: seq<bool>, k: nat)
    requires var t := RunCalls(Site(INSTALLED, supply, []), answers).trace; k < |t|
    ensures var t := RunCalls(Site(INSTALLED, supply, []), answers).trace;
            var before := t[..k];
            && (t[k] == Asked(true) && !IsOpen(before) && !IsDisbelieved(before) ==> k + 1 < |t| && t[k + 1] == Opened)
            && (t[k] == Asked(false) && IsOpen(before) ==>
                && k + 2 < |t| && t[k + 1] == Closed
                && (t[k + 2] == DisconnectedCall <==> IsAnnounced(before)))
            && (t[k].Pulled? && IsSighted(before) ==> k + 1 < |t| && t[k + 1] == ConnectedCall)
            && (t[k].Pulled? && t[k].packet.Some? && TellsOfLoss(t[k].packet.value) && IsOpen(before) ==>
                && (IsSighted(before) ==> k + 3 < |t| && t[k + 1..k + 4] == [ConnectedCall, Closed, DisconnectedCall])
                && (!IsSighted(before) ==>
                    && k + 2 < |t| && t[k + 1] == Closed
                    && (t[k + 2] == DisconnectedCall <==> IsAnnounced(before))))
  {
    hide RunCalls, IsOpen, IsAnnounced, IsSighted, IsDisbelieved, TellsOfLoss, Treatment;
    var t := RunCalls(Site(INSTALLED, supply, []), answers).trace;
    if IsPrompt(t[k]) {
      ReactionAt(supply, answers, k);
      var r := Reaction(t[..k], t[k]);
      assert (|r| > 0 ==> t[k + 1 + 0] == r[0]) && (|r| > 1 ==> t[k + 1 + 1] == r[1]) && (|r| > 2 ==> t[k + 1 + 2] == r[2]);
      if t[k].Pulled? && t[k].packet.Some? && TellsOfLoss(t[k].packet.value) {
        LossReaction(t[..k], t[k].packet.value);
      }
    }
  }

  lemma {:induction false} ToldAlternately(t: seq<Entry>)
    requires Alternate(CallsIn(t))
    ensures Told(t) == Connections(|CallsIn(t)|)
  {
    if t != [] {
      var (init, last) := (t[..|t| - 1], t[|t| - 1]);
      assert init + [last] == t;
      AppendedCall(init, last);
      assert CallsIn(init) + [] == CallsIn(init) && CallsIn(init) <= CallsIn(t);
      ToldAlternately(init);
      assert last == ConnectedCall || last == DisconnectedCall ==> CallsIn(t)[|CallsIn(init)|] == (last == ConnectedCall);
    }
  }

  /** Driven by the hook, the handshake is disconnected whenever Connected arrives, and has said Hello exactly as often as
      a packet had been seen in an unannounced connection and another one was pulled, whatever packets come in between
      (never, for a configuration that has no Hello packet). */
  lemma OneHelloPerConnection(c: CH.Configuration, sends: seq<bool>, supply: seq<Option<Packet>>, answers: seq<bool>)
    ensures var t := RunCalls(Site(INSTALLED, supply, []), answers).trace;
            && (forall k | 0 <= k < |t| && t[k] == ConnectedCall ::
                  GreeterAfter(c, sends, t[..k]).client.handshake.state == CH.Disconnected)
            && |GreeterAfter(c, sends, t).hellos| == (if IsEncodable(CH.HelloOf(c)) then Due(t) else 0)
  {
    hide RunCalls, CallsIn, Alternate, GreeterAfter, AllHeralded, IsEncodable, AllReact, Remembers, Due, Told, Connections;
    var t := RunCalls(Site(INSTALLED, supply, []), answers).trace;
    ConnectionEventsAlternate(supply, answers);
    AlternationGreets(c, sends, t);
    RunReacts(supply, answers);
    ToldAlternately(t);
  }
}
