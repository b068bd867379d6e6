/** A publication outlives a rejection: exactly when a player with a published manifest is still compatible. */
module PublicationStanding {
  import opened Bytes
  import opened Protocol
  import opened ProtocolExactness
  import opened ManifestStream
  import opened TransportFrame
  import opened ServerTransport
  import opened ServerComponent
  import opened PublicationGate
  import PC = PlayerCapabilities
  import AR = AssetRegistry

  predicate IsCompatible(w: Watch) {
    w.player in w.core.tracker && w.core.tracker[w.player].state == PC.Compatible
  }

  predicate IsRejected(w: Watch) {
    w.player in w.core.tracker && w.core.tracker[w.player].state == PC.Rejected
  }

  /** The inputs that get a compatible player with record `p` rejected: its own misshapen payload, and its own Hello
      that is not the one it was welcomed for. */
  predicate Offends(player: u32, p: PC.PlayerCapabilityState, event: ServerEvent) {
    && event.Sends? && event.player == player
    && match VerdictOf(event.player, event.stream)
       case Misshapen => true
       case HelloInput(hello) => hello.Hello? && !PC.SameHello(p, hello)
       case _ => false
  }

  /** One event: a compatible player stays so, record and all, exactly when the event is no such input; otherwise it is
      rejected, and its publication stands all the same. */
  lemma CompatibleStep(policy: PC.HandshakePolicy, w: Watch, event: ServerEvent)
    requires GateInv(policy, w) && IsCompatible(w) && !EndsConnection(w, event)
    ensures AR.Inv(w.core.registry)
    ensures var (w', p) := (WatchStep(policy, w, event), w.core.tracker[w.player]);
            && (IsCompatible(w') <==> !Offends(w.player, p, event))
            && (IsCompatible(w') ==> w'.core.tracker[w.player] == p)
            && (!IsCompatible(w') ==> IsRejected(w'))
            && (w.published.Some? ==> w'.published.Some? && w'.published.value.manifest == w.published.value.manifest)
  {
    hide PC.Inv, AR.Inv, TalkInv, TalkTo, PlayerInv, SendMessage, DecodePacket, PC.Objection, AR.Apply, AR.BuildManifest, SendAll,
         StreamOf, HasProtocolMagic;
    AR.PublishedSize(w.core.registry);
    EventKeeps(policy, w, event);
    if event.Sends? && VerdictOf(event.player, event.stream) != NotOurs {
      SenderIsPlayer(event.player, event.stream);
      if VerdictOf(event.player, event.stream).HelloInput? {
        ClaimedInput(event.player, event.stream);
      }
    }
  }

  lemma ClaimedInput(player: i32, stream: BitStream)
    requires VerdictOf(player, stream) != NotOurs
    ensures InspectProtocolPayload(stream.unread) == CustomModel(stream.unread)
  {
    hide DecodePacket;
  }

  /** Once rejected, rejected until the connection ends. */
  lemma RejectedStep(policy: PC.HandshakePolicy, w: Watch, event: ServerEvent)
    requires GateInv(policy, w) && IsRejected(w) && !EndsConnection(w, event)
    ensures AR.Inv(w.core.registry)
    ensures IsRejected(WatchStep(policy, w, event))
  {
    hide AR.Inv, TalkInv, TalkTo, PlayerInv, SendMessage, DecodePacket, PC.Objection, AR.Apply, AR.BuildManifest, SendAll,
         StreamOf, HasProtocolMagic, AreCapabilitiesValid, IsRejectReasonValid, BitAnd;
    AR.PublishedSize(w.core.registry);
    if event.Sends? && VerdictOf(event.player, event.stream) != NotOurs {
      SenderIsPlayer(event.player, event.stream);
    }
  }

  /** Whole runs within a connection: a compatible player is compatible at the end exactly when none of the events was
      such an input. */
  lemma {:induction false} CompatibleExactly(policy: PC.HandshakePolicy, w: Watch, events: seq<ServerEvent>)
    requires GateInv(policy, w) && IsCompatible(w)
    requires forall event | event in events :: !EndsConnection(w, event)
    ensures var (w', p) := (RunEvents(policy, w, events), w.core.tracker[w.player]);
            && w'.player == w.player
            && (IsCompatible(w') <==> forall event | event in events :: !Offends(w.player, p, event))
            && (IsCompatible(w') ==> w'.core.tracker[w.player] == p)
            && (!IsCompatible(w') ==> IsRejected(w'))
  {
    hide GateInv, WatchStep, Offends, EndsConnection;
    if events != [] {
      var (earlier, last) := (events[..|events| - 1], events[|events| - 1]);
      assert events == earlier + [last];
      CompatibleExactly(policy, w, earlier);
      var before := RunEvents(policy, w, earlier);
      GateRegistry(policy, before);
      SameEnds(w, before, last);
      PlayerKept(policy, before, last);
      if IsCompatible(before) {
        CompatibleStep(policy, before, last);
      } else {
        RejectedStep(policy, before, last);
      }
    }
  }

  lemma SameEnds(w: Watch, w': Watch, event: ServerEvent)
    requires w'.player == w.player
    ensures EndsConnection(w', event) <==> EndsConnection(w, event)
  {}

  /** A publication begins with a compatible player. */
  lemma PublicationBegins(policy: PC.HandshakePolicy, w: Watch, event: ServerEvent)
    requires GateInv(policy, w) && w.published == None
    ensures AR.Inv(w.core.registry)
    ensures WatchStep(policy, w, event).published.Some? ==> IsCompatible(WatchStep(policy, w, event))
  {
    hide AR.Inv, TalkInv, TalkTo, PlayerInv, SendMessage, DecodePacket, PC.Objection, AR.Apply, AR.BuildManifest, SendAll,
         StreamOf, HasProtocolMagic, AreCapabilitiesValid, IsRejectReasonValid, BitAnd;
    GateRegistry(policy, w);
    AR.PublishedSize(w.core.registry);
    if event.Sends? && VerdictOf(event.player, event.stream).HelloInput? {
      ClaimedInput(event.player, event.stream);
      SenderIsPlayer(event.player, event.stream);
    }
  }

  /** When an active publication means a compatible player: from the event that published on, until the connection ends,
      exactly as long as the player has sent no misshapen payload and no other Hello. The publication itself stands
      either way. */
  lemma PublishedAndCompatible(policy: PC.HandshakePolicy, w: Watch, publishes: ServerEvent, events: seq<ServerEvent>)
    requires GateInv(policy, w) && w.published == None && AR.Inv(w.core.registry)
    requires WatchStep(policy, w, publishes).published.Some?
    requires forall event | event in events :: !EndsConnection(w, event)
    ensures GateInv(policy, WatchStep(policy, w, publishes)) && IsCompatible(WatchStep(policy, w, publishes))
    ensures var w1 := WatchStep(policy, w, publishes);
            var w' := RunEvents(policy, w1, events);
            && w'.published.Some? && w'.published.value.manifest == w1.published.value.manifest
            && (IsCompatible(w') <==> forall event | event in events :: !Offends(w.player, w1.core.tracker[w.player], event))
  {
    hide GateInv, AR.Inv, WatchStep, Offends, EndsConnection, RunEvents, IdsOf;
    EventKeeps(policy, w, publishes);
    PublicationBegins(policy, w, publishes);
    PlayerKept(policy, w, publishes);
    var w1 := WatchStep(policy, w, publishes);
    forall event | event in events
      ensures !EndsConnection(w1, event)
    {
      SameEnds(w, w1, event);
    }
    RecordedUntilEnd(policy, w1, events);
    CompatibleExactly(policy, w1, events);
  }

  // Two inputs at which a publication outlives compatibility.

  /** A payload with half a byte too much. */
  const ODD_BITS := BitStream([0x43, 0x4D, 0x4F, 0x44], 4, true)

  /** Some Hello that differs from the recorded one: its capabilities do. */
  function OtherHello(p: PC.PlayerCapabilityState): Message {
    Hello(PC.NO_VERSION, 0, PC.UNKNOWN_BUILD, if p.declaredCapabilities == 0 then 1 else 0)
  }

  lemma OddBitsOffend(player: u32, p: PC.PlayerCapabilityState)
    requires player < 0x8000_0000
    ensures Offends(player, p, Sends(player, ODD_BITS))
  {
    assert HasProtocolMagic(ODD_BITS.unread[..4]);
  }

  lemma OtherHelloOffends(player: u32, p: PC.PlayerCapabilityState)
    requires player < 0x8000_0000
    ensures Offends(player, p, Sends(player, BitStream(PacketOf(OtherHello(p)), 0, true)))
  {
    hide PacketOf, DecodePacket, AreCapabilitiesValid;
    var hello := OtherHello(p);
    assert AreCapabilitiesValid(hello.capabilities) by {
      SmallFlags();
    }
    DecodeOfEncode(hello);
    PayloadLength(hello);
    PacketHasMagic(hello);
  }

  lemma SmallFlags()
    ensures AreCapabilitiesValid(0) && AreCapabilitiesValid(1)
  {
    assert BitAnd(0, 15) == 0;
  }

  /** So after either the player is rejected while its publication stands. */
  lemma RejectedButPublished(policy: PC.HandshakePolicy, w: Watch)
    requires GateInv(policy, w) && w.published.Some? && IsCompatible(w) && w.player < 0x8000_0000
    ensures AR.Inv(w.core.registry)
    ensures var other := BitStream(PacketOf(OtherHello(w.core.tracker[w.player])), 0, true);
            forall stream | stream == ODD_BITS || stream == other ::
              var w' := WatchStep(policy, w, Sends(w.player, stream));
              IsRejected(w') && w'.published.Some? && w'.published.value.manifest == w.published.value.manifest
  {
    hide GateInv, AR.Inv, WatchStep, Offends, PacketOf, VerdictOf;
    var p := w.core.tracker[w.player];
    OddBitsOffend(w.player, p);
    OtherHelloOffends(w.player, p);
    CompatibleStep(policy, w, Sends(w.player, ODD_BITS));
    CompatibleStep(policy, w, Sends(w.player, BitStream(PacketOf(OtherHello(p)), 0, true)));
  }
}
