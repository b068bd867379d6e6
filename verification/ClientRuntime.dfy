/** The client runtime's callbacks: what a connection event, an incoming payload and a pump do. */
module ClientRuntime {
  import opened Bytes
  import opened Protocol
  import opened ManifestStream
  import opened TransportFrame
  import opened AssetManager
  import CH = ClientHandshake

  /** The client's sending side: whether the runtime still has its transport, what that will answer, and the frames it
      has taken. */
  datatype Outbox = Outbox(attached: bool, answers: seq<bool>, frames: seq<seq<byte>>)

  datatype Client = Client(handshake: CH.Handshake, manager: Manager, out: Outbox)

  datatype ConnectionEvent = ConnectedEvent | DisconnectedEvent

  /** Only what decodes as a packet is put into a frame. */
  function SendBytes(out: Outbox, bytes: seq<byte>): Outbox {
    if !out.attached || DecodePacket(bytes).NotDecoded? then out
    else match Encode(bytes)
      case None => out
      case Some(frame) =>
        if out.answers == [] then out
        else out.(answers := out.answers[1..], frames := out.frames + if out.answers[0] then [frame] else [])
  }

  /** A report that cannot be encoded or sent is lost. */
  function SendReport(out: Outbox, m: Message): Outbox {
    match EncodePacket(m, PROTOCOL_VERSION)
    case NotEncoded(_) => out
    case Encoded(bytes) => SendBytes(out, bytes)
  }

  function ReportOf(event: Event): Option<Message> {
    match event.kind
    case ReadyEvent => Some(AssetReady(event.manifestRevision, event.assetId))
    case FailedEvent => Some(AssetError(event.manifestRevision, event.assetId, event.error))
    case _ => None
  }

  function SendReports(out: Outbox, events: seq<Event>): Outbox {
    if events == [] then out
    else
      var earlier := SendReports(out, events[..|events| - 1]);
      match ReportOf(events[|events| - 1])
      case None => earlier
      case Some(m) => SendReport(earlier, m)
  }

  function Pumped(c: Client): Client {
    if c.handshake.state != CH.ClientCompatible then c
    else c.(manager := c.manager.(events := []), out := SendReports(c.out, c.manager.events))
  }

  /** A manifest message the receiver refuses is answered, if it is an asset, with an error for that asset. */
  function ComplaintAbout(m: Message, result: InputResult): Option<Message> {
    if (result == InvalidManifest || result == InvalidOrder) && m.ManifestAsset?
    then Some(AssetError(m.manifestRevision, m.asset.assetId, INVALID_MANIFEST)) else None
  }

  function TakeIn(c: Client, m: Message): Client {
    var (manager, result) := ReceiveMessage(c.manager, m);
    c.(manager := manager,
       out := match ComplaintAbout(m, result) case None => c.out case Some(complaint) => SendReport(c.out, complaint))
  }

  /** The payload is for the asset manager. */
  function AssetInput(c: Client, bytes: seq<byte>): Option<Message> {
    match DecodePacket(bytes)
    case NotDecoded(_) => None
    case Decoded(m) => if m.Welcome? || m.Reject? || c.handshake.state != CH.ClientCompatible then None else Some(m)
  }

  /** What an incoming payload does before results are pumped. */
  function Heeded(config: CH.Configuration, c: Client, bytes: seq<byte>): Client {
    match DecodePacket(bytes)
    case NotDecoded(_) => c
    case Decoded(m) =>
      if m.Welcome? || m.Reject? then
        var (h, result) := CH.AfterPacket(config, c.handshake, bytes);
        c.(handshake := if result == CH.WelcomeTaken then CH.Confirmed(h).0 else h)
      else if c.handshake.state != CH.ClientCompatible then c
      else TakeIn(c, m)
  }

  function Incoming(config: CH.Configuration, c: Client, bytes: seq<byte>): Client {
    if AssetInput(c, bytes).Some? then Pumped(Heeded(config, c, bytes)) else Heeded(config, c, bytes)
  }

  function AfterEvent(config: CH.Configuration, c: Client, event: ConnectionEvent): Client {
    if !c.out.attached then c
    else match event
    case DisconnectedEvent => c.(handshake := CH.UNCONNECTED, manager := AfterReset(c.manager))
    case ConnectedEvent =>
      var (h, hello) := CH.Taken(config, CH.AfterConnected(c.handshake));
      Client(h, AfterReset(c.manager), match hello case None => c.out case Some(bytes) => SendBytes(c.out, bytes))
  }

  /** What the hook, the game and the unloading process do to the runtime. */
  datatype Callback = OnEvent(event: ConnectionEvent) | OnPayload(bytes: seq<byte>) | OnPump | OnUnload

  function AfterUnload(c: Client): Client {
    Client(CH.UNCONNECTED, AfterStop(c.manager), c.out.(attached := false))
  }

  function AfterCallback(config: CH.Configuration, c: Client, callback: Callback): Client {
    match callback
    case OnEvent(event) => AfterEvent(config, c, event)
    case OnPayload(bytes) => Incoming(config, c, bytes)
    case OnPump => Pumped(c)
    case OnUnload => AfterUnload(c)
  }

  function AfterCallbacks(config: CH.Configuration, c: Client, callbacks: seq<Callback>): Client {
    if callbacks == [] then c
    else AfterCallback(config, AfterCallbacks(config, c, callbacks[..|callbacks| - 1]), callbacks[|callbacks| - 1])
  }

  lemma {:induction false} UnattachedReports(out: Outbox, events: seq<Event>)
    requires !out.attached
    ensures SendReports(out, events) == out
  {
    hide EncodePacket, DecodePacket, Encode;
    if events != [] {
      UnattachedReports(out, events[..|events| - 1]);
    }
  }

  /** After unloading nothing more is sent, the handshake stays unconnected and no queue fills, whatever callbacks still
      come in. */
  lemma {:induction false} SilentAfterUnload(config: CH.Configuration, c: Client, callbacks: seq<Callback>)
    ensures var c' := AfterCallbacks(config, AfterUnload(c), callbacks);
            && c'.out == c.out.(attached := false) && c'.handshake == CH.UNCONNECTED
            && c'.manager == c.manager.(stopping := true, queue := [])
  {
    hide EncodePacket, DecodePacket, Encode, ReceiveMessage, CH.IsAcceptable, SendReport;
    if callbacks != [] {
      SilentAfterUnload(config, c, callbacks[..|callbacks| - 1]);
    }
  }

  /** What a handshake between callbacks can be: nothing yet; waiting; compatible by a Welcome it could accept; or rejected. A
      Welcome never waits for its confirmation. */
  ghost predicate IsPlain(config: CH.Configuration, h: CH.Handshake) {
    match h.state
    case ClientCompatible =>
      && h.rejection == None && h.welcome.Some? && h.welcome.value.Welcome?
      && h.welcome.value.acceptedProtocolVersion == 1 && h.welcome.value.serverProtocolVersion == 1
      && Covers(31, h.welcome.value.negotiatedCapabilities)
      && Covers(config.capabilities, h.welcome.value.negotiatedCapabilities)
    case ClientRejected => h.welcome == None && h.rejection.Some? && h.rejection.value.Reject?
    case WelcomeReceived => false
    case _ => h.welcome == None && h.rejection == None
  }

  /** What a payload does before the client is compatible, or when it is an answer to a Hello: an answer the handshake takes
      makes the client compatible or rejected at once, and nothing else has any effect. */
  lemma PayloadBeforehand(config: CH.Configuration, c: Client, bytes: seq<byte>)
    requires c.handshake.state != CH.WelcomeReceived
    requires var decoded := DecodePacket(bytes);
             decoded.Decoded? && !decoded.message.Welcome? && !decoded.message.Reject? ==>
               c.handshake.state != CH.ClientCompatible
    ensures var (c', decoded) := (Incoming(config, c, bytes), DecodePacket(bytes));
            && c' == c.(handshake := c'.handshake)
            && (c'.handshake != c.handshake ==>
                && decoded.Decoded? && c.handshake.state == CH.HelloSent
                && c'.handshake == if decoded.message.Welcome?
                                   then CH.Handshake(CH.ClientCompatible, Some(decoded.message), c.handshake.rejection)
                                   else CH.Handshake(CH.ClientRejected, c.handshake.welcome, Some(decoded.message)))
            && (decoded.Decoded? ==>
                var result := CH.AfterMessage(config, c.handshake, decoded.message).1;
                c'.handshake != c.handshake <==> result == CH.WelcomeTaken || result == CH.RejectTaken)
  {
    hide DecodePacket, SendReports, ReceiveMessage, BitAnd, HasBit;
    if DecodePacket(bytes).Decoded? {
      CH.AnswerExactly(config, c.handshake, DecodePacket(bytes).message);
      hide CH.AfterMessage;
    }
  }

  lemma PlainStep(config: CH.Configuration, c: Client, callback: Callback)
    requires IsPlain(config, c.handshake)
    ensures IsPlain(config, AfterCallback(config, c, callback).handshake)
  {
    hide DecodePacket, EncodePacket, SendReport, SendReports, SendBytes, ReceiveMessage, BitAnd, HasBit, Covers;
    if callback.OnPayload? {
      var decoded := DecodePacket(callback.bytes);
      if decoded.Decoded? {
        CH.AnswerExactly(config, c.handshake, decoded.message);
      }
      hide CH.AfterMessage;
    }
  }

  /** On every run a compatible client has been welcomed on its own terms: in this protocol, and with no capability it did not
      offer. */
  lemma {:induction false} WelcomedOnItsTerms(config: CH.Configuration, answers: seq<bool>, callbacks: seq<Callback>)
    ensures IsPlain(config, AfterCallbacks(config, Client(CH.UNCONNECTED, FRESH, Outbox(true, answers, [])), callbacks).handshake)
  {
    hide AfterCallback;
    if callbacks != [] {
      var init := callbacks[..|callbacks| - 1];
      WelcomedOnItsTerms(config, answers, init);
      PlainStep(config, AfterCallbacks(config, Client(CH.UNCONNECTED, FRESH, Outbox(true, answers, [])), init), callbacks[|callbacks| - 1]);
    }
  }

  // The object.

  class ClientRuntime {
    const handshake: CH.ClientHandshake
    const assets: ClientAssetManager
    var attached: bool
    var answers: seq<bool>
    var frames: seq<seq<byte>>

    function View(): Client
      reads this, handshake, assets, assets.receiver
    {
      Client(handshake.View(), assets.View(), Outbox(attached, answers, frames))
    }

    constructor (configuration: CH.Configuration, answers: seq<bool>)
      ensures View() == Client(CH.UNCONNECTED, FRESH, Outbox(true, answers, []))
      ensures handshake.configuration == CH.Masked(configuration)
      ensures fresh(handshake) && fresh(assets) && fresh(assets.receiver)
    {
      handshake := new CH.ClientHandshake(configuration);
      assets := new ClientAssetManager();
      attached, this.answers, frames := true, answers, [];
    }

    method Send(bytes: seq<byte>)
      modifies this
      ensures Outbox(attached, answers, frames) == SendBytes(old(Outbox(attached, answers, frames)), bytes)
    {
      hide DecodePacket;
      if !attached || DecodePacket(bytes).NotDecoded? {
        return;
      }
      var frame := Encode(bytes);
      if frame == None || answers == [] {
        return;
      }
      if answers[0] {
        frames := frames + [frame.value];
      }
      answers := answers[1..];
    }

    method SendAssetReport(m: Message)
      modifies this
      ensures Outbox(attached, answers, frames) == SendReport(old(Outbox(attached, answers, frames)), m)
    {
      hide EncodePacket, SendBytes;
      var encoded := EncodePacket(m, PROTOCOL_VERSION);
      if encoded.Encoded? {
        Send(encoded.bytes);
      }
    }

    method PumpAssetResults()
      modifies this, assets
      ensures View() == Pumped(old(View()))
    {
      hide SendReport;
      if handshake.state != CH.ClientCompatible {
        return;
      }
      var events := assets.DrainEvents();
      for i := 0 to |events|
        invariant Outbox(attached, answers, frames) == SendReports(old(View().out), events[..i])
        invariant assets.View() == old(assets.View()).(events := []) && handshake.View() == old(handshake.View())
      {
        assert events[..i + 1][..i] == events[..i];
        var event := events[i];
        match event.kind {
          case ReadyEvent => SendAssetReport(AssetReady(event.manifestRevision, event.assetId));
          case FailedEvent => SendAssetReport(AssetError(event.manifestRevision, event.assetId, event.error));
          case _ =>
        }
      }
      assert events[..|events|] == events;
    }

    method HandleIncomingProtocol(bytes: seq<byte>)
      modifies this, handshake, assets, assets.receiver
      ensures View() == Incoming(handshake.configuration, old(View()), bytes)
    {
      hide DecodePacket, ReceiveMessage, SendReport, SendReports, CH.AfterPacket;
      var decoded := DecodePacket(bytes);
      if decoded.NotDecoded? {
        return;
      }
      var m := decoded.message;
      if !m.Welcome? && !m.Reject? {
        if handshake.state != CH.ClientCompatible {
          return;
        }
        var result := assets.HandleMessage(m);
        if result == InvalidManifest || result == InvalidOrder {
          if m.ManifestAsset? {
            SendAssetReport(AssetError(m.manifestRevision, m.asset.assetId, INVALID_MANIFEST));
          }
        }
        assert View() == TakeIn(old(View()), m);
        PumpAssetResults();
        return;
      }
      var result := handshake.HandleIncoming(bytes);
      if result == CH.WelcomeTaken {
        var _ := handshake.ConfirmWelcome();
      }
    }

    method HandleConnectionEvent(event: ConnectionEvent)
      modifies this, handshake, assets, assets.receiver
      ensures View() == AfterEvent(handshake.configuration, old(View()), event)
    {
      hide SendBytes, CH.Taken;
      if !attached {
        return;
      }
      if event == DisconnectedEvent {
        handshake.OnDisconnected();
        assets.ResetSession();
        return;
      }
      assets.ResetSession();
      handshake.OnConnected();
      var hello := handshake.TakeHello();
      if hello == None {
        return;
      }
      Send(hello.value);
    }

    /** Unloading: the transport is given up, the handshake disconnected and the worker told to stop. */
    method RequestShutdown()
      modifies this, handshake, assets
      ensures View() == AfterUnload(old(View()))
    {
      attached := false;
      handshake.OnDisconnected();
      assets.RequestStop();
    }
  }
}
