/** The client's half of the handshake. */
module ClientHandshake {
  import opened Bytes
  import opened Protocol

  datatype ClientState = Disconnected | Connected | HelloSent | WelcomeReceived | ClientCompatible | ClientRejected
  datatype IncomingResult = IgnoredPacket | MalformedPacket | WelcomeTaken | RejectTaken

  datatype Configuration = Configuration(runtimeVersion: RuntimeVersion, sampVersion: byte, capabilities: u32)

  datatype Handshake = Handshake(state: ClientState, welcome: Option<Message>, rejection: Option<Message>)

  const UNCONNECTED := Handshake(Disconnected, None, None)

  /** Undeclared capability bits are dropped when the handshake object is made. */
  function Masked(c: Configuration): Configuration {
    c.(capabilities := BitAnd(c.capabilities, DECLARED_CAPABILITIES))
  }

  function HelloOf(c: Configuration): Message {
    Hello(c.runtimeVersion, PROTOCOL_VERSION, c.sampVersion, c.capabilities)
  }

  function AfterConnected(h: Handshake): Handshake {
    if h.state == Disconnected then Handshake(Connected, None, None) else h
  }

  /** The Hello packet, once per connection. */
  function Taken(c: Configuration, h: Handshake): (Handshake, Option<seq<byte>>) {
    if h.state != Connected then (h, None)
    else match EncodePacket(HelloOf(c), PROTOCOL_VERSION)
      case NotEncoded(_) => (h, None)
      case Encoded(bytes) => (h.(state := HelloSent), Some(bytes))
  }

  predicate IsAcceptable(c: Configuration, m: Message)
    requires m.Welcome?
  {
    && m.acceptedProtocolVersion == PROTOCOL_VERSION && m.serverProtocolVersion == PROTOCOL_VERSION
    && AreCapabilitiesValid(m.negotiatedCapabilities)
    && BitClear(m.negotiatedCapabilities, c.capabilities) == 0
  }

  function AfterMessage(c: Configuration, h: Handshake, m: Message): (Handshake, IncomingResult) {
    if h.state != HelloSent then (h, IgnoredPacket)
    else if m.Welcome? then
      if IsAcceptable(c, m) then (h.(welcome := Some(m), state := WelcomeReceived), WelcomeTaken) else (h, MalformedPacket)
    else if m.Reject? then (h.(rejection := Some(m), state := ClientRejected), RejectTaken)
    else (h, IgnoredPacket)
  }

  function AfterPacket(c: Configuration, h: Handshake, bytes: seq<byte>): (Handshake, IncomingResult) {
    match DecodePacket(bytes)
    case NotDecoded(_) => (h, MalformedPacket)
    case Decoded(m) => AfterMessage(c, h, m)
  }

  function Confirmed(h: Handshake): (Handshake, bool) {
    if h.state != WelcomeReceived then (h, false) else (h.(state := ClientCompatible), true)
  }

  /** Which answers the client takes: of those to a Hello it has sent, every Reject, and a Welcome exactly if both its
      versions are this protocol's and it grants nothing that is undeclared or was not offered. Nothing else changes
      anything, and the result says what was wrong. */
  lemma AnswerExactly(c: Configuration, h: Handshake, m: Message)
    ensures var (h', result) := AfterMessage(c, h, m);
            var fits := && m.Welcome? && m.acceptedProtocolVersion == 1 && m.serverProtocolVersion == 1
                        && Covers(31, m.negotiatedCapabilities) && Covers(c.capabilities, m.negotiatedCapabilities);
            && (result == WelcomeTaken <==> h.state == HelloSent && fits)
            && (result == MalformedPacket <==> h.state == HelloSent && m.Welcome? && !fits)
            && (result == RejectTaken <==> h.state == HelloSent && m.Reject?)
            && h' == match result
                     case WelcomeTaken => Handshake(WelcomeReceived, Some(m), h.rejection)
                     case RejectTaken => Handshake(ClientRejected, h.welcome, Some(m))
                     case _ => h
  {
    hide BitAnd, HasBit;
    if m.Welcome? {
      ClearedExactly(m.negotiatedCapabilities, 31);
      ClearedExactly(m.negotiatedCapabilities, c.capabilities);
    }
  }

  /** No bit outside a mask is left. */
  lemma ClearedExactly(flags: nat, mask: nat)
    ensures BitClear(flags, mask) == 0 <==> Covers(mask, flags)
  {
    hide BitAnd, HasBit;
    BitAndCommutes(flags, mask);
    BitAndIsAll(mask, flags);
  }

  /** A Welcome is confirmed once. */
  lemma ConfirmedOnce(h: Handshake)
    ensures Confirmed(h).1 <==> h.state == WelcomeReceived
    ensures Confirmed(Confirmed(h).0) == (Confirmed(h).0, false)
  {}

  // The object.

  class ClientHandshake {
    const configuration: Configuration
    var state: ClientState
    var welcome: Option<Message>
    var rejection: Option<Message>

    function View(): Handshake
      reads this
    {
      Handshake(state, welcome, rejection)
    }

    constructor (configuration: Configuration)
      ensures View() == UNCONNECTED && this.configuration == Masked(configuration)
    {
      this.configuration := Masked(configuration);
      state, welcome, rejection := Disconnected, None, None;
    }

    method OnConnected()
      modifies this
      ensures View() == AfterConnected(old(View()))
    {
      if state == Disconnected {
        state := Connected;
        welcome, rejection := None, None;
      }
    }

    method OnDisconnected()
      modifies this
      ensures View() == UNCONNECTED
    {
      state := Disconnected;
      welcome, rejection := None, None;
    }

    method TakeHello() returns (bytes: Option<seq<byte>>)
      modifies this
      ensures (View(), bytes) == Taken(configuration, old(View()))
    {
      hide EncodePacket;
      if state != Connected {
        return None;
      }
      var encoded := EncodePacket(HelloOf(configuration), PROTOCOL_VERSION);
      if encoded.NotEncoded? {
        return None;
      }
      state := HelloSent;
      return Some(encoded.bytes);
    }

    method HandleIncoming(bytes: seq<byte>) returns (result: IncomingResult)
      modifies this
      ensures (View(), result) == AfterPacket(configuration, old(View()), bytes)
    {
      hide DecodePacket, BitAnd;
      var decoded := DecodePacket(bytes);
      if decoded.NotDecoded? {
        return MalformedPacket;
      }
      if state != HelloSent {
        return IgnoredPacket;
      }
      var m := decoded.message;
      if m.Welcome? {
        if m.acceptedProtocolVersion != PROTOCOL_VERSION || m.serverProtocolVersion != PROTOCOL_VERSION ||
           !AreCapabilitiesValid(m.negotiatedCapabilities) ||
           BitClear(m.negotiatedCapabilities, configuration.capabilities) != 0 {
          return MalformedPacket;
        }
        welcome := Some(m);
        state := WelcomeReceived;
        return WelcomeTaken;
      }
      if m.Reject? {
        rejection := Some(m);
        state := ClientRejected;
        return RejectTaken;
      }
      return IgnoredPacket;
    }

    method ConfirmWelcome() returns (confirmed: bool)
      modifies this
      ensures (View(), confirmed) == Confirmed(old(View()))
    {
      if state != WelcomeReceived {
        return false;
      }
      state := ClientCompatible;
      return true;
    }
  }
}
