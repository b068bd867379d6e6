/** The server's record of who may speak the protocol: version and build checks, and capability negotiation. */
module PlayerCapabilities {
  import opened Bytes
  import opened Protocol

  datatype TrackedState = Untracked | HandshakePending | Compatible | Rejected

  datatype PlayerCapabilityState = PlayerCapabilityState(
    state: TrackedState,
    runtimeVersion: RuntimeVersion,
    protocolVersion: u16,
    sampVersion: byte,
    declaredCapabilities: u32,
    negotiatedCapabilities: u32,
    rejectReason: Option<u16>)

  datatype HandshakePolicy = HandshakePolicy(
    minimumClientRuntime: RuntimeVersion,
    serverRuntimeVersion: RuntimeVersion,
    serverCapabilities: u32,
    requiredCapabilities: u32)

  type Players = map<u32, PlayerCapabilityState>

  const NO_VERSION := RuntimeVersion(0, 0, 0)
  const PENDING := PlayerCapabilityState(HandshakePending, NO_VERSION, 0, UNKNOWN_BUILD, 0, 0, None)

  // Known builds.

  const UNKNOWN_BUILD: byte := 0
  const R1: byte := 1
  const R2: byte := 2
  const R3_1: byte := 4
  const R4: byte := 5

  datatype SampBuildInfo = SampBuildInfo(version: byte, entryPoint: u32)

  const KNOWN_BUILDS: seq<SampBuildInfo> := [
    SampBuildInfo(R1, 0x31DF13), SampBuildInfo(R2, 0x3195DD), SampBuildInfo(R3_1, 0x0CC4D0),
    SampBuildInfo(R4, 0x0CBCB0), SampBuildInfo(R4_FAMILY, 0x0CBCD0)]

  predicate IsKnownBuild(version: byte) {
    exists i | 0 <= i < |KNOWN_BUILDS| :: KNOWN_BUILDS[i].version == version
  }

  predicate HasTransport(version: byte) {
    version == R1 || version == R3_1
  }

  /** Same major version, and not older. */
  predicate IsRuntimeSupported(version: RuntimeVersion, minimum: RuntimeVersion) {
    && version.major == minimum.major
    && if version.minor != minimum.minor then version.minor > minimum.minor else version.patch >= minimum.patch
  }

  /** The policy a tracker works with: undeclared capability bits are dropped when it is made. */
  function Masked(policy: HandshakePolicy): HandshakePolicy {
    policy.(serverCapabilities := BitAnd(policy.serverCapabilities, DECLARED_CAPABILITIES),
            requiredCapabilities := BitAnd(policy.requiredCapabilities, DECLARED_CAPABILITIES))
  }

  // Transitions.

  function StateFromHello(state: TrackedState, hello: Message): PlayerCapabilityState
    requires hello.Hello?
  {
    PlayerCapabilityState(state, hello.runtimeVersion, hello.protocolVersion, hello.sampVersion, hello.capabilities, 0, None)
  }

  predicate SameHello(p: PlayerCapabilityState, hello: Message)
    requires hello.Hello?
  {
    && p.runtimeVersion == hello.runtimeVersion && p.protocolVersion == hello.protocolVersion
    && p.sampVersion == hello.sampVersion && p.declaredCapabilities == hello.capabilities
  }

  function WelcomeFor(policy: HandshakePolicy, p: PlayerCapabilityState): Message {
    Welcome(PROTOCOL_VERSION, policy.serverRuntimeVersion, PROTOCOL_VERSION, p.negotiatedCapabilities)
  }

  function Begin(players: Players, playerId: u32): Players {
    players[playerId := PENDING]
  }

  function RejectWith(players: Players, playerId: u32, reason: u16): (Players, Message) {
    (players[playerId := PlayerCapabilityState(Rejected, NO_VERSION, 0, UNKNOWN_BUILD, 0, 0, Some(reason))], Reject(reason))
  }

  function RejectHello(players: Players, playerId: u32, hello: Message, reason: u16): (Players, Message)
    requires hello.Hello?
  {
    (players[playerId := StateFromHello(Rejected, hello).(rejectReason := Some(reason))], Reject(reason))
  }

  /** What is wrong with a first Hello; None when nothing is. */
  function Objection(policy: HandshakePolicy, hello: Message): Option<u16>
    requires hello.Hello?
  {
    if hello.protocolVersion != PROTOCOL_VERSION then Some(UNSUPPORTED_PROTOCOL)
    else if !IsRuntimeSupported(hello.runtimeVersion, policy.minimumClientRuntime) then Some(UNSUPPORTED_CLIENT_RUNTIME)
    else if !IsKnownBuild(hello.sampVersion) || !HasTransport(hello.sampVersion) then Some(UNSUPPORTED_SAMP_BUILD)
    else if !AreCapabilitiesValid(hello.capabilities) then Some(MALFORMED_HANDSHAKE)
    else if BitAnd(BitAnd(hello.capabilities, policy.serverCapabilities), policy.requiredCapabilities) != policy.requiredCapabilities
    then Some(UNSUPPORTED_CAPABILITIES)
    else None
  }

  function Hear(policy: HandshakePolicy, players: Players, playerId: u32, hello: Message): (Players, Message)
    requires hello.Hello?
  {
    if playerId in players && players[playerId].state == Compatible && SameHello(players[playerId], hello)
    then (players, WelcomeFor(policy, players[playerId]))
    else if playerId in players && players[playerId].state == Rejected && players[playerId].rejectReason.Some?
    then (players, Reject(players[playerId].rejectReason.value))
    else if playerId !in players || players[playerId].state != HandshakePending
    then RejectHello(players, playerId, hello, MALFORMED_HANDSHAKE)
    else match Objection(policy, hello)
      case Some(reason) => RejectHello(players, playerId, hello, reason)
      case None =>
        var p := StateFromHello(Compatible, hello)
          .(negotiatedCapabilities := BitAnd(hello.capabilities, policy.serverCapabilities));
        (players[playerId := p], WelcomeFor(policy, p))
  }

  // What holds of every record between calls.

  ghost predicate RecordInv(policy: HandshakePolicy, p: PlayerCapabilityState) {
    match p.state
    case Untracked => false
    case HandshakePending => p == PENDING
    case Rejected => p.rejectReason.Some? && IsRejectReasonValid(p.rejectReason.value)
    case Compatible =>
      && p.negotiatedCapabilities == BitAnd(p.declaredCapabilities, policy.serverCapabilities)
      && BitAnd(p.negotiatedCapabilities, policy.requiredCapabilities) == policy.requiredCapabilities
  }

  ghost predicate Inv(policy: HandshakePolicy, players: Players) {
    && AreCapabilitiesValid(policy.serverCapabilities)
    && forall id | id in players :: RecordInv(policy, players[id])
  }

  lemma MaskedValid(policy: HandshakePolicy)
    ensures AreCapabilitiesValid(Masked(policy).serverCapabilities)
    ensures forall i: nat :: HasBit(Masked(policy).serverCapabilities, i) <==>
                             HasBit(policy.serverCapabilities, i) && HasBit(DECLARED_CAPABILITIES, i)
  {
    BitAndCommutes(policy.serverCapabilities, DECLARED_CAPABILITIES);
    BitAndWithin(DECLARED_CAPABILITIES, policy.serverCapabilities);
    forall i: nat {
      BitAndIsIntersection(policy.serverCapabilities, DECLARED_CAPABILITIES, i);
    }
  }

  lemma MaskedByValid(flags: u32, mask: u32)
    requires AreCapabilitiesValid(mask)
    ensures AreCapabilitiesValid(BitAnd(flags, mask))
  {
    hide BitAnd;
    BitAndAssociates(flags, mask, DECLARED_CAPABILITIES);
  }

  /** A Hello keeps every record meaningful, and the answer is an encodable Welcome or Reject that says what the
      player's record says. */
  lemma HearKeeps(policy: HandshakePolicy, players: Players, playerId: u32, hello: Message)
    requires Inv(policy, players) && hello.Hello?
    ensures var (players', response) := Hear(policy, players, playerId, hello);
            && Inv(policy, players')
            && playerId in players' && players' - {playerId} == players - {playerId}
            && IsEncodable(response)
            && match players'[playerId].state
               case Compatible => response == WelcomeFor(policy, players'[playerId])
               case Rejected => response == Reject(players'[playerId].rejectReason.value)
               case _ => false
  {
    hide IsKnownBuild, IsRuntimeSupported, HasTransport, BitAnd, AreCapabilitiesValid;
    MaskedByValid(hello.capabilities, policy.serverCapabilities);
    if playerId in players {
      MaskedByValid(players[playerId].declaredCapabilities, policy.serverCapabilities);
    }
  }

  /** A repeated Hello gets the repeated answer and changes nothing, whatever the record said before. */
  lemma RepeatedHello(policy: HandshakePolicy, players: Players, playerId: u32, hello: Message)
    requires hello.Hello?
    ensures var (players', response) := Hear(policy, players, playerId, hello);
            Hear(policy, players', playerId, hello) == (players', response)
  {
    hide Objection;
  }

  /** Who is accepted: a waiting player is welcomed exactly when it speaks this protocol version, runs a runtime of the
      required major version that is not older than the minimum, on a build with a transport, declares no unknown
      capability, and shares every required one with the server; and then the negotiated capabilities are exactly
      the shared ones. */
  lemma WelcomedExactly(policy: HandshakePolicy, players: Players, playerId: u32, hello: Message)
    requires hello.Hello? && playerId in players && players[playerId].state == HandshakePending
    ensures var (players', response) := Hear(policy, players, playerId, hello);
            && (response.Welcome? <==>
                && hello.protocolVersion == PROTOCOL_VERSION
                && hello.runtimeVersion.major == policy.minimumClientRuntime.major
                && Release(hello.runtimeVersion) >= Release(policy.minimumClientRuntime)
                && (hello.sampVersion == 1 || hello.sampVersion == 4)
                && Covers(31, hello.capabilities)
                && Covers(hello.capabilities, policy.requiredCapabilities)
                && Covers(policy.serverCapabilities, policy.requiredCapabilities))
            && (response.Welcome? ==>
                && response.acceptedProtocolVersion == response.serverProtocolVersion == PROTOCOL_VERSION
                && response.serverRuntimeVersion == policy.serverRuntimeVersion
                && forall i: nat :: HasBit(response.negotiatedCapabilities, i) <==>
                                    HasBit(hello.capabilities, i) && HasBit(policy.serverCapabilities, i))
  {
    hide IsRuntimeSupported, Release, HasBit, BitAnd, IsKnownBuild, HasTransport, Covers;
    ObjectionMeans(policy, hello);
    forall i: nat {
      BitAndIsIntersection(hello.capabilities, policy.serverCapabilities, i);
    }
  }

  /** Why a waiting player is turned away: for the first of these that applies, whose number the Reject carries and the
      player's record keeps beside what its Hello declared. */
  lemma RefusedFor(policy: HandshakePolicy, players: Players, playerId: u32, hello: Message)
    requires hello.Hello? && playerId in players && players[playerId].state == HandshakePending
    ensures var (players', response) := Hear(policy, players, playerId, hello);
            var foreign := hello.protocolVersion != PROTOCOL_VERSION;
            var outdated := || hello.runtimeVersion.major != policy.minimumClientRuntime.major
                            || Release(hello.runtimeVersion) < Release(policy.minimumClientRuntime);
            var untold := hello.sampVersion != 1 && hello.sampVersion != 4;
            var unknown := !Covers(31, hello.capabilities);
            var lacking := || !Covers(hello.capabilities, policy.requiredCapabilities)
                           || !Covers(policy.serverCapabilities, policy.requiredCapabilities);
            && (response == Reject(1) <==> foreign)
            && (response == Reject(2) <==> !foreign && outdated)
            && (response == Reject(3) <==> !foreign && !outdated && untold)
            && (response == Reject(4) <==> !foreign && !outdated && !untold && unknown)
            && (response == Reject(5) <==> !foreign && !outdated && !untold && !unknown && lacking)
            && (response.Reject? ==>
                && players' - {playerId} == players - {playerId} && playerId in players'
                && players'[playerId] ==
                   PlayerCapabilityState(Rejected, hello.runtimeVersion, hello.protocolVersion, hello.sampVersion,
                                         hello.capabilities, 0, Some(response.rejectReason)))
  {
    hide IsRuntimeSupported, Release, HasBit, BitAnd, IsKnownBuild, HasTransport, Covers;
    ObjectionMeans(policy, hello);
  }

  /** A Hello from a player nobody announced, or one that contradicts what was accepted, is malformed; one from a
      rejected player gets the old reason again. */
  lemma HelloOutOfTurn(policy: HandshakePolicy, players: Players, playerId: u32, hello: Message)
    requires hello.Hello? && Inv(policy, players)
    requires playerId in players ==> players[playerId].state != HandshakePending
    ensures var (players', response) := Hear(policy, players, playerId, hello);
            var repeated := && playerId in players && players[playerId].state == Compatible
                            && players[playerId].runtimeVersion == hello.runtimeVersion
                            && players[playerId].protocolVersion == hello.protocolVersion
                            && players[playerId].sampVersion == hello.sampVersion
                            && players[playerId].declaredCapabilities == hello.capabilities;
            var rejected := playerId in players && players[playerId].state == Rejected;
            && (repeated ==> players' == players && response.Welcome?)
            && (rejected ==> players' == players && Some(response) == RejectionOf(players[playerId]))
            && (!repeated && !rejected ==>
                && response == Reject(4) && playerId in players'
                && players'[playerId].state == Rejected && players'[playerId].rejectReason == Some(4))
  {
    hide Objection, BitAnd;
  }

  /** The Reject that says what the record says. */
  function RejectionOf(p: PlayerCapabilityState): Option<Message> {
    match p.rejectReason case Some(reason) => Some(Reject(reason)) case None => None
  }

  /** A version within its major one, as a single number. */
  function Release(v: RuntimeVersion): nat {
    v.minor * 0x1_0000 + v.patch
  }

  lemma SupportedExactly(version: RuntimeVersion, minimum: RuntimeVersion)
    ensures IsRuntimeSupported(version, minimum) <==> version.major == minimum.major && Release(version) >= Release(minimum)
  {}

  lemma ObjectionMeans(policy: HandshakePolicy, hello: Message)
    requires hello.Hello?
    ensures IsRuntimeSupported(hello.runtimeVersion, policy.minimumClientRuntime) <==>
            && hello.runtimeVersion.major == policy.minimumClientRuntime.major
            && Release(hello.runtimeVersion) >= Release(policy.minimumClientRuntime)
    ensures IsKnownBuild(hello.sampVersion) && HasTransport(hello.sampVersion) <==> hello.sampVersion == 1 || hello.sampVersion == 4
    ensures AreCapabilitiesValid(hello.capabilities) <==> Covers(31, hello.capabilities)
    ensures var shared := BitAnd(hello.capabilities, policy.serverCapabilities);
            BitAnd(shared, policy.requiredCapabilities) == policy.requiredCapabilities <==>
            Covers(hello.capabilities, policy.requiredCapabilities) && Covers(policy.serverCapabilities, policy.requiredCapabilities)
  {
    hide HasBit, BitAnd;
    SupportedExactly(hello.runtimeVersion, policy.minimumClientRuntime);
    TransportBuilds(hello.sampVersion);
    var shared := BitAnd(hello.capabilities, policy.serverCapabilities);
    BitAndIsAll(shared, policy.requiredCapabilities);
    BitAndCommutes(hello.capabilities, DECLARED_CAPABILITIES);
    BitAndIsAll(DECLARED_CAPABILITIES, hello.capabilities);
    forall i: nat
      ensures HasBit(shared, i) <==> HasBit(hello.capabilities, i) && HasBit(policy.serverCapabilities, i)
    {
      BitAndIsIntersection(hello.capabilities, policy.serverCapabilities, i);
    }
  }

  lemma TransportBuilds(version: byte)
    ensures IsKnownBuild(version) && HasTransport(version) <==> version == R1 || version == R3_1
  {
    assert KNOWN_BUILDS[0].version == R1 && KNOWN_BUILDS[2].version == R3_1;
  }

  // Whole histories.

  datatype Operation =
    | BeginOp(playerId: u32) | HelloOp(playerId: u32, hello: Message) | RejectOp(playerId: u32, reason: u16)
    | ForgetOp(playerId: u32) | ResetOp

  function Apply(policy: HandshakePolicy, players: Players, op: Operation): Players {
    match op
    case BeginOp(id) => Begin(players, id)
    case HelloOp(id, hello) => if hello.Hello? then Hear(policy, players, id, hello).0 else players
    case RejectOp(id, reason) => RejectWith(players, id, reason).0
    case ForgetOp(id) => players - {id}
    case ResetOp => map[]
  }

  function RunOps(policy: HandshakePolicy, players: Players, ops: seq<Operation>): Players {
    if ops == [] then players else Apply(policy, RunOps(policy, players, ops[..|ops| - 1]), ops[|ops| - 1])
  }

  predicate IsShutOut(players: Players, playerId: u32) {
    playerId in players ==> players[playerId].state == Rejected && players[playerId].rejectReason.Some?
  }

  /** A player that is rejected, or was never admitted, stays out whatever anybody sends, until its next
      connection begins. */
  lemma {:induction false} ShutOutUntilBegin(policy: HandshakePolicy, players: Players, playerId: u32, ops: seq<Operation>)
    requires IsShutOut(players, playerId)
    requires BeginOp(playerId) !in ops
    ensures IsShutOut(RunOps(policy, players, ops), playerId)
  {
    hide Objection;
    if ops != [] {
      ShutOutUntilBegin(policy, players, playerId, ops[..|ops| - 1]);
      assert ops[|ops| - 1] in ops;
    }
  }

  // The object.

  class PlayerCapabilityTracker {
    const policy: HandshakePolicy
    var players: Players

    constructor (policy: HandshakePolicy)
      ensures this.policy == Masked(policy) && players == map[] && Inv(this.policy, players)
    {
      this.policy := Masked(policy);
      players := map[];
      new;
      MaskedValid(policy);
    }

    method BeginHandshake(playerId: u32)
      modifies this
      ensures players == Begin(old(players), playerId)
    {
      players := players[playerId := PENDING];
    }

    method HandleHello(playerId: u32, hello: Message) returns (response: Message)
      requires hello.Hello?
      modifies this
      ensures (players, response) == Hear(policy, old(players), playerId, hello)
    {
      hide IsRuntimeSupported, BitAnd, IsKnownBuild;
      if playerId in players && players[playerId].state == Compatible && SameHello(players[playerId], hello) {
        return WelcomeFor(policy, players[playerId]);
      }
      if playerId in players && players[playerId].state == Rejected && players[playerId].rejectReason.Some? {
        return Reject(players[playerId].rejectReason.value);
      }
      if playerId !in players || players[playerId].state != HandshakePending {
        response := RejectPlayerHello(playerId, hello, MALFORMED_HANDSHAKE);
        return;
      }
      if hello.protocolVersion != PROTOCOL_VERSION {
        response := RejectPlayerHello(playerId, hello, UNSUPPORTED_PROTOCOL);
        return;
      }
      if !IsRuntimeSupported(hello.runtimeVersion, policy.minimumClientRuntime) {
        response := RejectPlayerHello(playerId, hello, UNSUPPORTED_CLIENT_RUNTIME);
        return;
      }
      var build := FindSampBuild(hello.sampVersion);
      if build == None || !HasTransport(hello.sampVersion) {
        response := RejectPlayerHello(playerId, hello, UNSUPPORTED_SAMP_BUILD);
        return;
      }
      if !AreCapabilitiesValid(hello.capabilities) {
        response := RejectPlayerHello(playerId, hello, MALFORMED_HANDSHAKE);
        return;
      }
      var p := StateFromHello(Compatible, hello);
      p := p.(negotiatedCapabilities := BitAnd(hello.capabilities, policy.serverCapabilities));
      if BitAnd(p.negotiatedCapabilities, policy.requiredCapabilities) != policy.requiredCapabilities {
        response := RejectPlayerHello(playerId, hello, UNSUPPORTED_CAPABILITIES);
        return;
      }
      players := players[playerId := p];
      return WelcomeFor(policy, p);
    }

    method RejectPlayerHello(playerId: u32, hello: Message, reason: u16) returns (response: Message)
      requires hello.Hello?
      modifies this
      ensures (players, response) == RejectHello(old(players), playerId, hello, reason)
    {
      var p := StateFromHello(Rejected, hello);
      p := p.(rejectReason := Some(reason));
      players := players[playerId := p];
      return Reject(reason);
    }

    method RejectPlayer(playerId: u32, reason: u16) returns (response: Message)
      modifies this
      ensures (players, response) == RejectWith(old(players), playerId, reason)
    {
      players := players[playerId := PlayerCapabilityState(Rejected, NO_VERSION, 0, UNKNOWN_BUILD, 0, 0, Some(reason))];
      return Reject(reason);
    }

    method RemovePlayer(playerId: u32)
      modifies this
      ensures players == old(players) - {playerId}
    {
      players := players - {playerId};
    }

    method Reset()
      modifies this
      ensures players == map[]
    {
      players := map[];
    }
  }

  method FindSampBuild(version: byte) returns (build: Option<SampBuildInfo>)
    ensures build.Some? <==> IsKnownBuild(version)
    ensures build.Some? ==> build.value in KNOWN_BUILDS && build.value.version == version
  {
    for i := 0 to |KNOWN_BUILDS|
      invariant forall j | 0 <= j < i :: KNOWN_BUILDS[j].version != version
    {
      if KNOWN_BUILDS[i].version == version {
        return Some(KNOWN_BUILDS[i]);
      }
    }
    return None;
  }
}
