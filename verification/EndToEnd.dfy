/** Server, network and client together: one player of the server, the frames travelling between them, the client's
    runtime, and its worker and disk, stepping in any order. */
module EndToEnd {
  import opened Bytes
  import opened Protocol
  import opened TransportFrame
  import opened ServerTransport
  import opened ServerComponent
  import opened PublicationGate
  import opened AssetCache
  import opened AssetManager
  import opened AssetEngine
  import opened ClientRuntime
  import CH = ClientHandshake
  import PC = PlayerCapabilities
  import AR = AssetRegistry

  /** What never changes: the hash, the cache root, and the two sides' configuration. */
  datatype Setup = Setup(hash: Hash, root: Path, config: CH.Configuration, policy: PC.HandshakePolicy)

  /** `engine.stamp` counts the connections of this player that have been broken off. `out.frames` are the frames on their
      way to the server, `down` those on their way to the client. `source` is the registry as it was when this
      connection's manifest was published. */
  datatype World = World(
    engine: Engine,
    handshake: CH.Handshake,
    out: Outbox,
    watch: Watch,
    down: seq<seq<byte>>,
    source: Option<AR.Registry>)

  datatype Step =
    | AtServer(event: ServerEvent) | UpArrives | DownArrives | AtClient(noticed: ConnectionEvent) | PumpResults
    | WorkerMoves(outcome: Outcome) | WorkerThrows | Unload

  function ClientOf(w: World): Client {
    Client(w.handshake, w.engine.manager, w.out)
  }

  /** The frames a player is sent between two moments. */
  function NewFrames(before: seq<Attempt>, after: seq<Attempt>, player: u32): seq<seq<byte>>
    decreases |after|
  {
    if |after| <= |before| then []
    else
      var last := after[|after| - 1];
      NewFrames(before, after[..|after| - 1], player) + if last.ok && last.playerId == player then [last.frame] else []
  }

  /** What ends a connection with everything in flight on it: the player disconnects, or connects again although the server
      never saw it go. Connecting after a disconnection breaks off nothing, whatever is on its way already. */
  predicate BreaksOff(w: World, event: ServerEvent) {
    && (event.Disconnects? || (event.Connects? && (w.source.Some? || w.watch.player in w.watch.core.assets)))
    && event.player == w.watch.player
  }

  ghost function ServerActs(setup: Setup, w: World, event: ServerEvent): World
    requires AR.Inv(w.watch.core.registry)
  {
    var watch := WatchStep(setup.policy, w.watch, event);
    World(
      if BreaksOff(w, event) then Next(setup.hash, setup.root, w.engine, Tick) else w.engine,
      w.handshake,
      if BreaksOff(w, event) then w.out.(frames := []) else w.out,
      watch,
      if BreaksOff(w, event) then []
      else w.down + NewFrames(w.watch.core.line.attempts, watch.core.line.attempts, w.watch.player),
      if BreaksOff(w, event) then None
      else if watch.published.Some? && w.watch.published == None then Some(w.watch.core.registry)
      else w.source)
  }

  /** The server strips the carrier byte of a frame before its packet handler sees it. */
  function StreamOfFrame(frame: seq<byte>): BitStream {
    BitStream(if frame == [] then [] else frame[1..], 0, true)
  }

  ghost function Arrives(setup: Setup, w: World): World
    requires AR.Inv(w.watch.core.registry) && w.watch.player < 0x8000_0000
  {
    if w.out.frames == [] then w
    else
      ServerActs(setup, w.(out := w.out.(frames := w.out.frames[1..])), Sends(w.watch.player, StreamOfFrame(w.out.frames[0])))
  }

  /** The receive hook gives the runtime what a claimed frame carries. */
  function Comes(setup: Setup, w: World): World {
    if w.down == [] then w
    else
      var w' := w.(down := w.down[1..]);
      match Inspect(w.down[0])
      case Unrelated => w'
      case CustomModel(bytes) =>
        var c := Heeded(setup.config, ClientOf(w), bytes);
        w'.(handshake := c.handshake, out := c.out,
            engine := match AssetInput(ClientOf(w), bytes)
                      case None => w.engine
                      case Some(m) => Next(setup.hash, setup.root, w.engine, Hear(m)))
  }

  ghost function Take(setup: Setup, w: World, step: Step): World
    requires AR.Inv(w.watch.core.registry) && w.watch.player < 0x8000_0000
  {
    match step
    case AtServer(event) =>
      if event.Sends? && event.player == w.watch.player then w else ServerActs(setup, w, event)
    case UpArrives => Arrives(setup, w)
    case DownArrives => Comes(setup, w)
    case AtClient(noticed) =>
      var c := AfterEvent(setup.config, ClientOf(w), noticed);
      w.(handshake := c.handshake, out := c.out,
         engine := if w.out.attached then Next(setup.hash, setup.root, w.engine, Reset) else w.engine)
    case PumpResults =>
      if w.handshake.state != CH.ClientCompatible then w
      else w.(out := Pumped(ClientOf(w)).out, engine := Next(setup.hash, setup.root, w.engine, Drain))
    case WorkerMoves(outcome) => w.(engine := Next(setup.hash, setup.root, w.engine, Work(outcome)))
    case WorkerThrows => w.(engine := Next(setup.hash, setup.root, w.engine, Throw))
    case Unload =>
      w.(handshake := CH.UNCONNECTED, out := w.out.(attached := false),
         engine := Next(setup.hash, setup.root, w.engine, Stop))
  }

  /** The client's steps are its runtime's callbacks: the manager the engine holds is the one they leave behind, and an
      incoming payload is its step followed by a pump. */
  lemma StepsAreCallbacks(setup: Setup, w: World, noticed: ConnectionEvent)
    requires AR.Inv(w.watch.core.registry) && w.watch.player < 0x8000_0000
    ensures ClientOf(Take(setup, w, AtClient(noticed))) == AfterEvent(setup.config, ClientOf(w), noticed)
    ensures ClientOf(Take(setup, w, PumpResults)) == Pumped(ClientOf(w))
    ensures ClientOf(Take(setup, w, Unload)) == AfterUnload(ClientOf(w))
    ensures w.down != [] && Inspect(w.down[0]).CustomModel? ==>
              var bytes := Inspect(w.down[0]).protocolBytes;
              var came := Take(setup, w, DownArrives);
              Incoming(setup.config, ClientOf(w), bytes) ==
              ClientOf(if AssetInput(ClientOf(w), bytes).Some? then Take(setup, came, PumpResults) else came)
  {
    hide AR.Inv, ReceiveMessage, SendReports, SendReport, SendBytes, DecodePacket, Inspect, CH.Taken, CH.AfterPacket;
  }
}
