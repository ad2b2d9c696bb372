/** The tunnel engine over abstract devices, as functions from one node state to the next. */
module Engine {
  import opened Bytes
  import opened InnerFrame
  import opened SessionStates

  type Packet = seq<byte>

  datatype Role = Client | Server

  datatype Stats = Stats(
    iterations: nat, outPackets: nat, outBytes: nat, inPackets: nat, inBytes: nat,
    sealErrors: nat, openErrors: nat, transportErrors: nat)

  const ZERO: Stats := Stats(0, 0, 0, 0, 0, 0, 0, 0)

  /** The virtual interface, the secure transport and the inner session that an engine owns, as a table
      of functions over their joint state `W`. The engine knows nothing else about them. `background`
      is what their own threads do between two calls of the engine. */
  datatype Device<!W> = Device(
    configValid: bool,
    createInner: W -> (bool, W),
    innerReady: W -> bool,
    openInterface: W -> (bool, W),
    connect: W -> (bool, W),
    handshake: W -> (bool, W),
    openChannel: W -> (bool, W),
    applyRouting: W -> (bool, W),
    clearRouting: W -> W,
    closeTransport: W -> W,
    closeInterface: W -> W,
    resetTransport: W -> W,
    background: W -> W,
    read: W -> (Packet, W),
    write: (W, Packet) -> (bool, W),
    send: (W, Packet) -> (bool, W),
    receive: W -> (Option<Packet>, W),
    seal: (W, Packet) -> (Option<Packet>, W),
    open: (W, Packet) -> (Option<Packet>, W))

  /** What an engine does to its devices and to its session, in order. */
  datatype Call =
    | Enter(state: State)
    | ZeroStats
    | OpenInterface(ok: bool)
    | Connect(ok: bool)
    | Handshake(ok: bool)
    | OpenChannel(ok: bool)
    | ApplyRouting(ok: bool)
    | ClearRouting
    | CloseTransport
    | CloseInterface
    | ResetTransport
    | Read(packet: Packet)
    | Send(packet: Packet, ok: bool)
    | Receive(packet: Packet)
    | Write(packet: Packet, ok: bool)

  /** An engine and the world of its devices; `trace` is the history of calls. */
  datatype Node<W> = Node(
    role: Role, hasInner: bool, session: Sess, stats: Stats, stop: bool, world: W, trace: seq<Call>)
  {
    function Log(c: Call): Node<W> { this.(trace := trace + [c]) }

    /** A device answered with the new world `w`. */
    function Did(w: W, c: Call): Node<W> { this.(world := w, trace := trace + [c]) }

    predicate Up() { session.state == Established }

    /** `transition_to` on the engine's session. */
    function Move(next: State): Node<W> {
      if Allowed(session.state, next)
      then this.(session := Transition(session, next).0, trace := trace + [Enter(next)])
      else this
    }
  }

  function Fresh<W>(role: Role, hasInner: bool, w: W): Node<W> {
    Node(role, hasInner, FRESH, ZERO, false, w, [])
  }

  // ---------------------------------------------------------------- start

  function Start<W>(d: Device<W>, n: Node<W>): (Node<W>, bool) {
    if !d.configValid then (n, false)
    else
      var (inner, w) := if n.hasInner then (true, n.world) else d.createInner(n.world);
      if !inner then (n.(world := w), false)
      else
        var n1 := Zeroed(n, w);
        if !Allowed(n1.session.state, Connecting) then (n1, false)
        else StartDevices(d, n1.Move(Connecting))
  }

  /** The inner session exists and the statistics are zeroed, even if the start then fails. */
  function Zeroed<W>(n: Node<W>, w: W): Node<W> {
    n.(world := w, hasInner := true, stats := ZERO).Log(ZeroStats)
  }

  function StartDevices<W>(d: Device<W>, n: Node<W>): (Node<W>, bool) {
    var (isOpen, w1) := d.openInterface(n.world);
    var n1 := n.Did(w1, OpenInterface(isOpen));
    if !isOpen then (n1.Move(Failed), false)
    else
      var (connected, w2) := d.connect(w1);
      var n2 := n1.Did(w2, Connect(connected));
      if !connected then (n2.Move(Failed), false)
      else
        var n3 := n2.Move(Handshaking);
        if n.role == Server then StartServer(d, n3) else StartClient(d, n3)
  }

  function StartServer<W>(d: Device<W>, n: Node<W>): (Node<W>, bool) {
    var (shook, w) := d.handshake(n.world);
    var n1 := n.Did(w, Handshake(shook));
    if !shook || !d.innerReady(w) then (n1.Move(Failed), false) else (n1.(stop := false), true)
  }

  function StartClient<W>(d: Device<W>, n: Node<W>): (Node<W>, bool) {
    var (shook, w) := d.handshake(n.world);
    var n1 := n.Did(w, Handshake(shook));
    if !shook then (n1.Move(Failed), false) else StartChannel(d, n1)
  }

  function StartChannel<W>(d: Device<W>, n: Node<W>): (Node<W>, bool) {
    var (up, w) := d.openChannel(n.world);
    var n1 := n.Did(w, OpenChannel(up));
    if !up || !d.innerReady(w) then (n1.Move(Failed), false)
    else
      var (n2, routed) := Route(d, n1);
      (if routed then n2.(stop := false) else n2, routed)
  }

  /** Apply the routing policy; the session becomes established or failed. */
  function Route<W>(d: Device<W>, n: Node<W>): (Node<W>, bool) {
    var (routed, w) := d.applyRouting(n.world);
    (n.Did(w, ApplyRouting(routed)).Move(if routed then Established else Failed), routed)
  }

  // ---------------------------------------------------------------- relay

  function EnsureReady<W>(d: Device<W>, n: Node<W>): (Node<W>, bool) {
    if n.Up() then (n, true)
    else if n.role != Server || n.session.state != Handshaking || !n.hasInner then (n, false)
    else
      var (up, w) := d.openChannel(n.world);
      var n1 := n.Did(w, OpenChannel(up));
      if !up then (n1, false) else Route(d, n1)
  }

  /** The transport took or refused the sealed `packet`. */
  function AfterSend<W>(n: Node<W>, w: W, packet: Packet, ok: bool): Node<W> {
    var s := n.stats;
    n.Did(w, Send(packet, ok)).(stats :=
      if ok then s.(outPackets := s.outPackets + 1, outBytes := s.outBytes + |packet|)
      else s.(transportErrors := s.transportErrors + 1))
  }

  /** The interface took or refused the opened `packet`. */
  function AfterWrite<W>(n: Node<W>, w: W, packet: Packet, ok: bool): Node<W> {
    var s := n.stats;
    n.Did(w, Write(packet, ok)).(stats :=
      if ok then s.(inPackets := s.inPackets + 1, inBytes := s.inBytes + |packet|)
      else s.(transportErrors := s.transportErrors + 1))
  }

  function SealFailed<W>(n: Node<W>, w: W): Node<W> {
    n.(world := w, stats := n.stats.(sealErrors := n.stats.sealErrors + 1))
  }

  function OpenFailed<W>(n: Node<W>, w: W): Node<W> {
    n.(world := w, stats := n.stats.(openErrors := n.stats.openErrors + 1))
  }

  function Outbound<W>(d: Device<W>, n: Node<W>): (Node<W>, bool) {
    if !n.Up() || !n.hasInner then (n, false)
    else
      var (packet, w1) := d.read(n.world);
      var n1 := n.Did(w1, Read(packet));
      if packet == [] then (n1, true)
      else
        var (sealed, w2) := d.seal(w1, packet);
        if sealed.None? then (SealFailed(n1, w2), false)
        else
          var (sent, w3) := d.send(w2, sealed.value);
          (AfterSend(n1, w3, packet, sent), sent)
  }

  /** What became of one turn of the inbound loop. */
  datatype Turn<W> = Turn(node: Node<W>, forwarded: bool)

  function InboundTurn<W>(d: Device<W>, n: Node<W>): Turn<W> {
    var (received, w1) := d.receive(n.world);
    if received.None? then Turn(n.(world := w1), false)
    else
      var n1 := n.Did(w1, Receive(received.value));
      if received.value == [] then Turn(n1, false)
      else
        var (plain, w2) := d.open(w1, received.value);
        if plain.None? || plain.value == [] then Turn(OpenFailed(n1, w2), false)
        else
          var (written, w3) := d.write(w2, plain.value);
          Turn(AfterWrite(n1, w3, plain.value, written), written)
  }

  function InboundLoop<W>(d: Device<W>, n: Node<W>, max: nat): (Node<W>, nat)
    decreases max
  {
    if max == 0 then (n, 0)
    else
      var t := InboundTurn(d, n);
      if !t.forwarded then (t.node, 0)
      else
        var (m, k) := InboundLoop(d, t.node, max - 1);
        (m, k + 1)
  }

  function Inbound<W>(d: Device<W>, n: Node<W>, max: nat): (Node<W>, nat) {
    if !n.Up() || !n.hasInner then (n, 0) else InboundLoop(d, n, max)
  }

  function Counted<W>(n: Node<W>): Node<W> {
    n.(stats := n.stats.(iterations := n.stats.iterations + 1))
  }

  function Exchange<W>(d: Device<W>, n: Node<W>, batch: nat): (Node<W>, bool) {
    var (n2, ok) := Outbound(d, Counted(n));
    if !ok then (n2, false) else (Inbound(d, n2, if batch > 0 then batch else 1).0, true)
  }

  function RelayBatch<W>(d: Device<W>, n: Node<W>, batch: nat): (Node<W>, bool) {
    if n.Up() then Exchange(d, n, batch)
    else if n.role == Server && n.session.state == Handshaking then
      var n1 := EnsureReady(d, n).0;
      if n1.Up() then Exchange(d, n1, batch) else (n1, true)
    else (n, false)
  }

  // ---------------------------------------------------------------- the data-plane loop

  function ResetServer<W>(d: Device<W>, n: Node<W>): Node<W> {
    if n.role != Server then n
    else
      n.Did(d.resetTransport(n.world), ResetTransport)
       .(session := Sess(Handshaking, n.session.epoch)).Log(Enter(Handshaking))
  }

  /** One pass of the loop may find that a stop was requested from outside before its head or during
      its body. */
  datatype Tick = Tick(before: bool, during: bool)

  function Raise<W>(n: Node<W>, requested: bool): Node<W> { n.(stop := n.stop || requested) }

  /** The loop body; the flag says whether the loop goes on. */
  function Pass<W>(d: Device<W>, n: Node<W>, batch: nat, during: bool): (Node<W>, bool) {
    if n.Up() then PassRelay(d, n, batch, during)
    else if n.role == Server && n.session.state == Handshaking then
      var (n1, ready) := EnsureReady(d, n);
      if !ready then (Raise(n1, during), true) else PassRelay(d, n1, batch, during)
    else
      var n1 := Raise(n, during);
      if n1.role == Server && !n1.stop then (ResetServer(d, n1), true) else (n1, false)
  }

  function PassRelay<W>(d: Device<W>, n: Node<W>, batch: nat, during: bool): (Node<W>, bool) {
    var (n1, ok) := RelayBatch(d, n, batch);
    Settle(d, Raise(n1, during), ok)
  }

  /** How the loop takes the outcome of a relay. */
  function Settle<W>(d: Device<W>, n: Node<W>, ok: bool): (Node<W>, bool) {
    if ok then (n, true)
    else if n.stop then (n, false)
    else if n.role == Server && n.session.state == Handshaking then (n, true)
    else if n.role == Server then (ResetServer(d, n), true)
    else (n.Move(Failed), false)
  }

  function DataPlane<W>(d: Device<W>, n: Node<W>, batch: nat, ticks: seq<Tick>): Node<W>
    decreases |ticks|
  {
    if ticks == [] then n
    else
      var n1 := Raise(n, ticks[0].before);
      if n1.stop then n1
      else
        var (n2, again) := Pass(d, n1, batch, ticks[0].during);
        if again then DataPlane(d, n2, batch, ticks[1..]) else n2
  }

  // ---------------------------------------------------------------- stop

  function Stop<W>(d: Device<W>, n: Node<W>): Node<W> {
    var n1 := n.(stop := true);
    var n2 := if n1.Up() then n1.Move(Closing) else n1;
    var n3 := n2.Did(d.clearRouting(n2.world), ClearRouting);
    var n4 := n3.Did(d.closeTransport(n3.world), CloseTransport);
    var n5 := n4.Did(d.closeInterface(n4.world), CloseInterface);
    if n5.session.state == Closing || n5.session.state == Failed then n5.Move(Stopped) else n5
  }

  // ---------------------------------------------------------------- runs

  datatype Op =
    | DoStart
    | DoRelay(batch: nat)
    | DoDataPlane(batch: nat, ticks: seq<Tick>)
    | DoRequestStop
    | DoReset
    | DoStop
    | DoBackground

  function Step<W>(d: Device<W>, n: Node<W>, op: Op): Node<W> {
    match op
    case DoStart => Start(d, n).0
    case DoRelay(batch) => RelayBatch(d, n, batch).0
    case DoDataPlane(batch, ticks) => DataPlane(d, n, batch, ticks)
    case DoRequestStop => n.(stop := true)
    case DoReset => ResetServer(d, n)
    case DoStop => Stop(d, n)
    case DoBackground => n.(world := d.background(n.world))
  }

  function Run<W>(d: Device<W>, n: Node<W>, ops: seq<Op>): Node<W>
    decreases |ops|
  {
    if ops == [] then n else Run(d, Step(d, n, ops[0]), ops[1..])
  }
}
