/** Client routing over whole engine runs, read off the trace of calls. */
module EngineRoutes {
  import opened InnerFrame
  import opened SessionStates
  import opened Engine
  import opened EngineTrace

  /** What the monitor knows about routing. */
  datatype Routing = Routing(shook: bool, channel: bool, applied: bool, safe: bool)

  function Routes(trace: seq<Call>): Routing {
    var m := Observe(trace);
    Routing(m.shook, m.channel, m.applied, m.ordered && m.separated)
  }

  /** Same routing knowledge, same session, same role. */
  ghost predicate Same<W>(n: Node<W>, n': Node<W>) {
    Routes(n'.trace) == Routes(n.trace) && n'.session == n.session && n'.role == n.role
  }

  predicate Moves(c: Call) { c.Read? || c.Send? || c.Receive? || c.Write? || c.ZeroStats? || c.Enter? }

  lemma RoutesSnoc(trace: seq<Call>, c: Call)
    ensures Moves(c) ==> Routes(trace + [c]) == Routes(trace)
    ensures c.Handshake? ==> Routes(trace + [c]) == Routes(trace).(shook := c.ok)
    ensures c.OpenChannel? ==> Routes(trace + [c]) == Routes(trace).(channel := c.ok)
    ensures c.Connect? ==> Routes(trace + [c]) == Routes(trace).(shook := false, channel := false)
    ensures c.OpenInterface? || c.CloseInterface? ==> Routes(trace + [c]) == Routes(trace)
    ensures c.ClearRouting? ==> Routes(trace + [c]) == Routes(trace).(applied := false)
    ensures c.ApplyRouting? ==>
              var r := Routes(trace);
              Routes(trace + [c]) == r.(applied := true, safe := r.safe && r.shook && r.channel && !r.applied)
    ensures c.CloseTransport? ==>
              var r := Routes(trace);
              Routes(trace + [c]) == r.(shook := false, channel := false, safe := r.safe && !r.applied)
  {
    ObserveSnoc(trace, c);
  }

  // ---------------------------------------------------------------- moving data changes no routes

  lemma OutboundSame<W>(d: Device<W>, n: Node<W>)
    ensures Same(n, Outbound(d, n).0)
  {
    if n.Up() && n.hasInner {
      var (packet, w1) := d.read(n.world);
      RoutesSnoc(n.trace, Read(packet));
      if packet != [] {
        var (sealed, w2) := d.seal(w1, packet);
        if sealed.Some? {
          RoutesSnoc(n.trace + [Read(packet)], Send(packet, d.send(w2, sealed.value).0));
        }
      }
    }
  }

  lemma InboundTurnSame<W>(d: Device<W>, n: Node<W>)
    ensures Same(n, InboundTurn(d, n).node)
  {
    var (received, w1) := d.receive(n.world);
    if received.Some? {
      var c := Receive(received.value);
      RoutesSnoc(n.trace, c);
      if received.value != [] {
        var (plain, w2) := d.open(w1, received.value);
        if plain.Some? && plain.value != [] {
          RoutesSnoc(n.trace + [c], Write(plain.value, d.write(w2, plain.value).0));
        }
      }
    }
  }

  lemma {:induction false} InboundLoopSame<W>(d: Device<W>, n: Node<W>, max: nat)
    ensures Same(n, InboundLoop(d, n, max).0)
    decreases max
  {
    if max > 0 {
      InboundTurnSame(d, n);
      var t := InboundTurn(d, n);
      if t.forwarded {
        InboundLoopSame(d, t.node, max - 1);
      }
    }
  }

  lemma ExchangeSame<W>(d: Device<W>, n: Node<W>, batch: nat)
    ensures Same(n, Exchange(d, n, batch).0)
  {
    OutboundSame(d, Counted(n));
    var (n2, ok) := Outbound(d, Counted(n));
    if ok && n2.Up() && n2.hasInner {
      InboundLoopSame(d, n2, if batch > 0 then batch else 1);
    }
  }

  // ---------------------------------------------------------------- the client

  /** A client between two operations: its session is at rest, routing was always handled safely, and a
      stopped client has no routing applied. */
  ghost predicate ClientInv<W>(n: Node<W>) {
    && n.role == Client
    && (n.session.state == Stopped || n.session.state == Established || n.session.state == Failed)
    && Routes(n.trace).safe
    && (n.session.state == Stopped ==> !Routes(n.trace).applied)
  }

  lemma MoveRoutes<W>(n: Node<W>, next: State)
    ensures Routes(n.Move(next).trace) == Routes(n.trace)
  {
    RoutesSnoc(n.trace, Enter(next));
  }

  lemma RouteSafe<W>(d: Device<W>, n: Node<W>)
    requires n.role == Client && n.session.state == Handshaking
    requires Routes(n.trace) == Routing(true, true, false, true)
    ensures ClientInv(Route(d, n).0)
  {
    var (routed, w) := d.applyRouting(n.world);
    RoutesSnoc(n.trace, ApplyRouting(routed));
    MoveRoutes(n.Did(w, ApplyRouting(routed)), if routed then Established else Failed);
  }

  lemma StartChannelSafe<W>(d: Device<W>, n: Node<W>)
    requires n.role == Client && n.session.state == Handshaking
    requires var r := Routes(n.trace); r.shook && !r.applied && r.safe
    ensures ClientInv(StartChannel(d, n).0)
  {
    var (up, w) := d.openChannel(n.world);
    RoutesSnoc(n.trace, OpenChannel(up));
    var n1 := n.Did(w, OpenChannel(up));
    if !up || !d.innerReady(w) {
      MoveRoutes(n1, Failed);
    } else {
      RouteSafe(d, n1);
    }
  }

  lemma StartClientSafe<W>(d: Device<W>, n: Node<W>)
    requires n.role == Client && n.session.state == Handshaking
    requires var r := Routes(n.trace); !r.applied && r.safe
    ensures ClientInv(StartClient(d, n).0)
  {
    var (shook, w) := d.handshake(n.world);
    RoutesSnoc(n.trace, Handshake(shook));
    var n1 := n.Did(w, Handshake(shook));
    if shook {
      StartChannelSafe(d, n1);
    } else {
      MoveRoutes(n1, Failed);
    }
  }

  lemma StartDevicesSafe<W>(d: Device<W>, n: Node<W>)
    requires n.role == Client && n.session.state == Connecting
    requires var r := Routes(n.trace); !r.applied && r.safe
    ensures ClientInv(StartDevices(d, n).0)
  {
    var (isOpen, w1) := d.openInterface(n.world);
    RoutesSnoc(n.trace, OpenInterface(isOpen));
    var n1 := n.Did(w1, OpenInterface(isOpen));
    if isOpen {
      var (connected, w2) := d.connect(w1);
      RoutesSnoc(n1.trace, Connect(connected));
      var n2 := n1.Did(w2, Connect(connected));
      MoveRoutes(n2, if connected then Handshaking else Failed);
      if connected {
        StartClientSafe(d, n2.Move(Handshaking));
      }
    } else {
      MoveRoutes(n1, Failed);
    }
  }

  lemma StartSafe<W>(d: Device<W>, n: Node<W>)
    requires ClientInv(n)
    ensures ClientInv(Start(d, n).0)
  {
    var (inner, w) := if n.hasInner then (true, n.world) else d.createInner(n.world);
    if d.configValid && inner {
      var n1 := Zeroed(n, w);
      RoutesSnoc(n.trace, ZeroStats);
      if n.session.state == Stopped {
        MoveRoutes(n1, Connecting);
        StartDevicesSafe(d, n1.Move(Connecting));
      }
    }
  }

  lemma RelaySafe<W>(d: Device<W>, n: Node<W>, batch: nat)
    requires ClientInv(n)
    ensures ClientInv(RelayBatch(d, n, batch).0)
  {
    if n.Up() {
      ExchangeSame(d, n, batch);
    }
  }

  lemma PassSafe<W>(d: Device<W>, n: Node<W>, batch: nat, during: bool)
    requires ClientInv(n)
    ensures ClientInv(Pass(d, n, batch, during).0)
  {
    if n.Up() {
      RelaySafe(d, n, batch);
      var (n1, ok) := RelayBatch(d, n, batch);
      SettleSafe(d, Raise(n1, during), ok);
    }
  }

  lemma SettleSafe<W>(d: Device<W>, n: Node<W>, ok: bool)
    requires ClientInv(n)
    ensures ClientInv(Settle(d, n, ok).0)
  {
    MoveRoutes(n, Failed);
  }

  lemma {:induction false} DataPlaneSafe<W>(d: Device<W>, n: Node<W>, batch: nat, ticks: seq<Tick>)
    requires ClientInv(n)
    ensures ClientInv(DataPlane(d, n, batch, ticks))
    decreases |ticks|
  {
    if ticks != [] {
      var n1 := Raise(n, ticks[0].before);
      PassSafe(d, n1, batch, ticks[0].during);
      DataPlaneSafe(d, Pass(d, n1, batch, ticks[0].during).0, batch, ticks[1..]);
    }
  }

  lemma StopSafe<W>(d: Device<W>, n: Node<W>)
    requires ClientInv(n)
    ensures ClientInv(Stop(d, n)) && Stop(d, n).session.state == Stopped
  {
    var n1 := n.(stop := true);
    MoveRoutes(n1, Closing);
    var n2 := if n1.Up() then n1.Move(Closing) else n1;
    RoutesSnoc(n2.trace, ClearRouting);
    RoutesSnoc(n2.trace + [ClearRouting], CloseTransport);
    RoutesSnoc(n2.trace + [ClearRouting] + [CloseTransport], CloseInterface);
    var n3 := n2.Did(d.clearRouting(n2.world), ClearRouting);
    var n4 := n3.Did(d.closeTransport(n3.world), CloseTransport);
    MoveRoutes(n4.Did(d.closeInterface(n4.world), CloseInterface), Stopped);
  }

  lemma {:induction false} RunSafe<W>(d: Device<W>, n: Node<W>, ops: seq<Op>)
    requires ClientInv(n)
    ensures ClientInv(Run(d, n, ops))
    decreases |ops|
  {
    if ops != [] {
      match ops[0] {
        case DoStart => StartSafe(d, n);
        case DoRelay(batch) => RelaySafe(d, n, batch);
        case DoDataPlane(batch, ticks) => DataPlaneSafe(d, n, batch, ticks);
        case DoRequestStop =>
        case DoReset =>
        case DoStop => StopSafe(d, n);
        case DoBackground =>
      }
      RunSafe(d, Step(d, n, ops[0]), ops[1..]);
    }
  }

  /** Every client run on any devices: routing is applied only over a completed handshake and an open data
      channel, is cleared before the engine closes the transport, and is never applied twice without a
      clearing in between. A client at rest is stopped, established or failed, and a stopped one has no
      routing applied. */
  lemma ClientRoutesAreSafe<W>(d: Device<W>, hasInner: bool, w: W, ops: seq<Op>)
    ensures var n := Run(d, Fresh(Client, hasInner, w), ops);
            var m := Observe(n.trace);
            && m.ordered
            && m.separated
            && (n.session.state == Stopped ==> !m.applied)
            && n.session.state in {Stopped, Established, Failed}
  {
    RunSafe(d, Fresh(Client, hasInner, w), ops);
  }

  // ---------------------------------------------------------------- the server

  /** Devices that answer yes to everything and have no data. */
  function Agreeable(): Device<int> {
    Device(true, (w: int) => (true, w), (w: int) => true, (w: int) => (true, w), (w: int) => (true, w),
           (w: int) => (true, w), (w: int) => (true, w), (w: int) => (true, w), (w: int) => w, (w: int) => w,
           (w: int) => w, (w: int) => w, (w: int) => w, (w: int) => ([], w), (w: int, p: Packet) => (true, w),
           (w: int, p: Packet) => (true, w), (w: int) => (None, w), (w: int, p: Packet) => (None, w),
           (w: int, p: Packet) => (None, w))
  }

  ghost predicate AlwaysSeparated(role: Role) {
    forall d: Device<int>, w: int, ops: seq<Op> :: Observe(Run(d, Fresh(role, true, w), ops).trace).separated
  }

  /** The separation is the client's alone: a server applies routing again after each reset and clears it only
      when it stops. */
  lemma SeparatedIffClient(role: Role)
    ensures AlwaysSeparated(role) <==> role == Client
  {
    match role
    case Client =>
      forall d: Device<int>, w: int, ops: seq<Op>
        ensures Observe(Run(d, Fresh(Client, true, w), ops).trace).separated
      {
        ClientRoutesAreSafe(d, true, w, ops);
      }
    case Server => ServerAppliesTwice();
  }

  lemma ServerAppliesTwice()
    ensures var ops := [DoStart, DoRelay(1)] + [DoReset, DoRelay(1)];
            !Observe(Run(Agreeable(), Fresh(Server, true, 0), ops).trace).separated
  {
    ServerStarts();
    var n1 := Start(Agreeable(), Fresh(Server, true, 0)).0;
    ServerRelay(n1);
    var n2 := RelayBatch(Agreeable(), n1, 1).0;
    ServerReset(n2);
    var n3 := ResetServer(Agreeable(), n2);
    ServerRelay(n3);
    FourSteps(Agreeable(), Fresh(Server, true, 0), n1, n2, n3, RelayBatch(Agreeable(), n3, 1).0);
  }

  lemma FourSteps<W>(d: Device<W>, n0: Node<W>, n1: Node<W>, n2: Node<W>, n3: Node<W>, n4: Node<W>)
    requires n1 == Start(d, n0).0 && n2 == RelayBatch(d, n1, 1).0
    requires n3 == ResetServer(d, n2) && n4 == RelayBatch(d, n3, 1).0
    ensures Run(d, n0, [DoStart, DoRelay(1)] + [DoReset, DoRelay(1)]) == n4
  {
    var tail := [DoReset, DoRelay(1)];
    RunTwo(d, n0, DoStart, DoRelay(1), tail);
    RunTwo(d, n2, DoReset, DoRelay(1), []);
    assert tail == [DoReset, DoRelay(1)] + [];
    assert Run(d, n4, []) == n4;
  }

  lemma ServerStarts()
    ensures var n := Start(Agreeable(), Fresh(Server, true, 0)).0;
            n.role == Server && n.session.state == Handshaking && n.hasInner
  {
  }

  lemma ServerReset(n: Node<int>)
    requires n.role == Server && n.hasInner
    ensures var n' := ResetServer(Agreeable(), n);
            && n'.role == Server && n'.session.state == Handshaking && n'.hasInner
            && Observe(n'.trace).applied == Observe(n.trace).applied
  {
    ObserveSnoc(n.trace, ResetTransport);
    ObserveSnoc(n.trace + [ResetTransport], Enter(Handshaking));
  }

  lemma RunTwo<W>(d: Device<W>, n: Node<W>, a: Op, b: Op, ops: seq<Op>)
    ensures Run(d, n, [a, b] + ops) == Run(d, Step(d, Step(d, n, a), b), ops)
  {
    assert ([a, b] + ops)[1..] == [b] + ops;
    assert ([b] + ops)[1..] == ops;
  }

  /** One relay of a waiting server over these devices applies routing, successfully. */
  lemma ServerRelay(n: Node<int>)
    requires n.role == Server && n.session.state == Handshaking && n.hasInner
    ensures var n' := RelayBatch(Agreeable(), n, 1).0;
            && n'.role == Server && n'.hasInner && n'.Up()
            && Observe(n'.trace).applied
            && Observe(n'.trace).separated == (Observe(n.trace).separated && !Observe(n.trace).applied)
  {
    ServerReadies(n);
    ServerExchange(EnsureReady(Agreeable(), n).0);
  }

  lemma ServerReadies(n: Node<int>)
    requires n.role == Server && n.session.state == Handshaking && n.hasInner
    ensures var n' := EnsureReady(Agreeable(), n).0;
            && n'.role == Server && n'.hasInner && n'.Up()
            && Observe(n'.trace).applied
            && Observe(n'.trace).separated == (Observe(n.trace).separated && !Observe(n.trace).applied)
  {
    var t1 := n.trace + [OpenChannel(true)];
    var t2 := t1 + [ApplyRouting(true)];
    ObserveSnoc(n.trace, OpenChannel(true));
    ObserveSnoc(t1, ApplyRouting(true));
    ObserveSnoc(t2, Enter(Established));
    var n1 := EnsureReady(Agreeable(), n).0;
    assert n1.trace == t2 + [Enter(Established)];
  }

  lemma ServerExchange(n: Node<int>)
    requires n.Up() && n.hasInner
    ensures var n' := Exchange(Agreeable(), n, 1).0;
            && n'.role == n.role && n'.hasInner && n'.Up()
            && Observe(n'.trace).applied == Observe(n.trace).applied
            && Observe(n'.trace).separated == Observe(n.trace).separated
  {
    ObserveSnoc(n.trace, Read([]));
    var n2 := Outbound(Agreeable(), Counted(n)).0;
    assert n2.trace == n.trace + [Read([])];
    assert InboundTurn(Agreeable(), n2) == Turn(n2, false);
  }
}
