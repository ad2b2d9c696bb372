/** What every run of an engine keeps, over all devices: read off the trace of its calls by a monitor
    that knows nothing of the engine. */
module EngineTrace {
  import opened SessionStates
  import opened Engine

  /** What an observer of the calls can tell.
      `entries`: entries to `Established`. `taken`: non-empty packets read and frames received since the
      statistics were last zeroed; `sentBytes`, `writtenBytes`: payload bytes forwarded since then.
      `shook`, `channel`: the last answers of the transport that is connected. `applied`: routing was
      applied and not cleared since. `clean`: data moved only while established. `ordered`: routing was
      applied only over a shaken hand and an open channel, and never outlived the transport.
      `separated`: two applications of routing always had a clearing between them. */
  datatype Watch = Watch(
    state: State, entries: nat, taken: nat, sentBytes: nat, writtenBytes: nat,
    shook: bool, channel: bool, applied: bool, clean: bool, ordered: bool, separated: bool)

  const BLANK: Watch := Watch(Stopped, 0, 0, 0, 0, false, false, false, true, true, true)

  function See(m: Watch, c: Call): Watch {
    var quiet := m.clean && m.state == Established;
    match c
    case Enter(s) => m.(state := s, entries := m.entries + if s == Established then 1 else 0)
    case ZeroStats => m.(taken := 0, sentBytes := 0, writtenBytes := 0)
    case OpenInterface(_) => m
    case Connect(_) => m.(shook := false, channel := false)
    case Handshake(ok) => m.(shook := ok)
    case OpenChannel(ok) => m.(channel := ok)
    case ApplyRouting(_) =>
      m.(applied := true, ordered := m.ordered && m.shook && m.channel, separated := m.separated && !m.applied)
    case ClearRouting => m.(applied := false)
    case CloseTransport => m.(shook := false, channel := false, ordered := m.ordered && !m.applied)
    case CloseInterface => m
    case ResetTransport => m.(channel := false)
    case Read(p) => m.(clean := quiet, taken := m.taken + if p == [] then 0 else 1)
    case Send(p, ok) => m.(clean := quiet, sentBytes := m.sentBytes + if ok then |p| else 0)
    case Receive(p) => m.(clean := quiet, taken := m.taken + if p == [] then 0 else 1)
    case Write(p, ok) => m.(clean := quiet, writtenBytes := m.writtenBytes + if ok then |p| else 0)
  }

  function Observe(trace: seq<Call>): Watch {
    if trace == [] then BLANK else See(Observe(trace[..|trace| - 1]), trace[|trace| - 1])
  }

  lemma ObserveSnoc(trace: seq<Call>, c: Call)
    ensures Observe(trace + [c]) == See(Observe(trace), c)
  {
    assert (trace + [c])[..|trace|] == trace;
  }

  function Errors(s: Stats): nat { s.sealErrors + s.openErrors + s.transportErrors }

  /** The statistics and the session agree with the trace, and data moved only while established.
      `out` packets have been taken from a device and are not yet accounted for. */
  ghost predicate Agrees<W>(n: Node<W>, out: nat) {
    var m := Observe(n.trace);
    && m.state == n.session.state
    && m.entries == n.session.epoch
    && m.clean
    && m.taken == n.stats.outPackets + n.stats.inPackets + Errors(n.stats) + out
    && m.sentBytes == n.stats.outBytes
    && m.writtenBytes == n.stats.inBytes
  }

  /** The calls that neither move data nor change the session or the statistics. */
  predicate Neutral(c: Call) {
    !(c.Enter? || c.ZeroStats? || c.Read? || c.Send? || c.Receive? || c.Write?)
  }

  lemma NeutralAgrees<W>(n: Node<W>, w: W, c: Call, out: nat)
    requires Agrees(n, out) && Neutral(c)
    ensures Agrees(n.Did(w, c), out)
  {
    ObserveSnoc(n.trace, c);
  }

  lemma MoveAgrees<W>(n: Node<W>, next: State, out: nat)
    requires Agrees(n, out)
    ensures Agrees(n.Move(next), out)
  {
    ObserveSnoc(n.trace, Enter(next));
  }

  /** Taking a non-empty packet leaves it to be accounted for. */
  lemma TakeAgrees<W>(n: Node<W>, w: W, c: Call)
    requires Agrees(n, 0) && n.Up() && (c.Read? || c.Receive?)
    ensures Agrees(n.Did(w, c), if c.packet == [] then 0 else 1)
  {
    ObserveSnoc(n.trace, c);
  }

  lemma SendAgrees<W>(n: Node<W>, w: W, packet: Packet, ok: bool)
    requires Agrees(n, 1) && n.Up()
    ensures Agrees(AfterSend(n, w, packet, ok), 0)
  {
    ObserveSnoc(n.trace, Send(packet, ok));
  }

  lemma WriteAgrees<W>(n: Node<W>, w: W, packet: Packet, ok: bool)
    requires Agrees(n, 1) && n.Up()
    ensures Agrees(AfterWrite(n, w, packet, ok), 0)
  {
    ObserveSnoc(n.trace, Write(packet, ok));
  }

  lemma FailedAgrees<W>(n: Node<W>, w: W)
    requires Agrees(n, 1)
    ensures Agrees(SealFailed(n, w), 0) && Agrees(OpenFailed(n, w), 0)
  {
  }

  lemma OutboundAgrees<W>(d: Device<W>, n: Node<W>)
    requires Agrees(n, 0)
    ensures Agrees(Outbound(d, n).0, 0)
  {
    if n.Up() && n.hasInner {
      var (packet, w1) := d.read(n.world);
      TakeAgrees(n, w1, Read(packet));
      var n1 := n.Did(w1, Read(packet));
      if packet != [] {
        var (sealed, w2) := d.seal(w1, packet);
        FailedAgrees(n1, w2);
        if sealed.Some? {
          var (sent, w3) := d.send(w2, sealed.value);
          SendAgrees(n1, w3, packet, sent);
        }
      }
    }
  }

  lemma InboundTurnAgrees<W>(d: Device<W>, n: Node<W>)
    requires Agrees(n, 0) && n.Up()
    ensures Agrees(InboundTurn(d, n).node, 0) && InboundTurn(d, n).node.Up()
  {
    var (received, w1) := d.receive(n.world);
    if received.Some? {
      TakeAgrees(n, w1, Receive(received.value));
      var n1 := n.Did(w1, Receive(received.value));
      if received.value != [] {
        var (plain, w2) := d.open(w1, received.value);
        FailedAgrees(n1, w2);
        if plain.Some? && plain.value != [] {
          var (written, w3) := d.write(w2, plain.value);
          WriteAgrees(n1, w3, plain.value, written);
        }
      }
    }
  }

  lemma {:induction false} InboundLoopAgrees<W>(d: Device<W>, n: Node<W>, max: nat)
    requires Agrees(n, 0) && n.Up()
    ensures Agrees(InboundLoop(d, n, max).0, 0)
    decreases max
  {
    if max > 0 {
      InboundTurnAgrees(d, n);
      var t := InboundTurn(d, n);
      if t.forwarded {
        InboundLoopAgrees(d, t.node, max - 1);
      }
    }
  }

  lemma ExchangeAgrees<W>(d: Device<W>, n: Node<W>, batch: nat)
    requires Agrees(n, 0)
    ensures Agrees(Exchange(d, n, batch).0, 0)
  {
    OutboundAgrees(d, Counted(n));
    var (n2, ok) := Outbound(d, Counted(n));
    if ok && n2.Up() && n2.hasInner {
      InboundLoopAgrees(d, n2, if batch > 0 then batch else 1);
    }
  }

  lemma EnsureReadyAgrees<W>(d: Device<W>, n: Node<W>)
    requires Agrees(n, 0)
    ensures Agrees(EnsureReady(d, n).0, 0)
  {
    if !n.Up() && n.role == Server && n.session.state == Handshaking && n.hasInner {
      var (up, w) := d.openChannel(n.world);
      NeutralAgrees(n, w, OpenChannel(up), 0);
      if up {
        RouteAgrees(d, n.Did(w, OpenChannel(up)));
      }
    }
  }

  lemma RouteAgrees<W>(d: Device<W>, n: Node<W>)
    requires Agrees(n, 0)
    ensures Agrees(Route(d, n).0, 0)
  {
    var (routed, w) := d.applyRouting(n.world);
    NeutralAgrees(n, w, ApplyRouting(routed), 0);
    MoveAgrees(n.Did(w, ApplyRouting(routed)), if routed then Established else Failed, 0);
  }

  lemma RelayAgrees<W>(d: Device<W>, n: Node<W>, batch: nat)
    requires Agrees(n, 0)
    ensures Agrees(RelayBatch(d, n, batch).0, 0)
  {
    if n.Up() {
      ExchangeAgrees(d, n, batch);
    } else if n.role == Server && n.session.state == Handshaking {
      EnsureReadyAgrees(d, n);
      var n1 := EnsureReady(d, n).0;
      if n1.Up() {
        ExchangeAgrees(d, n1, batch);
      }
    }
  }

  lemma ResetAgrees<W>(d: Device<W>, n: Node<W>)
    requires Agrees(n, 0)
    ensures Agrees(ResetServer(d, n), 0)
  {
    if n.role == Server {
      NeutralAgrees(n, d.resetTransport(n.world), ResetTransport, 0);
      ObserveSnoc(n.trace + [ResetTransport], Enter(Handshaking));
    }
  }

  lemma PassRelayAgrees<W>(d: Device<W>, n: Node<W>, batch: nat, during: bool)
    requires Agrees(n, 0)
    ensures Agrees(PassRelay(d, n, batch, during).0, 0)
  {
    RelayAgrees(d, n, batch);
    var (n1, ok) := RelayBatch(d, n, batch);
    SettleAgrees(d, Raise(n1, during), ok);
  }

  lemma SettleAgrees<W>(d: Device<W>, n: Node<W>, ok: bool)
    requires Agrees(n, 0)
    ensures Agrees(Settle(d, n, ok).0, 0)
  {
    if n.role == Server {
      ResetAgrees(d, n);
    } else {
      MoveAgrees(n, Failed, 0);
    }
  }

  lemma PassAgrees<W>(d: Device<W>, n: Node<W>, batch: nat, during: bool)
    requires Agrees(n, 0)
    ensures Agrees(Pass(d, n, batch, during).0, 0)
  {
    if n.Up() {
      PassRelayAgrees(d, n, batch, during);
    } else if n.role == Server && n.session.state == Handshaking {
      EnsureReadyAgrees(d, n);
      PassRelayAgrees(d, EnsureReady(d, n).0, batch, during);
    } else {
      ResetAgrees(d, Raise(n, during));
    }
  }

  lemma {:induction false} DataPlaneAgrees<W>(d: Device<W>, n: Node<W>, batch: nat, ticks: seq<Tick>)
    requires Agrees(n, 0)
    ensures Agrees(DataPlane(d, n, batch, ticks), 0)
    decreases |ticks|
  {
    if ticks != [] {
      var n1 := Raise(n, ticks[0].before);
      PassAgrees(d, n1, batch, ticks[0].during);
      DataPlaneAgrees(d, Pass(d, n1, batch, ticks[0].during).0, batch, ticks[1..]);
    }
  }

  lemma StartDevicesAgrees<W>(d: Device<W>, n: Node<W>)
    requires Agrees(n, 0)
    ensures Agrees(StartDevices(d, n).0, 0)
  {
    var (isOpen, w1) := d.openInterface(n.world);
    NeutralAgrees(n, w1, OpenInterface(isOpen), 0);
    var n1 := n.Did(w1, OpenInterface(isOpen));
    if isOpen {
      var (connected, w2) := d.connect(w1);
      NeutralAgrees(n1, w2, Connect(connected), 0);
      var n2 := n1.Did(w2, Connect(connected));
      MoveAgrees(n2, if connected then Handshaking else Failed, 0);
      if connected {
        StartServerAgrees(d, n2.Move(Handshaking));
        StartClientAgrees(d, n2.Move(Handshaking));
      }
    } else {
      MoveAgrees(n1, Failed, 0);
    }
  }

  lemma StartServerAgrees<W>(d: Device<W>, n: Node<W>)
    requires Agrees(n, 0)
    ensures Agrees(StartServer(d, n).0, 0)
  {
    var (shook, w) := d.handshake(n.world);
    NeutralAgrees(n, w, Handshake(shook), 0);
    MoveAgrees(n.Did(w, Handshake(shook)), Failed, 0);
  }

  lemma StartClientAgrees<W>(d: Device<W>, n: Node<W>)
    requires Agrees(n, 0)
    ensures Agrees(StartClient(d, n).0, 0)
  {
    var (shook, w) := d.handshake(n.world);
    NeutralAgrees(n, w, Handshake(shook), 0);
    var n1 := n.Did(w, Handshake(shook));
    if shook {
      StartChannelAgrees(d, n1);
    } else {
      MoveAgrees(n1, Failed, 0);
    }
  }

  lemma StartChannelAgrees<W>(d: Device<W>, n: Node<W>)
    requires Agrees(n, 0)
    ensures Agrees(StartChannel(d, n).0, 0)
  {
    var (up, w) := d.openChannel(n.world);
    NeutralAgrees(n, w, OpenChannel(up), 0);
    var n1 := n.Did(w, OpenChannel(up));
    if !up || !d.innerReady(w) {
      MoveAgrees(n1, Failed, 0);
    } else {
      RouteAgrees(d, n1);
    }
  }

  lemma StartAgrees<W>(d: Device<W>, n: Node<W>)
    requires Agrees(n, 0)
    ensures Agrees(Start(d, n).0, 0)
  {
    var (inner, w) := if n.hasInner then (true, n.world) else d.createInner(n.world);
    var n1 := Zeroed(n, w);
    ZeroedAgrees(n, w);
    MoveAgrees(n1, Connecting, 0);
    StartDevicesAgrees(d, n1.Move(Connecting));
  }

  lemma ZeroedAgrees<W>(n: Node<W>, w: W)
    requires Agrees(n, 0)
    ensures Agrees(Zeroed(n, w), 0)
  {
    ObserveSnoc(n.trace, ZeroStats);
  }

  lemma StopAgrees<W>(d: Device<W>, n: Node<W>)
    requires Agrees(n, 0)
    ensures Agrees(Stop(d, n), 0)
  {
    var n1 := n.(stop := true);
    MoveAgrees(n1, Closing, 0);
    var n2 := if n1.Up() then n1.Move(Closing) else n1;
    var w3 := d.clearRouting(n2.world);
    NeutralAgrees(n2, w3, ClearRouting, 0);
    var n3 := n2.Did(w3, ClearRouting);
    var w4 := d.closeTransport(w3);
    NeutralAgrees(n3, w4, CloseTransport, 0);
    var n4 := n3.Did(w4, CloseTransport);
    var w5 := d.closeInterface(w4);
    NeutralAgrees(n4, w5, CloseInterface, 0);
    MoveAgrees(n4.Did(w5, CloseInterface), Stopped, 0);
  }

  lemma StepAgrees<W>(d: Device<W>, n: Node<W>, op: Op)
    requires Agrees(n, 0)
    ensures Agrees(Step(d, n, op), 0)
  {
    match op
    case DoStart => StartAgrees(d, n);
    case DoRelay(batch) => RelayAgrees(d, n, batch);
    case DoDataPlane(batch, ticks) => DataPlaneAgrees(d, n, batch, ticks);
    case DoRequestStop =>
    case DoReset => ResetAgrees(d, n);
    case DoStop => StopAgrees(d, n);
    case DoBackground =>
  }

  lemma {:induction false} RunAgrees<W>(d: Device<W>, n: Node<W>, ops: seq<Op>)
    requires Agrees(n, 0)
    ensures Agrees(Run(d, n, ops), 0)
    decreases |ops|
  {
    if ops != [] {
      StepAgrees(d, n, ops[0]);
      RunAgrees(d, Step(d, n, ops[0]), ops[1..]);
    }
  }

  /** Conservation, over every run of either role on any devices: each non-empty packet read and each
      non-empty frame received since the statistics were zeroed is counted exactly once, as forwarded or
      under one kind of error; the byte counters are the sizes of the payloads forwarded; data moved only
      while the session was established; and the epoch counts the entries to that state. */
  lemma Conservation<W>(d: Device<W>, role: Role, hasInner: bool, w: W, ops: seq<Op>)
    ensures var n := Run(d, Fresh(role, hasInner, w), ops);
            var m := Observe(n.trace);
            && m.taken == n.stats.outPackets + n.stats.inPackets
                          + n.stats.sealErrors + n.stats.openErrors + n.stats.transportErrors
            && m.sentBytes == n.stats.outBytes && m.writtenBytes == n.stats.inBytes
            && m.clean
            && m.entries == n.session.epoch
            && m.state == n.session.state
  {
    RunAgrees(d, Fresh(role, hasInner, w), ops);
  }
}
