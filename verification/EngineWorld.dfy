/** A rule for what the devices themselves keep: if they can be described as idle or live, and honour that
    description call by call, then every run of an engine on them does. */
module EngineWorld {
  import opened SessionStates
  import opened Engine

  /** Three descriptions of the devices: bare before an inner session exists, idle, live. */
  datatype Phases<!W> = Phases(bare: W -> bool, idle: W -> bool, live: W -> bool)

  /** Idle devices stay idle until routing is applied; live ones stay live until routing is cleared.
      A server may also apply routing to devices that are live already. An inner session is created only on
      bare devices. */
  ghost predicate Respects<W(!new)>(d: Device<W>, role: Role, ph: Phases<W>) {
    && (forall w {:trigger ph.idle(w)} :: ph.idle(w) ==> ph.live(w))
    && Creating(d, ph)
    && Starting(d, ph.idle)
    && (forall w {:trigger d.applyRouting(w)} :: ph.idle(w) ==> ph.live(d.applyRouting(w).1))
    && (forall w {:trigger d.clearRouting(w)} :: ph.live(w) ==> ph.idle(d.clearRouting(w)))
    && (forall w {:trigger d.background(w)} :: ph.live(w) ==> ph.live(d.background(w)))
    && Moving(d, ph.live)
    && (role == Server ==> Serving(d, ph.live))
  }

  /** What may happen before an inner session exists: its creation, and calls that leave the devices bare. */
  ghost predicate Creating<W(!new)>(d: Device<W>, ph: Phases<W>) {
    && (forall w {:trigger d.createInner(w)} :: ph.bare(w) && ph.idle(w) ==> ph.idle(d.createInner(w).1))
    && (forall w {:trigger d.createInner(w)} :: ph.bare(w) && ph.live(w) ==> ph.live(d.createInner(w).1))
    && (forall w {:trigger d.createInner(w)} :: ph.bare(w) && !d.createInner(w).0 ==> ph.bare(d.createInner(w).1))
    && (forall w {:trigger d.clearRouting(w)} :: ph.bare(w) ==> ph.bare(d.clearRouting(w)))
    && (forall w {:trigger d.closeTransport(w)} :: ph.bare(w) ==> ph.bare(d.closeTransport(w)))
    && (forall w {:trigger d.closeInterface(w)} :: ph.bare(w) ==> ph.bare(d.closeInterface(w)))
    && (forall w {:trigger d.resetTransport(w)} :: ph.bare(w) ==> ph.bare(d.resetTransport(w)))
    && (forall w {:trigger d.background(w)} :: ph.bare(w) ==> ph.bare(d.background(w)))
  }

  ghost predicate Starting<W(!new)>(d: Device<W>, idle: W -> bool) {
    && (forall w {:trigger d.openInterface(w)} :: idle(w) ==> idle(d.openInterface(w).1))
    && (forall w {:trigger d.connect(w)} :: idle(w) ==> idle(d.connect(w).1))
    && (forall w {:trigger d.handshake(w)} :: idle(w) ==> idle(d.handshake(w).1))
    && (forall w {:trigger d.openChannel(w)} :: idle(w) ==> idle(d.openChannel(w).1))
    && (forall w {:trigger d.closeTransport(w)} :: idle(w) ==> idle(d.closeTransport(w)))
    && (forall w {:trigger d.closeInterface(w)} :: idle(w) ==> idle(d.closeInterface(w)))
    && (forall w {:trigger d.background(w)} :: idle(w) ==> idle(d.background(w)))
  }

  ghost predicate Moving<W(!new)>(d: Device<W>, live: W -> bool) {
    && (forall w {:trigger d.read(w)} :: live(w) ==> live(d.read(w).1))
    && (forall w {:trigger d.receive(w)} :: live(w) ==> live(d.receive(w).1))
    && (forall w, p {:trigger d.seal(w, p)} :: live(w) ==> live(d.seal(w, p).1))
    && (forall w, p {:trigger d.send(w, p)} :: live(w) ==> live(d.send(w, p).1))
    && (forall w, p {:trigger d.open(w, p)} :: live(w) ==> live(d.open(w, p).1))
    && (forall w, p {:trigger d.write(w, p)} :: live(w) ==> live(d.write(w, p).1))
  }

  ghost predicate Serving<W(!new)>(d: Device<W>, live: W -> bool) {
    && (forall w {:trigger d.openChannel(w)} :: live(w) ==> live(d.openChannel(w).1))
    && (forall w {:trigger d.applyRouting(w)} :: live(w) ==> live(d.applyRouting(w).1))
    && (forall w {:trigger d.resetTransport(w)} :: live(w) ==> live(d.resetTransport(w)))
  }

  /** Live always, idle while the session is stopped, bare while there is no inner session. */
  ghost predicate Keeps<W>(n: Node<W>, ph: Phases<W>) {
    && ph.live(n.world)
    && (n.session.state == Stopped ==> ph.idle(n.world))
    && (!n.hasInner ==> ph.bare(n.world))
  }

  lemma {:induction false} InboundLoopKeeps<W(!new)>(d: Device<W>, n: Node<W>, max: nat, live: W -> bool)
    requires Moving(d, live) && live(n.world)
    ensures var m := InboundLoop(d, n, max).0;
            live(m.world) && m.session == n.session && m.role == n.role && m.hasInner == n.hasInner
    decreases max
  {
    if max > 0 {
      var t := InboundTurn(d, n);
      assert live(t.node.world);
      if t.forwarded {
        InboundLoopKeeps(d, t.node, max - 1, live);
      }
    }
  }

  lemma ExchangeKeeps<W(!new)>(d: Device<W>, n: Node<W>, batch: nat, live: W -> bool)
    requires Moving(d, live) && live(n.world)
    ensures var m := Exchange(d, n, batch).0;
            && live(m.world) && m.session == n.session && m.role == n.role && m.hasInner == n.hasInner
            && (!n.hasInner ==> m.world == n.world)
  {
    var (n2, ok) := Outbound(d, Counted(n));
    assert live(n2.world) && n2.session == n.session && n2.role == n.role && n2.hasInner == n.hasInner;
    if ok && n2.Up() && n2.hasInner {
      InboundLoopKeeps(d, n2, if batch > 0 then batch else 1, live);
    }
  }

  lemma EnsureReadyKeeps<W(!new)>(d: Device<W>, n: Node<W>, ph: Phases<W>)
    requires Respects(d, n.role, ph) && Keeps(n, ph)
    ensures var m := EnsureReady(d, n).0; Keeps(m, ph) && m.role == n.role && m.hasInner == n.hasInner
  {
  }

  lemma RelayKeeps<W(!new)>(d: Device<W>, n: Node<W>, batch: nat, ph: Phases<W>)
    requires Respects(d, n.role, ph) && Keeps(n, ph)
    ensures Keeps(RelayBatch(d, n, batch).0, ph) && RelayBatch(d, n, batch).0.role == n.role
  {
    if n.Up() {
      ExchangeKeeps(d, n, batch, ph.live);
    } else if n.role == Server && n.session.state == Handshaking {
      EnsureReadyKeeps(d, n, ph);
      var n1 := EnsureReady(d, n).0;
      if n1.Up() {
        ExchangeKeeps(d, n1, batch, ph.live);
      }
    }
  }

  lemma SettleKeeps<W(!new)>(d: Device<W>, n: Node<W>, ok: bool, ph: Phases<W>)
    requires Respects(d, n.role, ph) && Keeps(n, ph)
    ensures Keeps(Settle(d, n, ok).0, ph) && Settle(d, n, ok).0.role == n.role
  {
  }

  lemma PassRelayKeeps<W(!new)>(d: Device<W>, n: Node<W>, batch: nat, during: bool, ph: Phases<W>)
    requires Respects(d, n.role, ph) && Keeps(n, ph)
    ensures Keeps(PassRelay(d, n, batch, during).0, ph) && PassRelay(d, n, batch, during).0.role == n.role
  {
    RelayKeeps(d, n, batch, ph);
    var (n1, ok) := RelayBatch(d, n, batch);
    SettleKeeps(d, Raise(n1, during), ok, ph);
  }

  lemma PassKeeps<W(!new)>(d: Device<W>, n: Node<W>, batch: nat, during: bool, ph: Phases<W>)
    requires Respects(d, n.role, ph) && Keeps(n, ph)
    ensures Keeps(Pass(d, n, batch, during).0, ph) && Pass(d, n, batch, during).0.role == n.role
  {
    if n.Up() {
      PassRelayKeeps(d, n, batch, during, ph);
    } else if n.role == Server && n.session.state == Handshaking {
      EnsureReadyKeeps(d, n, ph);
      PassRelayKeeps(d, EnsureReady(d, n).0, batch, during, ph);
    }
  }

  lemma {:induction false} DataPlaneKeeps<W(!new)>(d: Device<W>, n: Node<W>, batch: nat, ticks: seq<Tick>,
                                                   ph: Phases<W>)
    requires Respects(d, n.role, ph) && Keeps(n, ph)
    ensures Keeps(DataPlane(d, n, batch, ticks), ph) && DataPlane(d, n, batch, ticks).role == n.role
    decreases |ticks|
  {
    if ticks != [] {
      var n1 := Raise(n, ticks[0].before);
      PassKeeps(d, n1, batch, ticks[0].during, ph);
      DataPlaneKeeps(d, Pass(d, n1, batch, ticks[0].during).0, batch, ticks[1..], ph);
    }
  }

  lemma StartClientKeeps<W(!new)>(d: Device<W>, n: Node<W>, ph: Phases<W>)
    requires Respects(d, n.role, ph) && ph.idle(n.world) && n.session.state == Handshaking && n.hasInner
    ensures Keeps(StartClient(d, n).0, ph) && StartClient(d, n).0.role == n.role
  {
  }

  lemma StartDevicesKeeps<W(!new)>(d: Device<W>, n: Node<W>, ph: Phases<W>)
    requires Respects(d, n.role, ph) && ph.idle(n.world) && n.session.state == Connecting && n.hasInner
    ensures Keeps(StartDevices(d, n).0, ph) && StartDevices(d, n).0.role == n.role
  {
    var (isOpen, w1) := d.openInterface(n.world);
    if isOpen {
      var (connected, w2) := d.connect(w1);
      if connected && n.role == Client {
        StartClientKeeps(d, n.Did(w1, OpenInterface(true)).Did(w2, Connect(true)).Move(Handshaking), ph);
      }
    }
  }

  lemma StartKeeps<W(!new)>(d: Device<W>, n: Node<W>, ph: Phases<W>)
    requires Respects(d, n.role, ph) && Keeps(n, ph)
    ensures Keeps(Start(d, n).0, ph) && Start(d, n).0.role == n.role
  {
    var (inner, w) := if n.hasInner then (true, n.world) else d.createInner(n.world);
    if d.configValid && inner && n.session.state == Stopped {
      StartDevicesKeeps(d, Zeroed(n, w).Move(Connecting), ph);
    }
  }

  lemma StopKeeps<W(!new)>(d: Device<W>, n: Node<W>, ph: Phases<W>)
    requires Respects(d, n.role, ph) && Keeps(n, ph)
    ensures var m := Stop(d, n); ph.idle(m.world) && Keeps(m, ph) && m.role == n.role
  {
  }

  /** The rule: every run keeps the devices live, idle while stopped, bare until the inner session is created,
      and leaves them idle if it ends with a stop. */
  lemma {:induction false} RunKeeps<W(!new)>(d: Device<W>, n: Node<W>, ops: seq<Op>, ph: Phases<W>)
    requires Respects(d, n.role, ph) && Keeps(n, ph)
    ensures Keeps(Run(d, n, ops), ph)
    ensures ops != [] && ops[|ops| - 1] == DoStop ==> ph.idle(Run(d, n, ops).world)
    decreases |ops|
  {
    if ops != [] {
      StepKeeps(d, n, ops[0], ph);
      RunKeeps(d, Step(d, n, ops[0]), ops[1..], ph);
    }
  }

  lemma StepKeeps<W(!new)>(d: Device<W>, n: Node<W>, op: Op, ph: Phases<W>)
    requires Respects(d, n.role, ph) && Keeps(n, ph)
    ensures var m := Step(d, n, op); Keeps(m, ph) && m.role == n.role && (op.DoStop? ==> ph.idle(m.world))
  {
    match op
    case DoStart => StartKeeps(d, n, ph);
    case DoRelay(batch) => RelayKeeps(d, n, batch, ph);
    case DoDataPlane(batch, ticks) => DataPlaneKeeps(d, n, batch, ticks, ph);
    case DoRequestStop =>
    case DoReset =>
    case DoStop => StopKeeps(d, n, ph);
    case DoBackground =>
  }
}
