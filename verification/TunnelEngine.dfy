/** `TunnelEngine`: the object whose methods carry out the functions of module Engine step by step. */
module TunnelEngines {
  import opened SessionStates
  import opened Engine

  /** The inbound loop over any turn, so that the loop is verified without looking into the turn. */
  ghost function Loop<W>(turn: Node<W> -> Turn<W>, n: Node<W>, max: nat): (Node<W>, nat)
    decreases max
  {
    if max == 0 then (n, 0)
    else
      var t := turn(n);
      if t.forwarded then (Loop(turn, t.node, max - 1).0, Loop(turn, t.node, max - 1).1 + 1) else (t.node, 0)
  }

  ghost predicate IsTurn<W(!new)>(turn: Node<W> -> Turn<W>, d: Device<W>) {
    forall n {:trigger InboundTurn(d, n)} :: turn(n) == InboundTurn(d, n)
  }

  lemma {:induction false} LoopIsInboundLoop<W(!new)>(turn: Node<W> -> Turn<W>, d: Device<W>, n: Node<W>, max: nat)
    requires IsTurn(turn, d)
    ensures Loop(turn, n, max) == InboundLoop(d, n, max)
    decreases max
  {
    if max > 0 {
      LoopIsInboundLoop(turn, d, InboundTurn(d, n).node, max - 1);
    }
  }

  class TunnelEngine<W(!new)> {
    const d: Device<W>
    const role: Role
    const session: Session
    var hasInner: bool
    var stats: Stats
    var stop: bool
    var world: W
    ghost var trace: seq<Call>

    constructor (d: Device<W>, role: Role, hasInner: bool, w: W)
      ensures this.d == d && View() == Fresh(role, hasInner, w) && fresh(session)
    {
      this.d, this.role, this.hasInner, this.world := d, role, hasInner, w;
      session := new Session();
      stats, stop, trace := ZERO, false, [];
    }

    ghost function View(): Node<W>
      reads this, session
    {
      Node(role, hasInner, session.View(), stats, stop, world, trace)
    }

    method Move(next: State) returns (ok: bool)
      modifies this, session
      ensures View() == old(View()).Move(next) && ok == Allowed(old(session.state), next)
    {
      ok := session.TransitionTo(next);
      if ok {
        trace := trace + [Enter(next)];
      }
    }

    method StartEngine() returns (ok: bool)
      modifies this, session
      ensures (View(), ok) == Start(d, old(View()))
    {
      if !d.configValid {
        return false;
      }
      if !hasInner {
        var (created, w) := d.createInner(world);
        world := w;
        if !created {
          return false;
        }
        hasInner := true;
      }
      stats, trace := ZERO, trace + [ZeroStats];
      ok := Move(Connecting);
      if !ok {
        return false;
      }
      ok := OpenDevices();
    }

    method OpenDevices() returns (ok: bool)
      modifies this, session
      ensures (View(), ok) == StartDevices(d, old(View()))
    {
      var ignored;
      var (isOpen, w1) := d.openInterface(world);
      world, trace := w1, trace + [OpenInterface(isOpen)];
      if !isOpen {
        ignored := Move(Failed);
        return false;
      }
      var (connected, w2) := d.connect(world);
      world, trace := w2, trace + [Connect(connected)];
      if !connected {
        ignored := Move(Failed);
        return false;
      }
      ignored := Move(Handshaking);
      if role == Server {
        ok := Listen();
      } else {
        ok := Dial();
      }
    }

    method Listen() returns (ok: bool)
      modifies this, session
      ensures (View(), ok) == StartServer(d, old(View()))
    {
      var ignored;
      var (shook, w) := d.handshake(world);
      world, trace := w, trace + [Handshake(shook)];
      if !shook || !d.innerReady(world) {
        ignored := Move(Failed);
        return false;
      }
      stop := false;
      ok := true;
    }

    method Dial() returns (ok: bool)
      modifies this, session
      ensures (View(), ok) == StartClient(d, old(View()))
    {
      var ignored;
      var (shook, w1) := d.handshake(world);
      world, trace := w1, trace + [Handshake(shook)];
      if !shook {
        ignored := Move(Failed);
        return false;
      }
      var (up, w2) := d.openChannel(world);
      world, trace := w2, trace + [OpenChannel(up)];
      if !up || !d.innerReady(world) {
        ignored := Move(Failed);
        return false;
      }
      ok := ApplyRoutes();
      if ok {
        stop := false;
      }
    }

    method ApplyRoutes() returns (ok: bool)
      modifies this, session
      ensures (View(), ok) == Route(d, old(View()))
    {
      var ignored;
      var (routed, w) := d.applyRouting(world);
      world, trace := w, trace + [ApplyRouting(routed)];
      if !routed {
        ignored := Move(Failed);
        return false;
      }
      ignored := Move(Established);
      ok := true;
    }

    method EnsureSessionReady() returns (ok: bool)
      modifies this, session
      ensures (View(), ok) == EnsureReady(d, old(View()))
    {
      if session.CanSendData() {
        return true;
      }
      if role != Server || session.state != Handshaking || !hasInner {
        return false;
      }
      var (up, w) := d.openChannel(world);
      world, trace := w, trace + [OpenChannel(up)];
      if !up {
        return false;
      }
      ok := ApplyRoutes();
    }

    method ForwardOutbound() returns (ok: bool)
      modifies this
      ensures (View(), ok) == Outbound(d, old(View()))
    {
      if !session.CanSendData() || !hasInner {
        return false;
      }
      var (packet, w1) := d.read(world);
      world, trace := w1, trace + [Read(packet)];
      if packet == [] {
        return true;
      }
      var (sealed, w2) := d.seal(world, packet);
      world := w2;
      if sealed.None? {
        stats := stats.(sealErrors := stats.sealErrors + 1);
        return false;
      }
      var (sent, w3) := d.send(world, sealed.value);
      world, trace := w3, trace + [Send(packet, sent)];
      if !sent {
        stats := stats.(transportErrors := stats.transportErrors + 1);
        return false;
      }
      stats := stats.(outPackets := stats.outPackets + 1);
      stats := stats.(outBytes := stats.outBytes + |packet|);
      ok := true;
    }

    /** One turn of the inbound loop: `false` means the loop is left. */
    method ForwardInboundOne(ghost turn: Node<W> -> Turn<W>) returns (forwarded: bool)
      requires IsTurn(turn, d)
      modifies this
      ensures Turn(View(), forwarded) == turn(old(View()))
    {
      assert turn(View()) == InboundTurn(d, View());
      var (received, w1) := d.receive(world);
      world := w1;
      if received.None? {
        return false;
      }
      trace := trace + [Receive(received.value)];
      if received.value == [] {
        return false;
      }
      var (plain, w2) := d.open(world, received.value);
      world := w2;
      if plain.None? || plain.value == [] {
        stats := stats.(openErrors := stats.openErrors + 1);
        return false;
      }
      var (written, w3) := d.write(world, plain.value);
      world, trace := w3, trace + [Write(plain.value, written)];
      if !written {
        stats := stats.(transportErrors := stats.transportErrors + 1);
        return false;
      }
      stats := stats.(inPackets := stats.inPackets + 1);
      stats := stats.(inBytes := stats.inBytes + |plain.value|);
      forwarded := true;
    }

    method ForwardInboundBatch(max: nat) returns (processed: nat)
      modifies this
      ensures (View(), processed) == Inbound(d, old(View()), max)
    {
      if !session.CanSendData() || !hasInner {
        return 0;
      }
      ghost var turn := (n: Node<W>) => InboundTurn(d, n);
      LoopIsInboundLoop(turn, d, View(), max);
      processed := ForwardUpTo(max, turn);
    }

    /** The loop: it ends with the first turn that forwards nothing. */
    method ForwardUpTo(max: nat, ghost turn: Node<W> -> Turn<W>) returns (processed: nat)
      requires IsTurn(turn, d)
      modifies this
      ensures (View(), processed) == Loop(turn, old(View()), max)
    {
      processed := 0;
      ghost var end := Loop(turn, View(), max);
      while processed < max
        invariant processed <= max
        invariant Loop(turn, View(), max - processed) == (end.0, end.1 - processed)
      {
        var forwarded := ForwardInboundOne(turn);
        if !forwarded {
          return;
        }
        processed := processed + 1;
      }
    }

    method Relay(batch: nat) returns (ok: bool)
      modifies this, session
      ensures (View(), ok) == RelayBatch(d, old(View()), batch)
    {
      if !session.CanSendData() {
        if role == Server && session.state == Handshaking {
          var ignored := EnsureSessionReady();
          if !session.CanSendData() {
            return true;
          }
        } else {
          return false;
        }
      }
      ok := ExchangeOnce(batch);
    }

    method ExchangeOnce(batch: nat) returns (ok: bool)
      modifies this
      ensures (View(), ok) == Exchange(d, old(View()), batch)
    {
      stats := stats.(iterations := stats.iterations + 1);
      ok := ForwardOutbound();
      if ok {
        var ignored := ForwardInboundBatch(if batch > 0 then batch else 1);
      }
    }

    method ResetServerSession()
      modifies this, session
      ensures View() == ResetServer(d, old(View()))
    {
      if role != Server {
        return;
      }
      world, trace := d.resetTransport(world), trace + [ResetTransport];
      var ignored := session.ResetToHandshaking();
      trace := trace + [Enter(Handshaking)];
    }

    method PassOnce(batch: nat, during: bool) returns (again: bool)
      modifies this, session
      ensures (View(), again) == Pass(d, old(View()), batch, during)
    {
      if !session.CanSendData() {
        if role == Server && session.state == Handshaking {
          var ready := EnsureSessionReady();
          if !ready {
            stop := stop || during;
            return true;
          }
        } else {
          stop := stop || during;
          if role == Server && !stop {
            ResetServerSession();
            return true;
          }
          return false;
        }
      }
      again := RelayOrRecover(batch, during);
    }

    method RelayOrRecover(batch: nat, during: bool) returns (again: bool)
      modifies this, session
      ensures (View(), again) == PassRelay(d, old(View()), batch, during)
    {
      var ok := Relay(batch);
      stop := stop || during;
      if !ok {
        if stop {
          return false;
        }
        if role == Server && session.state == Handshaking {
          return true;
        }
        if role == Server {
          ResetServerSession();
          return true;
        }
        var ignored := Move(Failed);
        return false;
      }
      again := true;
    }

    /** `run_data_plane_for`: as many passes as `ticks` allows before the deadline. */
    method RunDataPlane(batch: nat, ticks: seq<Tick>)
      modifies this, session
      ensures View() == DataPlane(d, old(View()), batch, ticks)
    {
      ghost var n := View();
      var i := 0;
      while i < |ticks|
        invariant 0 <= i <= |ticks|
        invariant DataPlane(d, n, batch, ticks) == DataPlane(d, View(), batch, ticks[i..])
      {
        assert ticks[i..][1..] == ticks[i + 1..];
        stop := stop || ticks[i].before;
        if stop {
          return;
        }
        var again := PassOnce(batch, ticks[i].during);
        if !again {
          return;
        }
        i := i + 1;
      }
    }

    method StopEngine()
      modifies this, session
      ensures View() == Stop(d, old(View()))
    {
      var ignored;
      stop := true;
      if session.state == Established {
        ignored := Move(Closing);
      }
      world, trace := d.clearRouting(world), trace + [ClearRouting];
      world, trace := d.closeTransport(world), trace + [CloseTransport];
      world, trace := d.closeInterface(world), trace + [CloseInterface];
      if session.state == Closing || session.state == Failed {
        ignored := Move(Stopped);
      }
    }
  }
}
