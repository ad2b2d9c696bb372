/** What the engine's operations answer, in terms of what the devices answer. */
module EngineAnswers {
  import opened SessionStates
  import opened Engine

  // ---------------------------------------------------------------- start

  /** The configuration is valid, the session at rest, and an inner session exists or can be created. */
  predicate Begins<W>(d: Device<W>, n: Node<W>) {
    d.configValid && n.session.state == Stopped && (n.hasInner || d.createInner(n.world).0)
  }

  /** Each of the calls that a start makes answers yes. */
  predicate Starts<W>(d: Device<W>, n: Node<W>) {
    && Begins(d, n)
    && var w0 := if n.hasInner then n.world else d.createInner(n.world).1;
    && var (isOpen, w1) := d.openInterface(w0);
    && isOpen
    && var (connected, w2) := d.connect(w1);
    && connected
    && var (shook, w3) := d.handshake(w2);
    && shook
    && if n.role == Server then d.innerReady(w3) else ClientUp(d, w3)
  }

  predicate ClientUp<W>(d: Device<W>, w: W) {
    var (up, w1) := d.openChannel(w);
    up && d.innerReady(w1) && d.applyRouting(w1).0
  }

  /** The session of a node that has begun to start: `ok` if all calls answered yes. */
  ghost predicate Settled<W>(n: Node<W>, m: Node<W>, ok: bool) {
    && m.role == n.role && m.hasInner
    && m.stop == (if ok then false else n.stop)
    && m.session == if !ok then Sess(Failed, n.session.epoch)
                    else if n.role == Server then Sess(Handshaking, n.session.epoch)
                    else Sess(Established, n.session.epoch + 1)
  }

  lemma ClientStarts<W>(d: Device<W>, n: Node<W>)
    requires n.role == Client && n.hasInner && n.session.state == Handshaking
    ensures var (m, ok) := StartClient(d, n);
            && ok == (d.handshake(n.world).0 && ClientUp(d, d.handshake(n.world).1))
            && Settled(n, m, ok)
  {
  }

  lemma ServerStarts<W>(d: Device<W>, n: Node<W>)
    requires n.role == Server && n.hasInner && n.session.state == Handshaking
    ensures var (m, ok) := StartServer(d, n);
            && ok == (d.handshake(n.world).0 && d.innerReady(d.handshake(n.world).1))
            && Settled(n, m, ok)
  {
  }

  /** A start succeeds exactly when every call it makes answers yes. Then no stop is requested any more, the
      statistics are as the start left them, a server waits for its client and a client is established in a new epoch.
      A start that fails leaves the stop flag alone, and the session failed if it began at all. */
  lemma StartAnswer<W>(d: Device<W>, n: Node<W>)
    ensures var (m, ok) := Start(d, n);
            && ok == Starts(d, n)
            && (ok ==> Settled(n, m, true))
            && m.hasInner == (n.hasInner || (d.configValid && d.createInner(n.world).0))
            && m.stats == (if d.configValid && m.hasInner then ZERO else n.stats)
            && (!ok ==> m.stop == n.stop)
            && (!ok ==> m.session == if Begins(d, n) then Sess(Failed, n.session.epoch) else n.session)
  {
    var (inner, w) := if n.hasInner then (true, n.world) else d.createInner(n.world);
    if d.configValid && inner && n.session.state == Stopped {
      var n1 := Zeroed(n, w).Move(Connecting);
      var (isOpen, w1) := d.openInterface(w);
      if isOpen {
        var (connected, w2) := d.connect(w1);
        if connected {
          var n3 := n1.Did(w1, OpenInterface(true)).Did(w2, Connect(true)).Move(Handshaking);
          if n.role == Server {
            ServerStarts(d, n3);
          } else {
            ClientStarts(d, n3);
          }
        }
      }
    }
  }

  // ---------------------------------------------------------------- the outbound half

  /** The devices bring what the interface has to offer to the transport. */
  predicate Forwards<W>(d: Device<W>, w: W) {
    var (packet, w1) := d.read(w);
    packet == [] || (var (sealed, w2) := d.seal(w1, packet); sealed.Some? && d.send(w2, sealed.value).0)
  }

  /** The node after a relay whose packet could not be sealed or sent: nothing was received, opened or written. */
  function NotForwarded<W>(d: Device<W>, n: Node<W>): Node<W> {
    var s := n.stats.(iterations := n.stats.iterations + 1);
    var (packet, w1) := d.read(n.world);
    var (sealed, w2) := d.seal(w1, packet);
    if sealed.None?
    then n.(world := w2, trace := n.trace + [Read(packet)], stats := s.(sealErrors := s.sealErrors + 1))
    else n.(world := d.send(w2, sealed.value).1, trace := n.trace + [Read(packet)] + [Send(packet, false)],
            stats := s.(transportErrors := s.transportErrors + 1))
  }

  /** A relay of an established node answers yes exactly when it has an inner session and the devices forward. When
      they do not, it ends there. */
  lemma RelayAnswer<W>(d: Device<W>, n: Node<W>, batch: nat)
    requires n.Up()
    ensures var (m, ok) := RelayBatch(d, n, batch);
            && ok == (n.hasInner && Forwards(d, n.world))
            && (n.hasInner && !ok ==> m == NotForwarded(d, n))
  {
    if n.hasInner {
      var (packet, w1) := d.read(n.world);
      if packet != [] {
        var (sealed, w2) := d.seal(w1, packet);
        if sealed.Some? {
          assert Outbound(d, Counted(n)).1 == d.send(w2, sealed.value).0;
        } else {
          assert !Outbound(d, Counted(n)).1;
        }
      } else {
        assert Outbound(d, Counted(n)).1;
      }
    }
  }

  /** The node after the outbound half of a relay that answers yes. */
  function Forwarded<W>(d: Device<W>, n: Node<W>): Node<W> {
    var s := n.stats.(iterations := n.stats.iterations + 1);
    var (packet, w1) := d.read(n.world);
    var n1 := n.(world := w1, trace := n.trace + [Read(packet)], stats := s);
    if packet == [] then n1
    else
      var (sealed, w2) := d.seal(w1, packet);
      if sealed.None? then n1
      else
        n1.(world := d.send(w2, sealed.value).1, trace := n1.trace + [Send(packet, true)],
            stats := s.(outPackets := s.outPackets + 1, outBytes := s.outBytes + |packet|))
  }

  // ---------------------------------------------------------------- the inbound half

  /** The transport has a frame, it opens to a packet, and the interface takes the packet. */
  predicate Delivers<W>(d: Device<W>, w: W) {
    var (received, w1) := d.receive(w);
    && received.Some? && received.value != []
    && var (plain, w2) := d.open(w1, received.value);
    && plain.Some? && plain.value != []
    && d.write(w2, plain.value).0
  }

  /** What a turn adds to the statistics: a frame that does not open is an open error, a packet that the interface
      refuses a transport error, and an empty queue nothing. */
  function TurnStats<W>(d: Device<W>, w: W, s: Stats): Stats {
    var (received, w1) := d.receive(w);
    if received.None? || received.value == [] then s
    else
      var (plain, w2) := d.open(w1, received.value);
      if plain.None? || plain.value == [] then s.(openErrors := s.openErrors + 1)
      else if !d.write(w2, plain.value).0 then s.(transportErrors := s.transportErrors + 1)
      else s.(inPackets := s.inPackets + 1, inBytes := s.inBytes + |plain.value|)
  }

  /** A turn forwards exactly when the devices deliver. */
  lemma TurnAnswer<W>(d: Device<W>, n: Node<W>)
    ensures var t := InboundTurn(d, n);
            t.forwarded == Delivers(d, n.world) && t.node.stats == TurnStats(d, n.world, n.stats)
  {
    var (received, w1) := d.receive(n.world);
    if received.Some? && received.value != [] {
      var (plain, w2) := d.open(w1, received.value);
      if plain.Some? && plain.value != [] {
        assert InboundTurn(d, n).forwarded == d.write(w2, plain.value).0;
      } else {
        assert !InboundTurn(d, n).forwarded;
      }
    } else {
      assert !InboundTurn(d, n).forwarded;
    }
  }

  type Turner<!W> = Node<W> -> Node<W>

  /** The node after `k` turns. */
  function TurnTimes<W>(turn: Turner<W>, n: Node<W>, k: nat): Node<W>
    decreases k
  {
    if k == 0 then n else TurnTimes(turn, turn(n), k - 1)
  }

  /** `k` turns deliver, and then `max` is reached or one more turn does not. */
  ghost predicate StopsAt<W>(delivers: Node<W> -> bool, turn: Turner<W>, n: Node<W>, max: nat, m: Node<W>, k: nat) {
    && k <= max
    && (forall j: nat :: j < k ==> delivers(TurnTimes(turn, n, j)))
    && (k < max ==> !delivers(TurnTimes(turn, n, k)))
    && m == TurnTimes(turn, n, if k < max then k + 1 else max)
  }

  lemma {:induction false} LoopStops<W>(d: Device<W>, n: Node<W>, max: nat, delivers: Node<W> -> bool, turn: Turner<W>)
    requires forall m :: delivers(m) == InboundTurn(d, m).forwarded && turn(m) == InboundTurn(d, m).node
    ensures var (m, k) := InboundLoop(d, n, max); StopsAt(delivers, turn, n, max, m, k)
    decreases max
  {
    if max > 0 {
      assert delivers(n) == InboundTurn(d, n).forwarded && turn(n) == InboundTurn(d, n).node;
      assert TurnTimes(turn, n, 0) == n && TurnTimes(turn, n, 1) == TurnTimes(turn, turn(n), 0) == turn(n);
      if delivers(n) {
        LoopStops(d, turn(n), max - 1, delivers, turn);
        var (m, k) := InboundLoop(d, turn(n), max - 1);
        StopsLater(delivers, turn, n, max, m, k);
      }
    }
  }

  lemma StopsLater<W>(delivers: Node<W> -> bool, turn: Turner<W>, n: Node<W>, max: nat, m: Node<W>, k: nat)
    requires max > 0 && delivers(n) && StopsAt(delivers, turn, turn(n), max - 1, m, k)
    ensures StopsAt(delivers, turn, n, max, m, k + 1)
  {
    forall j: nat | j < k + 1 ensures delivers(TurnTimes(turn, n, j)) {
      if j > 0 {
        assert delivers(TurnTimes(turn, turn(n), j - 1));
      }
    }
  }

  /** The inbound half of a relay that answers yes, over the devices alone: turns are made until one delivers nothing
      or as many have as the batch allows, one at least. */
  lemma RelayInbound<W>(d: Device<W>, n: Node<W>, batch: nat)
    requires n.Up() && n.hasInner && Forwards(d, n.world)
    ensures StopsSomewhere((m: Node<W>) => Delivers(d, m.world), (m: Node<W>) => InboundTurn(d, m).node,
                           Forwarded(d, n),
                           if batch > 0 then batch else 1, RelayBatch(d, n, batch).0)
  {
    var max := if batch > 0 then batch else 1;
    OutboundForwards(d, n, batch);
    LoopAnswers(d, Forwarded(d, n), max, (m: Node<W>) => Delivers(d, m.world), (m: Node<W>) => InboundTurn(d, m).node);
  }

  ghost predicate StopsSomewhere<W>(delivers: Node<W> -> bool, turn: Turner<W>, n: Node<W>, max: nat, m: Node<W>) {
    exists k: nat :: StopsAt(delivers, turn, n, max, m, k)
  }

  lemma LoopAnswers<W>(d: Device<W>, n: Node<W>, max: nat, delivers: Node<W> -> bool, turn: Turner<W>)
    requires forall m :: delivers(m) == Delivers(d, m.world) && turn(m) == InboundTurn(d, m).node
    ensures StopsAt(delivers, turn, n, max, InboundLoop(d, n, max).0, InboundLoop(d, n, max).1)
  {
    forall m ensures delivers(m) == InboundTurn(d, m).forwarded && turn(m) == InboundTurn(d, m).node {
      TurnAnswer(d, m);
    }
    LoopStops(d, n, max, delivers, turn);
  }

  lemma OutboundForwards<W>(d: Device<W>, n: Node<W>, batch: nat)
    requires n.Up() && n.hasInner && Forwards(d, n.world)
    ensures RelayBatch(d, n, batch).0 == InboundLoop(d, Forwarded(d, n), if batch > 0 then batch else 1).0
  {
    OutboundAnswer(d, Counted(n));
    assert Outbound(d, Counted(n)) == (Forwarded(d, n), true);
  }

  lemma OutboundAnswer<W>(d: Device<W>, n: Node<W>)
    requires n.Up() && n.hasInner && Forwards(d, n.world)
    ensures var (m, ok) := Outbound(d, n);
            && ok && m == Forwarded(d, n).(stats := m.stats)
            && m.stats.(iterations := n.stats.iterations + 1) == Forwarded(d, n).stats
            && m.stats.iterations == n.stats.iterations
  {
  }

  // ---------------------------------------------------------------- stop

  /** A stop requests the end of the data plane and leaves every device closed, in the order routes, transport,
      interface. From then on no pass of the data-plane loop is made until a start succeeds. */
  lemma StopCloses<W>(d: Device<W>, n: Node<W>, batch: nat, ticks: seq<Tick>)
    ensures var m := Stop(d, n);
            && m.world == d.closeInterface(d.closeTransport(d.clearRouting(n.world)))
            && m.stop && m.session.epoch == n.session.epoch && m.stats == n.stats
            && DataPlane(d, m, batch, ticks) == m
  {
  }

  /** A run that ends with a stop ends with the interface closed. */
  lemma {:induction false} EndsClosed<W(!new)>(d: Device<W>, n: Node<W>, ops: seq<Op>, closed: W -> bool)
    requires forall w {:trigger d.closeInterface(w)} :: closed(d.closeInterface(w))
    requires ops != [] && ops[|ops| - 1] == DoStop
    ensures closed(Run(d, n, ops).world)
    decreases |ops|
  {
    if |ops| == 1 {
      StopCloses(d, n, 0, []);
      assert ops[1..] == [];
      assert Run(d, Stop(d, n), []) == Stop(d, n);
    } else {
      EndsClosed(d, Step(d, n, ops[0]), ops[1..], closed);
    }
  }
}
