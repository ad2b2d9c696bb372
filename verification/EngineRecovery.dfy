/** Recovery and epochs over whole runs. */
module EngineRecovery {
  import opened SessionStates
  import opened Engine
  import opened EngineAnswers

  /** A server between two passes of its data-plane loop. */
  predicate AtHead(s: State) { s == Handshaking || s == Established || s == Failed }

  lemma {:induction false} InboundLoopSession<W>(d: Device<W>, n: Node<W>, max: nat)
    ensures var m := InboundLoop(d, n, max).0; m.session == n.session && m.role == n.role && m.stop == n.stop
    decreases max
  {
    if max > 0 {
      var t := InboundTurn(d, n);
      if t.forwarded {
        InboundLoopSession(d, t.node, max - 1);
      }
    }
  }

  /** Moving packets changes neither the session nor the role nor the stop flag. */
  lemma ExchangeSession<W>(d: Device<W>, n: Node<W>, batch: nat)
    ensures var m := Exchange(d, n, batch).0; m.session == n.session && m.role == n.role && m.stop == n.stop
  {
    var (n2, ok) := Outbound(d, Counted(n));
    if ok && n2.Up() && n2.hasInner {
      InboundLoopSession(d, n2, if batch > 0 then batch else 1);
    }
  }

  lemma RelaySession<W>(d: Device<W>, n: Node<W>, batch: nat)
    ensures var (m, ok) := RelayBatch(d, n, batch);
            && m.role == n.role && m.stop == n.stop
            && (n.role == Client || n.Up() ==> m.session == n.session)
            && (n.role == Server && n.session.state == Handshaking ==> AtHead(m.session.state))
            && (!n.Up() && m.Up() ==> m.session.epoch == n.session.epoch + 1)
            && (!m.Up() || n.Up() ==> m.session.epoch == n.session.epoch)
  {
    if n.Up() {
      ExchangeSession(d, n, batch);
    } else if n.role == Server && n.session.state == Handshaking {
      var n1 := EnsureReady(d, n).0;
      if n1.Up() {
        ExchangeSession(d, n1, batch);
      }
    }
  }

  /** One pass takes a server from a loop head to a loop head, and goes on unless a stop was requested. */
  lemma ServerPass<W>(d: Device<W>, n: Node<W>, batch: nat, during: bool)
    requires n.role == Server && AtHead(n.session.state)
    ensures var (m, again) := Pass(d, n, batch, during);
            && m.role == Server && AtHead(m.session.state)
            && (n.session.state == Failed && !n.stop && !during ==> again && m.session.state == Handshaking)
            && (!n.stop && !during ==> again && !m.stop)
  {
    if n.Up() {
      RelaySession(d, n, batch);
    } else if n.session.state == Handshaking {
      var (n1, ready) := EnsureReady(d, n);
      if ready {
        RelaySession(d, n1, batch);
      }
    }
  }

  /** The server `n` with its transport reset, handshaking again. */
  function Recovered<W>(d: Device<W>, n: Node<W>): Node<W> {
    n.(world := d.resetTransport(n.world), session := Sess(Handshaking, n.session.epoch),
       trace := n.trace + [ResetTransport] + [Enter(Handshaking)])
  }

  /** Recovery of an established server. A pass in which the devices do not forward resets the transport of the world
      that the relay left, and the session handshakes again in the same epoch; the loop goes on. If they do, the
      session stays established. A stop request by then ends the loop instead of a recovery. */
  lemma ServerRecovers<W>(d: Device<W>, n: Node<W>, batch: nat, during: bool)
    requires n.role == Server && n.Up() && n.hasInner
    ensures var (m, again) := Pass(d, n, batch, during);
            var relayed := RelayBatch(d, n, batch).0;
            && (Forwards(d, n.world) ==> again && m == Raise(relayed, during) && m.session == n.session)
            && (!Forwards(d, n.world) && !n.stop && !during ==> again && m == Recovered(d, NotForwarded(d, n)))
            && (!Forwards(d, n.world) && (n.stop || during) ==> !again && m == Raise(NotForwarded(d, n), during))
  {
    RelayAnswer(d, n, batch);
    RelaySession(d, n, batch);
    assert Raise(NotForwarded(d, n), false) == NotForwarded(d, n);
  }

  /** Recovery of a failed one. */
  lemma FailedRecovers<W>(d: Device<W>, n: Node<W>, batch: nat, during: bool)
    requires n.role == Server && n.session.state == Failed
    ensures Pass(d, n, batch, during)
         == if n.stop || during then (Raise(n, during), false) else (Recovered(d, n), true)
  {
    assert Raise(n, false) == n;
  }

  /** Where a server with an inner session stands after a pass in which nobody asked for a stop, told by the devices
      alone. */
  function NextHead<W>(d: Device<W>, n: Node<W>): State {
    if n.session.state == Failed then Handshaking
    else if n.Up() then (if Forwards(d, n.world) then Established else Handshaking)
    else
      var (up, w1) := d.openChannel(n.world);
      if !up then Handshaking
      else
        var (routed, w2) := d.applyRouting(w1);
        if !routed then Failed else if Forwards(d, w2) then Established else Handshaking
  }

  lemma WaitingPass<W>(d: Device<W>, n: Node<W>, batch: nat)
    requires n.role == Server && n.session.state == Handshaking && n.hasInner && !n.stop
    ensures var m := Pass(d, n, batch, false).0; m.session.state == NextHead(d, n) && m.hasInner
    ensures var (up, w) := d.openChannel(n.world);
            !up ==> Pass(d, n, batch, false) == (n.(world := w, trace := n.trace + [OpenChannel(false)]), true)
  {
    var (n1, ready) := EnsureReady(d, n);
    if ready {
      assert n1.Up() && n1.role == Server && n1.hasInner && !n1.stop;
      assert Pass(d, n, batch, false) == Pass(d, n1, batch, false);
      ServerRecovers(d, n1, batch, false);
      RelayInner(d, n1, batch);
    }
  }

  lemma {:induction false} InboundLoopInner<W>(d: Device<W>, n: Node<W>, max: nat)
    ensures InboundLoop(d, n, max).0.hasInner == n.hasInner
    decreases max
  {
    if max > 0 {
      var t := InboundTurn(d, n);
      if t.forwarded {
        InboundLoopInner(d, t.node, max - 1);
      }
    }
  }

  lemma RelayInner<W>(d: Device<W>, n: Node<W>, batch: nat)
    requires n.Up()
    ensures RelayBatch(d, n, batch).0.hasInner == n.hasInner
  {
    var (n2, ok) := Outbound(d, Counted(n));
    if ok && n2.Up() && n2.hasInner {
      InboundLoopInner(d, n2, if batch > 0 then batch else 1);
    }
  }

  lemma HeadPass<W>(d: Device<W>, n: Node<W>, batch: nat)
    requires n.role == Server && AtHead(n.session.state) && n.hasInner && !n.stop
    ensures var m := Pass(d, n, batch, false).0; m.session.state == NextHead(d, n) && m.hasInner
  {
    if n.Up() {
      ServerRecovers(d, n, batch, false);
      RelayInner(d, n, batch);
    } else if n.session.state == Handshaking {
      WaitingPass(d, n, batch);
    }
  }

  /** The data-plane loop of a server, pass by pass: between any two heads it moves as the devices tell. In particular
      an established server is handshaking at the next head exactly if the devices did not forward. */
  lemma {:induction false} ServerLoopMoves<W>(d: Device<W>, n: Node<W>, batch: nat, ticks: seq<Tick>, k: nat)
    requires n.role == Server && AtHead(n.session.state) && n.hasInner && !n.stop
    requires k < |ticks| && forall j :: 0 <= j <= k ==> Quiet(ticks[j])
    ensures var head := DataPlane(d, n, batch, ticks[..k]);
            && AtHead(head.session.state) && head.hasInner && !head.stop
            && DataPlane(d, n, batch, ticks[..k + 1]).session.state == NextHead(d, head)
    decreases k
  {
    assert Raise(n, false) == n;
    ServerPass(d, n, batch, false);
    HeadPass(d, n, batch);
    var m := Pass(d, n, batch, false).0;
    if k == 0 {
      assert ticks[..1][1..] == [];
      assert DataPlane(d, m, batch, []) == m;
    } else {
      assert ticks[..k][1..] == ticks[1..][..k - 1] && ticks[..k + 1][1..] == ticks[1..][..k];
      ServerLoopMoves(d, m, batch, ticks[1..], k - 1);
    }
  }

  /** A server that started successfully is at every loop head handshaking, established or failed: `ticks`
      may be any number of passes. */
  lemma {:induction false} ServerHeads<W>(d: Device<W>, n: Node<W>, batch: nat, ticks: seq<Tick>)
    requires n.role == Server && AtHead(n.session.state)
    ensures AtHead(DataPlane(d, n, batch, ticks).session.state)
    decreases |ticks|
  {
    if ticks != [] {
      var n1 := Raise(n, ticks[0].before);
      ServerPass(d, n1, batch, ticks[0].during);
      ServerHeads(d, Pass(d, n1, batch, ticks[0].during).0, batch, ticks[1..]);
    }
  }

  lemma ServerLoop<W>(d: Device<W>, n: Node<W>, batch: nat, ticks: seq<Tick>)
    requires n.role == Server && Start(d, n).1
    ensures Start(d, n).0.session.state == Handshaking
    ensures AtHead(DataPlane(d, Start(d, n).0, batch, ticks).session.state)
  {
    ServerHeads(d, Start(d, n).0, batch, ticks);
  }

  /** A pass of an established client goes on exactly when the devices forward. After one in which they do not the
      session is failed, unless a stop was requested by then. */
  lemma ClientPass<W>(d: Device<W>, n: Node<W>, batch: nat, during: bool)
    requires n.role == Client && n.Up()
    ensures var (m, again) := Pass(d, n, batch, during);
            && again == (n.hasInner && Forwards(d, n.world))
            && m.session.state == (if again || n.stop || during then Established else Failed)
            && m.session.epoch == n.session.epoch && m.role == Client
            && m.stop == (n.stop || during)
            && (again && !during ==> m == RelayBatch(d, n, batch).0)
  {
    RelaySession(d, n, batch);
    RelayAnswer(d, n, batch);
  }

  type Relayer<!W> = Node<W> -> Node<W>

  /** The node after `k` relays. */
  function RelayTimes<W>(relay: Relayer<W>, n: Node<W>, k: nat): Node<W>
    decreases k
  {
    if k == 0 then n else RelayTimes(relay, relay(n), k - 1)
  }

  predicate Quiet(t: Tick) { !t.before && !t.during }

  /** Pass `k` is the first in which the devices do not forward, and nobody asked for a stop before or during it. */
  ghost predicate FailsAt<W>(sends: Node<W> -> bool, relay: Relayer<W>, n: Node<W>, ticks: seq<Tick>, k: nat)
    requires k < |ticks|
  {
    && (forall j :: 0 <= j <= k ==> Quiet(ticks[j]))
    && (forall j :: 0 <= j < k ==> sends(RelayTimes(relay, n, j)))
    && !sends(RelayTimes(relay, n, k))
  }

  ghost predicate Fails<W>(sends: Node<W> -> bool, relay: Relayer<W>, n: Node<W>, ticks: seq<Tick>) {
    exists k :: 0 <= k < |ticks| && FailsAt(sends, relay, n, ticks, k)
  }

  lemma FailsLater<W>(sends: Node<W> -> bool, relay: Relayer<W>, n: Node<W>, ticks: seq<Tick>)
    requires ticks != [] && Quiet(ticks[0]) && sends(n)
    ensures Fails(sends, relay, n, ticks) <==> Fails(sends, relay, relay(n), ticks[1..])
  {
    assert !FailsAt(sends, relay, n, ticks, 0);
    if k: nat :| k < |ticks| && FailsAt(sends, relay, n, ticks, k) {
      ShiftedPass(sends, relay, n, ticks, k);
    }
    if k: nat :| k < |ticks[1..]| && FailsAt(sends, relay, relay(n), ticks[1..], k) {
      ShiftedPass(sends, relay, n, ticks, k + 1);
    }
  }

  lemma ShiftedPass<W>(sends: Node<W> -> bool, relay: Relayer<W>, n: Node<W>, ticks: seq<Tick>, k: nat)
    requires 0 < k < |ticks| && Quiet(ticks[0]) && sends(n)
    ensures FailsAt(sends, relay, n, ticks, k) <==> FailsAt(sends, relay, relay(n), ticks[1..], k - 1)
  {
    var m := relay(n);
    if FailsAt(sends, relay, m, ticks[1..], k - 1) {
      forall j | 0 < j <= k ensures Quiet(ticks[j]) && (j < k ==> sends(RelayTimes(relay, n, j))) {
        assert ticks[1..][j - 1] == ticks[j];
        assert RelayTimes(relay, n, j) == RelayTimes(relay, m, j - 1);
      }
    }
    if FailsAt(sends, relay, n, ticks, k) {
      forall j | 0 <= j <= k - 1 ensures Quiet(ticks[1..][j]) && (j < k - 1 ==> sends(RelayTimes(relay, m, j))) {
        assert ticks[1..][j] == ticks[j + 1];
        assert RelayTimes(relay, n, j + 1) == RelayTimes(relay, m, j);
      }
    }
  }

  /** The client's whole loop: it ends with a failed session exactly when some pass is the first in which the devices
      do not forward and no stop was requested until then; otherwise the session is still established. */
  lemma ClientLoop<W>(d: Device<W>, n: Node<W>, batch: nat, ticks: seq<Tick>)
    requires n.role == Client && n.Up() && !n.stop
    ensures DataPlane(d, n, batch, ticks).session
         == n.session.(state :=
              if Fails((m: Node<W>) => m.hasInner && Forwards(d, m.world), (m: Node<W>) => RelayBatch(d, m, batch).0,
                       n, ticks) then Failed else Established)
  {
    ClientLoopOf(d, n, batch, ticks, (m: Node<W>) => m.hasInner && Forwards(d, m.world),
                 (m: Node<W>) => RelayBatch(d, m, batch).0);
  }

  lemma {:induction false} ClientLoopOf<W>(d: Device<W>, n: Node<W>, batch: nat, ticks: seq<Tick>,
                                           sends: Node<W> -> bool, relay: Relayer<W>)
    requires n.role == Client && n.Up() && !n.stop
    requires forall m :: sends(m) == (m.hasInner && Forwards(d, m.world)) && relay(m) == RelayBatch(d, m, batch).0
    ensures DataPlane(d, n, batch, ticks).session
         == n.session.(state := if Fails(sends, relay, n, ticks) then Failed else Established)
    decreases |ticks|
  {
    if ticks != [] {
      assert Raise(n, false) == n;
      if Quiet(ticks[0]) {
        ClientPass(d, n, batch, false);
        assert sends(n) == (n.hasInner && Forwards(d, n.world)) && relay(n) == RelayBatch(d, n, batch).0;
        if sends(n) {
          FailsLater(sends, relay, n, ticks);
          ClientLoopOf(d, relay(n), batch, ticks[1..], sends, relay);
        } else {
          assert RelayTimes(relay, n, 0) == n;
          assert FailsAt(sends, relay, n, ticks, 0);
        }
      } else {
        LoudPass(d, n, batch, ticks);
      }
    }
  }

  /** A stop request in the first pass ends the loop with the session as it was. */
  lemma LoudPass<W>(d: Device<W>, n: Node<W>, batch: nat, ticks: seq<Tick>)
    requires n.role == Client && n.Up() && !n.stop && ticks != [] && !Quiet(ticks[0])
    ensures DataPlane(d, n, batch, ticks).session == n.session
  {
    if !ticks[0].before {
      assert Raise(n, false) == n;
      ClientPass(d, n, batch, true);
    }
  }

  lemma {:induction false} ClientDataPlaneEpoch<W>(d: Device<W>, n: Node<W>, batch: nat, ticks: seq<Tick>)
    requires n.role == Client
    ensures var m := DataPlane(d, n, batch, ticks); m.session.epoch == n.session.epoch && m.role == Client
    decreases |ticks|
  {
    if ticks != [] {
      var n1 := Raise(n, ticks[0].before);
      RelaySession(d, n1, batch);
      ClientDataPlaneEpoch(d, Pass(d, n1, batch, ticks[0].during).0, batch, ticks[1..]);
    }
  }

  /** A client gains an epoch only by a start, and a start gains one exactly when it succeeds. */
  lemma ClientEpoch<W>(d: Device<W>, n: Node<W>, op: Op)
    requires n.role == Client
    ensures Step(d, n, op).role == Client
    ensures Step(d, n, op).session.epoch == n.session.epoch + if op.DoStart? && Start(d, n).1 then 1 else 0
  {
    match op
    case DoStart => ClientStart(d, n);
    case DoRelay(batch) => RelaySession(d, n, batch);
    case DoDataPlane(batch, ticks) => ClientDataPlaneEpoch(d, n, batch, ticks);
    case _ =>
  }

  lemma ClientStart<W>(d: Device<W>, n: Node<W>)
    requires n.role == Client
    ensures var (m, ok) := Start(d, n);
            && m.role == Client
            && m.session.epoch == n.session.epoch + (if ok then 1 else 0)
            && (ok ==> m.session.state == Established)
  {
    var (inner, w) := if n.hasInner then (true, n.world) else d.createInner(n.world);
    if d.configValid && inner && n.session.state == Stopped {
      ClientDevices(d, Zeroed(n, w).Move(Connecting));
    }
  }

  lemma ClientDevices<W>(d: Device<W>, n: Node<W>)
    requires n.role == Client && n.session.state == Connecting
    ensures var (m, ok) := StartDevices(d, n);
            && m.role == Client
            && m.session.epoch == n.session.epoch + (if ok then 1 else 0)
            && (ok ==> m.session.state == Established)
  {
    var (isOpen, w1) := d.openInterface(n.world);
    if isOpen {
      var (connected, w2) := d.connect(w1);
      if connected {
        ClientShakes(d, n.Did(w1, OpenInterface(true)).Did(w2, Connect(true)).Move(Handshaking));
      }
    }
  }

  lemma ClientShakes<W>(d: Device<W>, n: Node<W>)
    requires n.role == Client && n.session.state == Handshaking
    ensures var (m, ok) := StartClient(d, n);
            && m.role == Client
            && m.session.epoch == n.session.epoch + (if ok then 1 else 0)
            && (ok ==> m.session.state == Established)
  {
  }

  /** An engine can be started again after a stop exactly when it was not stopped in mid-handshake. */
  lemma RestartIff<W>(d: Device<W>, n: Node<W>)
    ensures Allowed(Stop(d, n).session.state, Connecting)
            <==> n.session.state != Handshaking && n.session.state != Connecting
    ensures n.session.state == Handshaking ==> !Start(d, Stop(d, n)).1
  {
  }

  /** What that means for a server on any devices: stopped while it waits for a client, it stays handshaking through
      any starts, stops and resets that follow, and none of those starts succeeds. */
  lemma StoppedWhileWaiting<W>(d: Device<W>, n: Node<W>, ops: seq<Op>)
    requires n.role == Server && Start(d, n).1 && NoRelay(ops)
    ensures var m := Run(d, Stop(d, Start(d, n).0), ops);
            m.session.state == Handshaking && !Start(d, m).1
  {
    StaysHandshaking(d, Stop(d, Start(d, n).0), ops);
  }

  predicate NoRelay(ops: seq<Op>) { forall i :: 0 <= i < |ops| ==> !ops[i].DoRelay? && !ops[i].DoDataPlane? }

  lemma {:induction false} StaysHandshaking<W>(d: Device<W>, n: Node<W>, ops: seq<Op>)
    requires n.session.state == Handshaking && NoRelay(ops)
    ensures var m := Run(d, n, ops); m.session.state == Handshaking && !Start(d, m).1
    decreases |ops|
  {
    if ops != [] {
      StaysHandshaking(d, Step(d, n, ops[0]), ops[1..]);
    }
  }

  /** A transport that has been closed opens no channel: `shut` describes it, and holds until it is connected again.
      */
  ghost predicate StaysShut<W(!new)>(d: Device<W>, shut: W -> bool) {
    && (forall w {:trigger d.closeTransport(w)} :: shut(d.closeTransport(w)))
    && (forall w {:trigger d.openChannel(w)} :: shut(w) ==> !d.openChannel(w).0 && shut(d.openChannel(w).1))
    && (forall w {:trigger d.createInner(w)} :: shut(w) ==> shut(d.createInner(w).1))
    && (forall w {:trigger d.clearRouting(w)} :: shut(w) ==> shut(d.clearRouting(w)))
    && (forall w {:trigger d.closeInterface(w)} :: shut(w) ==> shut(d.closeInterface(w)))
    && (forall w {:trigger d.resetTransport(w)} :: shut(w) ==> shut(d.resetTransport(w)))
    && (forall w {:trigger d.background(w)} :: shut(w) ==> shut(d.background(w)))
  }

  ghost predicate Stuck<W>(n: Node<W>, shut: W -> bool) {
    n.role == Server && n.session.state == Handshaking && shut(n.world)
  }

  lemma {:induction false} DataPlaneStuck<W(!new)>(d: Device<W>, n: Node<W>, batch: nat, ticks: seq<Tick>,
                                                   shut: W -> bool)
    requires StaysShut(d, shut) && Stuck(n, shut)
    ensures Stuck(DataPlane(d, n, batch, ticks), shut)
    decreases |ticks|
  {
    if ticks != [] {
      var n1 := Raise(n, ticks[0].before);
      if !n1.stop {
        DataPlaneStuck(d, Pass(d, n1, batch, ticks[0].during).0, batch, ticks[1..], shut);
      }
    }
  }

  lemma {:induction false} RunStuck<W(!new)>(d: Device<W>, n: Node<W>, ops: seq<Op>, shut: W -> bool)
    requires StaysShut(d, shut) && Stuck(n, shut)
    ensures Stuck(Run(d, n, ops), shut)
    decreases |ops|
  {
    if ops != [] {
      StepStuck(d, n, ops[0], shut);
      RunStuck(d, Step(d, n, ops[0]), ops[1..], shut);
    }
  }

  lemma StepStuck<W(!new)>(d: Device<W>, n: Node<W>, op: Op, shut: W -> bool)
    requires StaysShut(d, shut) && Stuck(n, shut)
    ensures Stuck(Step(d, n, op), shut)
  {
    match op
    case DoDataPlane(batch, ticks) => DataPlaneStuck(d, n, batch, ticks, shut);
    case _ =>
  }

  /** If its transport opens no channel once closed, nothing whatever brings that server back: it relays nothing and
      never starts again. */
  lemma StoppedForGood<W(!new)>(d: Device<W>, n: Node<W>, ops: seq<Op>, shut: W -> bool)
    requires n.role == Server && Start(d, n).1 && StaysShut(d, shut)
    ensures var m := Run(d, Stop(d, Start(d, n).0), ops);
            m.session.state == Handshaking && !Start(d, m).1
  {
    StopsShut(d, Start(d, n).0, shut);
    RunStuck(d, Stop(d, Start(d, n).0), ops, shut);
  }

  lemma StopsShut<W(!new)>(d: Device<W>, n: Node<W>, shut: W -> bool)
    requires n.role == Server && n.session.state == Handshaking && StaysShut(d, shut)
    ensures Stuck(Stop(d, n), shut)
  {
  }
}
