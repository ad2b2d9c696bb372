/** The inner session under an engine: which sequence numbers it accepts over a whole run. */
module EngineReplay {
  import opened Bytes
  import opened InnerFrame
  import opened InnerSession
  import opened SessionStates
  import opened Engine
  import opened EngineAnswers
  import opened EngineWorld
  import opened EngineRecovery
  import opened DevelopmentLink

  /** Devices with an inner session in them: the session, the history of the numbers it and its predecessors
      accepted, and the other devices. */
  datatype Receiver<V> = Receiver(inner: Inner, accepted: seq<int>, rest: V)

  /** Any interface and transport `d`, with an inner session beside them. Creating the session installs a new
      one, with mark zero; interface and transport calls do not reach it. */
  function WithSession<V>(d: Device<V>, format: Format): Device<Receiver<V>> {
    Device(
      d.configValid,
      (w: Receiver<V>) => CreateSession(d, format, w),
      (w: Receiver<V>) => w.inner.ready,
      (w: Receiver<V>) => (d.openInterface(w.rest).0, w.(rest := d.openInterface(w.rest).1)),
      (w: Receiver<V>) => (d.connect(w.rest).0, w.(rest := d.connect(w.rest).1)),
      (w: Receiver<V>) => (d.handshake(w.rest).0, w.(rest := d.handshake(w.rest).1)),
      (w: Receiver<V>) => (d.openChannel(w.rest).0, w.(rest := d.openChannel(w.rest).1)),
      (w: Receiver<V>) => (d.applyRouting(w.rest).0, w.(rest := d.applyRouting(w.rest).1)),
      (w: Receiver<V>) => w.(rest := d.clearRouting(w.rest)),
      (w: Receiver<V>) => w.(rest := d.closeTransport(w.rest)),
      (w: Receiver<V>) => w.(rest := d.closeInterface(w.rest)),
      (w: Receiver<V>) => w.(rest := d.resetTransport(w.rest)),
      (w: Receiver<V>) => w.(rest := d.background(w.rest)),
      (w: Receiver<V>) => (d.read(w.rest).0, w.(rest := d.read(w.rest).1)),
      (w: Receiver<V>, p: Packet) => (d.write(w.rest, p).0, w.(rest := d.write(w.rest, p).1)),
      (w: Receiver<V>, p: Packet) => (d.send(w.rest, p).0, w.(rest := d.send(w.rest, p).1)),
      (w: Receiver<V>) => (d.receive(w.rest).0, w.(rest := d.receive(w.rest).1)),
      (w: Receiver<V>, p: Packet) => SealIn(w, p),
      (w: Receiver<V>, p: Packet) => OpenIn(w, p))
  }

  /** `create_inner_session`: on success a fresh session replaces whatever was there. */
  function CreateSession<V>(d: Device<V>, format: Format, w: Receiver<V>): (bool, Receiver<V>) {
    var (ok, v) := d.createInner(w.rest);
    (ok, Receiver(if ok then FreshSession(format) else w.inner, w.accepted, v))
  }

  function SealIn<V>(w: Receiver<V>, p: Packet): (Option<Packet>, Receiver<V>) {
    var (inner, frame) := Seal(w.inner, p);
    (frame, w.(inner := inner))
  }

  function OpenIn<V>(w: Receiver<V>, p: Packet): (Option<Packet>, Receiver<V>) {
    var (inner, payload) := Open(w.inner, p);
    (payload, w.(inner := inner, accepted := w.accepted + if payload.Some? then [inner.mark] else []))
  }

  /** The accepted numbers increase, up to the mark of the present session. */
  predicate Ordered(accepted: seq<int>, mark: int) {
    Increasing(accepted) && forall i :: 0 <= i < |accepted| ==> accepted[i] <= mark
  }

  /** A property of the accepted numbers and the present mark. */
  type History = (seq<int>, int) -> bool

  /** It holds of no numbers and any mark, and of one number more once the mark has moved to it. */
  ghost predicate Grows(kept: History) {
    && (forall m {:trigger kept([], m)} :: kept([], m))
    && (forall a, m, n {:trigger kept(a, m), kept(a + [n], n)} :: kept(a, m) && m < n ==> kept(a + [n], n))
  }

  /** Bare devices have accepted nothing. Only there may a session be created: elsewhere the new mark would fall
      below numbers already accepted, and the latch of `start` is what prevents it. */
  function SessionPhases<V>(kept: History): Phases<Receiver<V>> {
    var ordered := (w: Receiver<V>) => kept(w.accepted, w.inner.mark);
    Phases((w: Receiver<V>) => w.accepted == [], ordered, ordered)
  }

  ghost predicate Tells<V(!new)>(live: Receiver<V> -> bool, kept: History) {
    forall w: Receiver<V> :: live(w) == kept(w.accepted, w.inner.mark)
  }

  lemma OpenKeeps<V>(w: Receiver<V>, p: Packet, kept: History)
    requires Grows(kept) && kept(w.accepted, w.inner.mark)
    ensures var w' := OpenIn(w, p).1; kept(w'.accepted, w'.inner.mark)
  {
    var inner := Open(w.inner, p).0;
    if Open(w.inner, p).1.Some? {
      assert kept(w.accepted + [inner.mark], inner.mark);
    } else {
      assert w.accepted + [] == w.accepted;
    }
  }

  lemma SessionMoving<V(!new)>(d: Device<V>, format: Format, live: Receiver<V> -> bool, kept: History)
    requires Tells(live, kept)
    requires forall w: Receiver<V>, p {:trigger OpenIn(w, p)} :: live(w) ==> live(OpenIn(w, p).1)
    ensures Moving(WithSession(d, format), live)
  {
  }

  lemma SessionStarting<V(!new)>(d: Device<V>, format: Format, live: Receiver<V> -> bool, kept: History)
    requires Tells(live, kept)
    ensures Starting(WithSession(d, format), live) && Serving(WithSession(d, format), live)
  {
  }

  lemma SessionCreating<V(!new)>(d: Device<V>, format: Format, kept: History)
    requires Grows(kept)
    ensures Creating(WithSession(d, format), SessionPhases(kept))
  {
  }

  lemma SessionRespects<V(!new)>(d: Device<V>, format: Format, role: Role, ph: Phases<Receiver<V>>, kept: History)
    requires Grows(kept) && ph == SessionPhases(kept)
    ensures Respects(WithSession(d, format), role, ph)
  {
    forall w: Receiver<V>, p: Packet | ph.live(w) ensures ph.live(OpenIn(w, p).1) {
      OpenKeeps(w, p, kept);
    }
    SessionMoving(d, format, ph.live, kept);
    SessionStarting(d, format, ph.live, kept);
    SessionCreating(d, format, kept);
  }

  lemma SessionRun<V(!new)>(e: Device<Receiver<V>>, n: Node<Receiver<V>>, ops: seq<Op>, ph: Phases<Receiver<V>>,
                            kept: History)
    requires ph == SessionPhases(kept) && Grows(kept) && Respects(e, n.role, ph) && n.world.accepted == []
    ensures var w := Run(e, n, ops).world; kept(w.accepted, w.inner.mark)
  {
    RunKeeps(e, n, ops, ph);
  }

  /** Every run of either role on any interface and transport, whether the engine is given its inner session or
      creates it, with any number of failures, resets and restarts: the numbers accepted keep strictly increasing,
      and a frame that bears one of them is refused from then on. */
  lemma AcceptedAcrossResets<V(!new)>(d: Device<V>, format: Format, role: Role, hasInner: bool, w: Receiver<V>,
                                      ops: seq<Op>)
    requires w.accepted == []
    ensures var w' := Run(WithSession(d, format), Fresh(role, hasInner, w), ops).world;
            && Increasing(w'.accepted)
            && forall f :: Bears(w'.inner.format, f, w'.accepted) ==> Open(w'.inner, f).1 == None
  {
    var kept: History := (accepted: seq<int>, mark: int) => Ordered(accepted, mark);
    var n, e := Fresh(role, hasInner, w), WithSession(d, format);
    SessionRespects(d, format, role, SessionPhases(kept), kept);
    SessionRun(e, n, ops, SessionPhases(kept), kept);
    OrderedRefuses(Run(e, n, ops).world);
  }

  /** The frame parses to one of the numbers. */
  predicate Bears(format: Format, f: Packet, numbers: seq<int>) {
    format.decode(f).Some? && format.decode(f).value.sequence in numbers
  }

  lemma OrderedRefuses<V>(w: Receiver<V>)
    requires Ordered(w.accepted, w.inner.mark)
    ensures forall f :: Bears(w.inner.format, f, w.accepted) ==> Open(w.inner, f).1 == None
  {
  }

  /** In particular an end of the development link, from a new link on. */
  lemma AcceptedOnLink(format: Format, mtu: nat, role: Role, ops: seq<Op>)
    ensures var w := Receiver(FreshSession(format), [], NewLink(format));
            Increasing(Run(WithSession(Adapters(role, format, mtu), format), Fresh(role, false, w), ops).world.accepted)
  {
    AcceptedAcrossResets(Adapters(role, format, mtu), format, role, false,
                         Receiver(FreshSession(format), [], NewLink(format)), ops);
  }

  // ---------------------------------------------------------------- a peer that starts over

  /** Successive calls of the inbound half. */
  function Batches<W>(d: Device<W>, n: Node<W>, sizes: seq<nat>): Node<W> {
    if sizes == [] then n else Inbound(d, Batches(d, n, sizes[..|sizes| - 1]), sizes[|sizes| - 1]).0
  }

  /** The node after it has met `k` frames that its session refused. */
  function Refusing(n: Node<Link>, frames: seq<Packet>, k: nat): Node<Link>
    requires k <= |frames|
  {
    n.(world := n.world.SetInbox(n.role, frames[k..]), stats := n.stats.(openErrors := n.stats.openErrors + k))
  }

  /** A frame that the session refuses costs one open error and ends the batch, whatever its size. */
  lemma RefusedEndsBatch(format: Format, mtu: nat, n: Node<Link>, max: nat)
    requires Running(n) && max > 0 && n.world.Inbox(n.role) != [] && n.world.Inbox(n.role)[0] != []
    requires Open(n.world.Get(n.role).inner, n.world.Inbox(n.role)[0]) == (n.world.Get(n.role).inner, None)
    ensures var (m, processed) := Inbound(Adapters(n.role, format, mtu), n, max);
            && processed == 0
            && Is(m, n.(world := n.world.SetInbox(n.role, n.world.Inbox(n.role)[1..]),
                        stats := n.stats.(openErrors := n.stats.openErrors + 1)))
  {
  }

  /** The frames of a fresh peer, each non-empty and under the number of its position. */
  lemma FreshFrames(format: Format, payloads: seq<Packet>)
    requires format.Faithful() && AllFit(payloads) && |payloads| < TWO_64
    ensures var frames := SealAll(FreshSession(format), payloads);
            && Numbered(format, 0, frames, payloads)
            && (forall i :: 0 <= i < |frames| ==> frames[i] != [] && frames[i] == Frame(format, i + 1, payloads[i]))
  {
    SealAllAt(FreshSession(format), payloads);
    SealAllPrinted(format, payloads);
  }

  /** A batch met by a node that has refused `k` frames of the fresh peer, with at least one more to refuse. */
  lemma RefusesNext(format: Format, mtu: nat, n: Node<Link>, frames: seq<Packet>, payloads: seq<Packet>, k: nat,
                    v: Node<Link>, max: nat)
    requires Running(n) && n.world.Get(n.role).inner.format == format && Numbered(format, 0, frames, payloads)
    requires k < |frames| && k < n.world.Get(n.role).inner.mark && max > 0 && frames[k] != []
    requires Is(v, Refusing(n, frames, k))
    ensures Is(Inbound(Adapters(n.role, format, mtu), v, max).0, Refusing(n, frames, k + 1))
  {
    OpenNumbered(frames, payloads, n.world.Get(n.role).inner, k);
    assert v.world.Get(n.role) == n.world.Get(n.role) && v.world.Inbox(n.role) == frames[k..];
    RefusedEndsBatch(format, mtu, v, max);
    assert frames[k..][1..] == frames[k + 1..];
  }

  lemma {:induction false} RefusesAll(format: Format, mtu: nat, n: Node<Link>, frames: seq<Packet>,
                                      payloads: seq<Packet>, sizes: seq<nat>)
    requires Running(n) && n.world.Get(n.role).inner.format == format && Numbered(format, 0, frames, payloads)
    requires n.world.Inbox(n.role) == frames && forall i :: 0 <= i < |frames| ==> frames[i] != []
    requires |sizes| <= |frames| && |sizes| <= n.world.Get(n.role).inner.mark
    requires forall i :: 0 <= i < |sizes| ==> sizes[i] > 0
    ensures Is(Batches(Adapters(n.role, format, mtu), n, sizes), Refusing(n, frames, |sizes|))
    decreases |sizes|
  {
    if sizes == [] {
      assert frames[0..] == frames;
    } else {
      var k := |sizes| - 1;
      RefusesAll(format, mtu, n, frames, payloads, sizes[..k]);
      RefusesNext(format, mtu, n, frames, payloads, k, Batches(Adapters(n.role, format, mtu), n, sizes[..k]), sizes[k]);
    }
  }

  /** What an end of the link that keeps its session through resets makes of a peer that starts over: as long as the
      mark is not reached, each batch of any size handles one frame, counts one open error, and delivers nothing. */
  lemma FreshPeerCostsErrors(format: Format, mtu: nat, n: Node<Link>, payloads: seq<Packet>, sizes: seq<nat>)
    requires format.Faithful() && AllFit(payloads) && |payloads| < TWO_64
    requires Running(n) && n.world.Get(n.role).inner.format == format
    requires n.world.Inbox(n.role) == SealAll(FreshSession(format), payloads)
    requires |sizes| <= |payloads| && |sizes| <= n.world.Get(n.role).inner.mark
    requires forall i :: 0 <= i < |sizes| ==> sizes[i] > 0
    ensures |SealAll(FreshSession(format), payloads)| == |payloads|
    ensures Is(Batches(Adapters(n.role, format, mtu), n, sizes),
               Refusing(n, SealAll(FreshSession(format), payloads), |sizes|))
  {
    FreshFrames(format, payloads);
    RefusesAll(format, mtu, n, SealAll(FreshSession(format), payloads), payloads, sizes);
  }

  /** And the first payload that gets through is the one after as many as the mark says. */
  lemma FreshPeerIsHeard(format: Format, mtu: nat, n: Node<Link>, payloads: seq<Packet>, sizes: seq<nat>)
    requires format.Faithful() && AllFit(payloads) && |payloads| < TWO_64
    requires Running(n) && n.world.Get(n.role).inner.format == format
    requires n.world.Inbox(n.role) == SealAll(FreshSession(format), payloads)
    requires |sizes| == n.world.Get(n.role).inner.mark < |payloads| && payloads[|sizes|] != []
    requires forall i :: 0 <= i < |sizes| ==> sizes[i] > 0
    ensures var (m, processed) := Inbound(Adapters(n.role, format, mtu),
                                          Batches(Adapters(n.role, format, mtu), n, sizes), 1);
            && processed == 1 && m.world.Get(n.role).slot == payloads[|sizes|]
            && m.stats.openErrors == n.stats.openErrors + |sizes| && m.stats.inPackets == n.stats.inPackets + 1
  {
    FreshPeerCostsErrors(format, mtu, n, payloads, sizes);
    FreshFrames(format, payloads);
    Heard(format, mtu, n, SealAll(FreshSession(format), payloads), |sizes|, payloads[|sizes|],
          Batches(Adapters(n.role, format, mtu), n, sizes));
  }

  lemma Heard(format: Format, mtu: nat, n: Node<Link>, frames: seq<Packet>, k: nat, p: Packet, v: Node<Link>)
    requires format.Faithful() && Running(n) && n.world.Get(n.role).inner.format == format
    requires k == n.world.Get(n.role).inner.mark < |frames| < TWO_64 && GoodPacket(p)
    requires frames[k] == Frame(format, k + 1, p) && Is(v, Refusing(n, frames, k))
    ensures var (m, processed) := Inbound(Adapters(n.role, format, mtu), v, 1);
            && processed == 1 && m.world.Get(n.role).slot == p
            && m.stats.openErrors == n.stats.openErrors + k && m.stats.inPackets == n.stats.inPackets + 1
  {
    assert v.world.Inbox(n.role)[0] == frames[k];
    TurnTakes(format, mtu, v, k + 1, p);
    assert InboundLoop(Adapters(n.role, format, mtu), InboundTurn(Adapters(n.role, format, mtu), v).node, 0).1 == 0;
  }

  // ---------------------------------------------------------------- a stopped server

  /** The development transport opens no channel once closed, so a server on it that is stopped while it waits is
      stopped for good. */
  lemma StoppedOnLink(format: Format, mtu: nat, n: Node<Link>, ops: seq<Op>)
    requires n.role == Server && Start(Adapters(Server, format, mtu), n).1
    ensures var d := Adapters(Server, format, mtu);
            var m := Run(d, Stop(d, Start(d, n).0), ops);
            m.session.state == Handshaking && !Start(d, m).1
  {
    var shut := (w: Link) => !w.server.connected;
    LinkStaysShut(format, mtu, shut);
    StoppedForGood(Adapters(Server, format, mtu), n, ops, shut);
  }

  lemma LinkStaysShut(format: Format, mtu: nat, shut: Link -> bool)
    requires forall w :: shut(w) == !w.server.connected
    ensures StaysShut(Adapters(Server, format, mtu), shut)
  {
  }

  /** A stop closes an end of the link: its interface is closed and its slot empty, its transport is not connected,
      and the peer and the queues are as they were. */
  lemma StopClosesEnd(format: Format, mtu: nat, n: Node<Link>)
    ensures var w := Stop(Adapters(n.role, format, mtu), n).world;
            && !w.Get(n.role).isOpen && w.Get(n.role).slot == [] && !w.Get(n.role).connected
            && w.Get(n.role).inner == n.world.Get(n.role).inner
            && w.Get(Peer(n.role)) == n.world.Get(Peer(n.role))
            && w.toClient == n.world.toClient && w.toServer == n.world.toServer
  {
    StopCloses(Adapters(n.role, format, mtu), n, 0, []);
  }
}
