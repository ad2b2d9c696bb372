/** The development adapters, and two engines joined by them. */
module DevelopmentLink {
  import opened Bytes
  import opened InnerFrame
  import opened InnerSession
  import opened SessionStates
  import opened Engine

  // ---------------------------------------------------------------- the single-slot interface

  predicate MtuOk(mtu: nat) { 1280 <= mtu <= 1420 }

  class DevelopmentVirtualInterface {
    var isOpen: bool
    var packet: Packet

    constructor ()
      ensures !isOpen && packet == []
    {
      isOpen, packet := false, [];
    }

    method Open(mtu: nat) returns (ok: bool)
      modifies this`isOpen
      ensures ok == isOpen == MtuOk(mtu)
    {
      isOpen := mtu >= 1280 && mtu <= 1420;
      ok := isOpen;
    }

    /** The link `w` with this object as the interface of its end `r`. */
    ghost function Within(w: Link, r: Role): Link
      reads this
    {
      w.Put(r, w.Get(r).(isOpen := isOpen, slot := packet))
    }

    /** Reading empties the slot of an open interface. */
    method ReadPacket() returns (p: Packet)
      modifies this`packet
      ensures forall w, r :: (p, Within(w, r)) == ReadSlot(r, old(Within(w, r)))
      ensures (p, packet) == if isOpen then (old(packet), []) else ([], old(packet))
    {
      if !isOpen {
        return [];
      }
      p := packet;
      packet := [];
    }

    /** Writing overwrites the slot, so that the next read returns what was written. */
    method WritePacket(p: Packet) returns (ok: bool)
      modifies this`packet
      ensures forall w, r :: (ok, Within(w, r)) == WriteSlot(r, old(Within(w, r)), p)
      ensures ok == (isOpen && p != []) && packet == (if ok then p else old(packet))
    {
      if !isOpen || p == [] {
        return false;
      }
      packet := p;
      ok := true;
    }

    method Close()
      modifies this
      ensures !isOpen && packet == []
    {
      isOpen, packet := false, [];
    }
  }

  // ---------------------------------------------------------------- the paired transport

  /** The two queues that both ends of a port share. */
  class DevelopmentTransportLink {
    var toServer: seq<Packet>
    var toClient: seq<Packet>

    constructor ()
      ensures toServer == [] && toClient == []
    {
      toServer, toClient := [], [];
    }

    /** The queue that an end receives from. */
    function Inbox(r: Role): seq<Packet>
      reads this
    {
      if r == Client then toClient else toServer
    }
  }

  class DevelopmentSecureTransport {
    const role: Role
    const link: DevelopmentTransportLink
    var connected: bool

    constructor (role: Role, link: DevelopmentTransportLink)
      ensures this.role == role && this.link == link && connected
    {
      this.role, this.link, connected := role, link, true;
    }

    /** The link `w` with this object as the transport of its end and these queues. */
    ghost function Within(w: Link): Link
      reads this, link
    {
      w.Put(role, w.Get(role).(connected := connected)).(toServer := link.toServer, toClient := link.toClient)
    }

    /** What one end sends is appended to the other's inbox; its own inbox is not touched. */
    method SendPayload(payload: Packet) returns (ok: bool)
      modifies link
      ensures forall w :: (ok, Within(w)) == Push(role, old(Within(w)), payload)
      ensures ok == (connected && payload != [])
      ensures link.Inbox(Peer(role)) == old(link.Inbox(Peer(role))) + (if ok then [payload] else [])
      ensures link.Inbox(role) == old(link.Inbox(role))
    {
      if !connected || payload == [] {
        return false;
      }
      if role == Client {
        link.toServer := link.toServer + [payload];
      } else {
        link.toClient := link.toClient + [payload];
      }
      ok := true;
    }

    /** The oldest payload of the own inbox, an empty one if there is none, nothing if not connected. */
    method TryReceivePayload() returns (r: Option<Packet>)
      modifies link
      ensures forall w :: (r, Within(w)) == Pop(role, old(Within(w)))
      ensures r.None? <==> !connected
      ensures r.None? || old(link.Inbox(role)) == [] ==> link.Inbox(role) == old(link.Inbox(role))
      ensures r.Some? && old(link.Inbox(role)) == [] ==> r.value == []
      ensures r.Some? && old(link.Inbox(role)) != [] ==> [r.value] + link.Inbox(role) == old(link.Inbox(role))
      ensures link.Inbox(Peer(role)) == old(link.Inbox(Peer(role)))
    {
      if !connected {
        return None;
      }
      var queue := if role == Client then link.toClient else link.toServer;
      if queue == [] {
        return Some([]);
      }
      if role == Client {
        link.toClient := queue[1..];
      } else {
        link.toServer := queue[1..];
      }
      r := Some(queue[0]);
    }
  }

  // ---------------------------------------------------------------- the link as devices

  /** One end: its interface, whether its transport is connected, and its inner session. */
  datatype End = End(isOpen: bool, slot: Packet, connected: bool, inner: Inner)

  /** Both ends and the two queues between them. */
  datatype Link = Link(client: End, server: End, toServer: seq<Packet>, toClient: seq<Packet>) {
    function Get(r: Role): End { if r == Client then client else server }
    function Put(r: Role, e: End): Link { if r == Client then this.(client := e) else this.(server := e) }

    /** The queue an end receives from, and what remains when it is replaced. */
    function Inbox(r: Role): seq<Packet> { if r == Client then toClient else toServer }
    function SetInbox(r: Role, q: seq<Packet>): Link {
      if r == Client then this.(toClient := q) else this.(toServer := q)
    }
  }

  function Peer(r: Role): Role { if r == Client then Server else Client }

  function ReadSlot(r: Role, w: Link): (Packet, Link) {
    var e := w.Get(r);
    if e.isOpen then (e.slot, w.Put(r, e.(slot := []))) else ([], w)
  }

  function WriteSlot(r: Role, w: Link, p: Packet): (bool, Link) {
    var e := w.Get(r);
    if e.isOpen && p != [] then (true, w.Put(r, e.(slot := p))) else (false, w)
  }

  function Push(r: Role, w: Link, p: Packet): (bool, Link) {
    if w.Get(r).connected && p != [] then (true, w.SetInbox(Peer(r), w.Inbox(Peer(r)) + [p])) else (false, w)
  }

  function Pop(r: Role, w: Link): (Option<Packet>, Link) {
    var q := w.Inbox(r);
    if !w.Get(r).connected then (None, w)
    else if q == [] then (Some([]), w)
    else (Some(q[0]), w.SetInbox(r, q[1..]))
  }

  function SealAt(r: Role, w: Link, p: Packet): (Option<Packet>, Link) {
    var e := w.Get(r);
    var (inner, frame) := Seal(e.inner, p);
    (frame, w.Put(r, e.(inner := inner)))
  }

  function OpenAt(r: Role, w: Link, p: Packet): (Option<Packet>, Link) {
    var e := w.Get(r);
    var (inner, payload) := Open(e.inner, p);
    (payload, w.Put(r, e.(inner := inner)))
  }

  /** The devices of one end. Routing is off, so applying it succeeds and does nothing. */
  function Adapters(r: Role, format: Format, mtu: nat): Device<Link> {
    Device(
      true,
      (w: Link) => (true, w.Put(r, w.Get(r).(inner := FreshSession(format)))),
      (w: Link) => w.Get(r).inner.ready,
      (w: Link) => (MtuOk(mtu), w.Put(r, w.Get(r).(isOpen := MtuOk(mtu)))),
      (w: Link) => (true, w.Put(r, w.Get(r).(connected := true))),
      (w: Link) => (w.Get(r).connected, w),
      (w: Link) => (w.Get(r).connected, w),
      (w: Link) => (true, w),
      (w: Link) => w,
      (w: Link) => w.Put(r, w.Get(r).(connected := false)),
      (w: Link) => w.Put(r, w.Get(r).(isOpen := false, slot := [])),
      (w: Link) => w,
      (w: Link) => w,
      (w: Link) => ReadSlot(r, w),
      (w: Link, p: Packet) => WriteSlot(r, w, p),
      (w: Link, p: Packet) => Push(r, w, p),
      (w: Link) => Pop(r, w),
      (w: Link, p: Packet) => SealAt(r, w, p),
      (w: Link, p: Packet) => OpenAt(r, w, p))
  }

  // ---------------------------------------------------------------- one relay over the link

  /** The frame a faithful format prints. */
  function Frame(format: Format, number: u64, p: Packet): Packet {
    var f := format.encode(number, p);
    if f.Some? then f.value else []
  }

  /** Everything of a node but its trace. */
  ghost predicate Is(n: Node<Link>, m: Node<Link>) { n.(trace := []) == m.(trace := []) }

  predicate Running(n: Node<Link>) {
    && n.Up() && n.hasInner
    && n.world.Get(n.role).isOpen && n.world.Get(n.role).connected && n.world.Get(n.role).inner.ready
  }

  predicate GoodPacket(p: Packet) { 1 <= |p| <= MAX_PAYLOAD }

  /** An end whose slot holds a packet sends it, sealed under the next number. */
  lemma OutboundSends(format: Format, mtu: nat, n: Node<Link>)
    requires Running(n) && n.world.Get(n.role).inner.format == format && format.Faithful()
    requires GoodPacket(n.world.Get(n.role).slot) && n.world.Get(n.role).inner.sent + 1 < TWO_64
    ensures var e, p := n.world.Get(n.role), n.world.Get(n.role).slot;
            var number := e.inner.sent + 1;
            var frame := format.encode(number, p);
            var w := n.world.Put(n.role, e.(slot := [], inner := e.inner.(sent := number)));
            var (m, ok) := Outbound(Adapters(n.role, format, mtu), n);
            && ok && frame.Some?
            && Is(m, n.(world := w.SetInbox(Peer(n.role), w.Inbox(Peer(n.role)) + [frame.value]),
                        stats := n.stats.(outPackets := n.stats.outPackets + 1, outBytes := n.stats.outBytes + |p|)))
  {
    var e, p := n.world.Get(n.role), n.world.Get(n.role).slot;
    var number := e.inner.sent + 1;
    assert format.encode(number, p).Some? && |format.encode(number, p).value| > 0;
  }

  /** An end whose slot is empty sends nothing. */
  lemma OutboundIdle(format: Format, mtu: nat, n: Node<Link>)
    requires Running(n) && n.world.Get(n.role).slot == []
    ensures var (m, ok) := Outbound(Adapters(n.role, format, mtu), n); ok && Is(m, n)
  {
  }

  /** The head of the inbox is acceptable: a turn of the inbound loop opens it into the slot. */
  lemma TurnTakes(format: Format, mtu: nat, n: Node<Link>, number: u64, p: Packet)
    requires Running(n) && n.world.Get(n.role).inner.format == format && format.Faithful()
    requires GoodPacket(p) && n.world.Get(n.role).inner.mark < number
    requires n.world.Inbox(n.role) != [] && n.world.Inbox(n.role)[0] == Frame(format, number, p)
    ensures var e, q := n.world.Get(n.role), n.world.Inbox(n.role)[1..];
            var w := n.world.SetInbox(n.role, q).Put(n.role, e.(slot := p, inner := e.inner.(mark := number)));
            var t := InboundTurn(Adapters(n.role, format, mtu), n);
            && t.forwarded
            && Is(t.node, n.(world := w, stats := n.stats.(inPackets := n.stats.inPackets + 1,
                                                           inBytes := n.stats.inBytes + |p|)))
  {
    var frame := format.encode(number, p);
    assert format.decode(frame.value) == Some(Opened(number, p)) && |frame.value| > 0;
  }

  /** One acceptable frame waiting: whatever the batch size, it is opened and lands in the slot. */
  lemma InboundTakes(format: Format, mtu: nat, n: Node<Link>, number: u64, p: Packet, max: nat)
    requires Running(n) && n.world.Get(n.role).inner.format == format && format.Faithful()
    requires GoodPacket(p) && n.world.Get(n.role).inner.mark < number && max > 0
    requires n.world.Inbox(n.role) == [Frame(format, number, p)]
    ensures var e := n.world.Get(n.role);
            var w := n.world.SetInbox(n.role, []).Put(n.role, e.(slot := p, inner := e.inner.(mark := number)));
            Is(Inbound(Adapters(n.role, format, mtu), n, max).0,
               n.(world := w, stats := n.stats.(inPackets := n.stats.inPackets + 1, inBytes := n.stats.inBytes + |p|)))
  {
    TurnTakes(format, mtu, n, number, p);
    assert n.world.Inbox(n.role)[1..] == [];
    if max > 1 {
      InboundNone(format, mtu, InboundTurn(Adapters(n.role, format, mtu), n).node, max - 1);
    }
  }

  lemma InboundNone(format: Format, mtu: nat, n: Node<Link>, max: nat)
    requires n.world.Get(n.role).connected && n.world.Inbox(n.role) == [] && max > 0
    ensures Is(InboundLoop(Adapters(n.role, format, mtu), n, max).0, n)
  {
  }

  // ---------------------------------------------------------------- two engines in lockstep

  /** Both engines; the state of the link is that of the end that moved last, the server. */
  datatype Pair = Pair(client: Node<Link>, server: Node<Link>, ok: bool)

  /** One round: a packet is injected at the client, then the client relays, then the server. */
  function Round(format: Format, mtu: nat, s: Pair, p: Packet, batches: (nat, nat)): Pair {
    var w := s.server.world;
    var injected := w.(client := w.client.(slot := p));
    var (c, ok1) := RelayBatch(Adapters(Client, format, mtu), s.client.(world := injected), batches.0);
    var (v, ok2) := RelayBatch(Adapters(Server, format, mtu), s.server.(world := c.world), batches.1);
    Pair(c, v, s.ok && ok1 && ok2)
  }

  type Rounder = (Pair, Packet, (nat, nat)) -> Pair

  function Rounds(round: Rounder, s: Pair, ps: seq<Packet>, batches: seq<(nat, nat)>): Pair
    requires |ps| == |batches|
    decreases |ps|
  {
    if ps == [] then s
    else
      var n := |ps| - 1;
      round(Rounds(round, s, ps[..n], batches[..n]), ps[n], batches[n])
  }

  /** A link nobody has used, and both engines started on it: the server first. */
  function NewLink(format: Format): Link {
    var e := End(false, [], false, FreshSession(format));
    Link(e, e, [], [])
  }

  function Started(format: Format, mtu: nat): Pair {
    var (v, ok1) := Start(Adapters(Server, format, mtu), Fresh(Server, false, NewLink(format)));
    var (c, ok2) := Start(Adapters(Client, format, mtu), Fresh(Client, false, v.world));
    Pair(c, v.(world := c.world), ok1 && ok2)
  }

  function Lag(n: nat, k: nat): nat { if n < k then 0 else n - k }

  ghost predicate NoErrors(s: Stats) { s.sealErrors == 0 && s.openErrors == 0 && s.transportErrors == 0 }

  /** The pair after the rounds of `ps`. */
  ghost predicate After(format: Format, s: Pair, ps: seq<Packet>) {
    var n := |ps|;
    var c, v, w := s.client, s.server, s.server.world;
    && s.ok && n < TWO_64
    && c.role == Client && c.hasInner && c.session.state == Established
    && v.role == Server && v.hasInner && v.session.state == (if n == 0 then Handshaking else Established)
    && NoErrors(c.stats) && NoErrors(v.stats)
    && c.stats.outPackets == n && c.stats.inPackets == Lag(n, 2)
    && v.stats.inPackets == n && v.stats.outPackets == Lag(n, 1)
    && w.client.isOpen && w.client.connected && w.server.isOpen && w.server.connected
    && w.client.inner == Inner(format, true, n, Lag(n, 2))
    && w.server.inner == Inner(format, true, Lag(n, 1), n)
    && w.server.slot == (if n == 0 then [] else ps[n - 1])
    && w.toServer == []
    && w.toClient == (if n < 2 then [] else [Frame(format, n - 1, ps[n - 2])])
  }

  ghost predicate GoodPackets(ps: seq<Packet>) {
    |ps| < TWO_64 && forall i :: 0 <= i < |ps| ==> GoodPacket(ps[i])
  }

  lemma StartedAfter(format: Format, mtu: nat)
    requires MtuOk(mtu)
    ensures After(format, Started(format, mtu), [])
  {
    var d := Adapters(Server, format, mtu);
    var (v, ok1) := Start(d, Fresh(Server, false, NewLink(format)));
    var e := End(true, [], true, FreshSession(format));
    assert ok1 && v.world == NewLink(format).(server := e);
    assert v.session.state == Handshaking && v.hasInner && v.stats == ZERO;
    ClientStarts(format, mtu, v.world);
  }

  lemma ClientStarts(format: Format, mtu: nat, w: Link)
    requires MtuOk(mtu)
    ensures var (c, ok) := Start(Adapters(Client, format, mtu), Fresh(Client, false, w));
            && ok && c.session.state == Established && c.hasInner && c.stats == ZERO && c.role == Client
            && c.world == w.(client := w.client.(isOpen := true, connected := true, inner := FreshSession(format)))
  {
  }

  /** The client's half of a round: it sends the injected packet and takes what the server sent last time. */
  lemma ClientHalf(format: Format, mtu: nat, s: Pair, ps: seq<Packet>, p: Packet, batch: nat)
    requires format.Faithful() && After(format, s, ps) && GoodPackets(ps + [p])
    ensures var w := s.server.world;
            var (c, ok) := RelayBatch(Adapters(Client, format, mtu),
                                      s.client.(world := w.(client := w.client.(slot := p))), batch);
            var n := |ps|;
            && ok && c.role == Client && c.hasInner && c.session.state == Established && NoErrors(c.stats)
            && c.stats.outPackets == n + 1 && c.stats.inPackets == Lag(n + 1, 2)
            && c.world.server == w.server
            && c.world.client.isOpen && c.world.client.connected
            && c.world.client.inner == Inner(format, true, n + 1, Lag(n + 1, 2))
            && c.world.toServer == [Frame(format, n + 1, p)]
            && c.world.toClient == []
  {
    var m := ClientSends(format, mtu, s, ps, p);
    var n := |ps|;
    if n >= 2 {
      assert (ps + [p])[n - 2] == ps[n - 2];
    }
    ClientTakes(format, mtu, m, ps, if batch > 0 then batch else 1);
  }

  lemma ClientSends(format: Format, mtu: nat, s: Pair, ps: seq<Packet>, p: Packet) returns (m: Node<Link>)
    requires format.Faithful() && After(format, s, ps) && GoodPackets(ps + [p])
    ensures var w := s.server.world;
            var n := |ps|;
            && Outbound(Adapters(Client, format, mtu),
                        Counted(s.client.(world := w.(client := w.client.(slot := p))))) == (m, true)
            && m.role == Client && Running(m) && NoErrors(m.stats)
            && m.stats.outPackets == n + 1 && m.stats.inPackets == Lag(n, 2)
            && m.world.server == w.server
            && m.world.client.inner == Inner(format, true, n + 1, Lag(n, 2))
            && m.world.toServer == [Frame(format, n + 1, p)] && m.world.toClient == w.toClient
  {
    var n := |ps|;
    assert (ps + [p])[n] == p;
    var w := s.server.world;
    var c0 := Counted(s.client.(world := w.(client := w.client.(slot := p))));
    OutboundSends(format, mtu, c0);
    m := Outbound(Adapters(Client, format, mtu), c0).0;
  }

  lemma ClientTakes(format: Format, mtu: nat, c: Node<Link>, ps: seq<Packet>, max: nat)
    requires format.Faithful() && max > 0 && c.role == Client && Running(c) && |ps| + 1 < TWO_64
    requires var n := |ps|; var w := c.world;
             && w.client.inner == Inner(format, true, n + 1, Lag(n, 2))
             && (n >= 2 ==> GoodPacket(ps[n - 2]))
             && w.toClient == (if n < 2 then [] else [Frame(format, n - 1, ps[n - 2])])
    ensures var m := Inbound(Adapters(Client, format, mtu), c, max).0;
            var n := |ps|;
            && m.role == Client && m.hasInner && m.session == c.session
            && m.stats == c.stats.(inPackets := c.stats.inPackets + (if n < 2 then 0 else 1),
                                   inBytes := m.stats.inBytes)
            && m.world.server == c.world.server && m.world.toServer == c.world.toServer && m.world.toClient == []
            && m.world.client == c.world.client.(slot := m.world.client.slot,
                                                 inner := Inner(format, true, n + 1, Lag(n + 1, 2)))
  {
    var n := |ps|;
    if n < 2 {
      InboundNone(format, mtu, c, max);
    } else {
      InboundTakes(format, mtu, c, n - 1, ps[n - 2], max);
    }
  }

  /** The server's half: it sends what it wrote last time and takes the client's packet. */
  lemma ServerHalf(format: Format, mtu: nat, v: Node<Link>, ps: seq<Packet>, p: Packet, batch: nat)
    requires format.Faithful() && GoodPackets(ps + [p])
    requires v.role == Server && v.hasInner && v.Up() && NoErrors(v.stats)
    requires var n := |ps|; var w := v.world;
             && v.stats.inPackets == n && v.stats.outPackets == Lag(n, 1)
             && w.server.isOpen && w.server.connected
             && w.server.inner == Inner(format, true, Lag(n, 1), n)
             && w.server.slot == (if n == 0 then [] else ps[n - 1])
             && w.toServer == [Frame(format, n + 1, p)] && w.toClient == []
    ensures var (m, ok) := Exchange(Adapters(Server, format, mtu), v, batch);
            var n := |ps|;
            && ok && m.role == Server && m.hasInner && m.session.state == Established && NoErrors(m.stats)
            && m.stats.inPackets == n + 1 && m.stats.outPackets == n
            && m.world.client == v.world.client
            && m.world.server.isOpen && m.world.server.connected
            && m.world.server.inner == Inner(format, true, n, n + 1)
            && m.world.server.slot == p
            && m.world.toServer == []
            && m.world.toClient == (if n == 0 then [] else [Frame(format, n, ps[n - 1])])
  {
    var n := |ps|;
    assert (ps + [p])[n] == p;
    var d := Adapters(Server, format, mtu);
    var v0 := Counted(v);
    if n == 0 {
      OutboundIdle(format, mtu, v0);
    } else {
      assert (ps + [p])[n - 1] == ps[n - 1];
      OutboundSends(format, mtu, v0);
    }
    InboundTakes(format, mtu, Outbound(d, v0).0, n + 1, p, if batch > 0 then batch else 1);
  }

  lemma RoundAfter(format: Format, mtu: nat, s: Pair, ps: seq<Packet>, p: Packet, batches: (nat, nat))
    requires format.Faithful() && After(format, s, ps) && GoodPackets(ps + [p])
    ensures After(format, Round(format, mtu, s, p, batches), ps + [p])
  {
    ClientHalf(format, mtu, s, ps, p, batches.0);
    var w := s.server.world;
    var (c, ok1) := RelayBatch(Adapters(Client, format, mtu), s.client.(world := w.(client := w.client.(slot := p))),
                               batches.0);
    var d := Adapters(Server, format, mtu);
    var v := s.server.(world := c.world);
    if !v.Up() {
      var v1 := EnsureReady(d, v).0;
      assert v1.Up() && v1.world == v.world && v1.stats == v.stats && v1.role == Server && v1.hasInner;
      ServerHalf(format, mtu, v1, ps, p, batches.1);
    } else {
      ServerHalf(format, mtu, v, ps, p, batches.1);
    }
  }

  /** A round takes the pair from `ps` to one packet more. */
  ghost predicate Advances(format: Format, round: Rounder) {
    forall s: Pair, ps: seq<Packet>, p: Packet, batches: (nat, nat)
        {:trigger round(s, p, batches), After(format, s, ps)} ::
      After(format, s, ps) && GoodPackets(ps + [p]) ==> After(format, round(s, p, batches), ps + [p])
  }

  lemma {:induction false} RoundsAfter(format: Format, round: Rounder, s: Pair, ps: seq<Packet>,
                                       batches: seq<(nat, nat)>)
    requires Advances(format, round) && After(format, s, []) && GoodPackets(ps) && |ps| == |batches|
    ensures After(format, Rounds(round, s, ps, batches), ps)
    decreases |ps|
  {
    if ps != [] {
      var n := |ps| - 1;
      RoundsAfter(format, round, s, ps[..n], batches[..n]);
      assert ps[..n] + [ps[n]] == ps;
    }
  }

  /** Both engines started on a new link, then one round for each packet. */
  function Played(format: Format, mtu: nat, ps: seq<Packet>, batches: seq<(nat, nat)>): Pair
    requires |ps| == |batches|
  {
    Rounds((s: Pair, p: Packet, b: (nat, nat)) => Round(format, mtu, s, p, b), Started(format, mtu), ps, batches)
  }

  /** From a new link, after any number of rounds below 2^64 with any packets of 1 to 2048 bytes and any
      batch sizes: every relay succeeded without error, the client sent all packets and the server received
      all of them, the server sent back all but the last and the client received all but the last two, and
      the last packet is in the server's slot. */
  lemma Lockstep(format: Format, mtu: nat, ps: seq<Packet>, batches: seq<(nat, nat)>)
    requires format.Faithful() && MtuOk(mtu) && GoodPackets(ps) && |ps| == |batches|
    ensures var s := Played(format, mtu, ps, batches);
            var n := |ps|;
            && s.ok
            && s.client.stats.outPackets == n && s.server.stats.inPackets == n
            && s.server.stats.outPackets == (if n == 0 then 0 else n - 1)
            && s.client.stats.inPackets == (if n < 2 then 0 else n - 2)
            && NoErrors(s.client.stats) && NoErrors(s.server.stats)
            && (n > 0 ==> s.server.world.server.slot == ps[n - 1])
  {
    var round := (s: Pair, p: Packet, b: (nat, nat)) => Round(format, mtu, s, p, b);
    assert Advances(format, round) by {
      forall s: Pair, ps: seq<Packet>, p: Packet, batches: (nat, nat) | After(format, s, ps) && GoodPackets(ps + [p])
        ensures After(format, round(s, p, batches), ps + [p])
      {
        RoundAfter(format, mtu, s, ps, p, batches);
      }
    }
    StartedAfter(format, mtu);
    RoundsAfter(format, round, Started(format, mtu), ps, batches);
  }
}
