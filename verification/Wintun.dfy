/** `WintunVirtualInterface`: when it applies and clears client routes, alone and under a tunnel engine. */
module Wintun {
  import opened Bytes
  import opened InnerFrame
  import opened Ipv4
  import opened NetConfig
  import opened RouteRestoration
  import opened SmartRoutes
  import opened Engine

  datatype Mode = NoRouting | Global | Smart

  /** The routing part of the configuration. */
  datatype Policy = Policy(mode: Mode, enableGlobal: bool, endpoint: string, gateway: string)

  /** What the surroundings answer during one call. `resolved` and `dns` are name resolution, `listed` the listing of
      the forwarding table, `os` and `stuck` the system's answers to creations and the deletions it refuses, and
      `patience` is how many list entries a pass handles before it notices a stop request. */
  datatype Env = Env(
    ok: bool, luid: u64, resolved: Option<u32>, listed: Option<seq<Entry>>, os: Answers, stuck: set<Row>,
    domainFile: ListFile, cidrFile: ListFile, dns: string -> seq<u32>, patience: nat,
    packet: Packet, frame: Option<Packet>)

  /** The interface's own state: the host it configures, `client_routes_applied_`, whether the adapter is open,
      whether the refresh worker runs, and the options and lists of the smart route manager. */
  datatype Iface = Iface(host: Host, flag: bool, isOpen: bool, worker: bool, options: Options, lists: Lists)

  /** `clear_client_routes` of the interface. */
  function ClearRoutes(inet: Inet, i: Iface, stuck: set<Row>): Iface {
    var stopped := i.(worker := false);
    if !i.flag then stopped else stopped.(host := Clear(inet, i.host, stuck), flag := false)
  }

  /** No client routing is configured: the only possibility for a server, whose configuration is refused
      otherwise. */
  predicate Off(p: Policy) { p.mode == NoRouting && !p.enableGlobal }

  /** The global default route is asked for, by either of its two settings. */
  predicate GlobalMode(p: Policy) { p.mode == Global || p.enableGlobal }

  function ApplyPolicy(inet: Inet, p: Policy, e: Env, i: Iface): (Iface, bool) {
    if Off(p) then (i, true)
    else if !i.isOpen || e.luid == 0 then (i, false)
    else
      var (h, bypassed) := ApplyBypass(inet, e.os, i.host, p.endpoint, e.luid, e.resolved, e.listed);
      if !bypassed then (i.(host := h), false)
      else if GlobalMode(p) then
        var (h', routed) := ApplyDefault(inet, e.os, h, e.luid, p.gateway);
        if routed then (i.(host := h', flag := true), true) else (i.(host := Clear(inet, h', e.stuck)), false)
      else StartSmart(inet, p, e, i.(host := h))
  }

  /** The smart half, on an interface whose bypass is applied. */
  function StartSmart(inet: Inet, p: Policy, e: Env, i: Iface): (Iface, bool) {
    var o := Options(e.luid, p.gateway);
    var (lists, ok) := LoadBoth(i.lists, e.domainFile, e.cidrFile);
    var j := i.(options := o, lists := lists, worker := ok);
    if !ok then (j.(host := Clear(inet, i.host, e.stuck)), false)
    else (j.(host := ApplyAll(inet, e.os, i.host, o, ListTargets(inet, e.dns, lists)), flag := true), true)
  }

  class WintunVirtualInterface {
    const net: WindowsNetConfigurator
    const smart: SmartRouteManager
    var clientRoutesApplied: bool
    var isOpen: bool

    constructor (net: WindowsNetConfigurator)
      ensures this.net == net && !clientRoutesApplied && !isOpen && fresh(smart) && Valid()
    {
      this.net := net;
      smart := new SmartRouteManager(net);
      clientRoutesApplied, isOpen := false, false;
    }

    predicate Valid()
      reads this
    {
      && smart.net == net && this as object != smart && this as object != net && this as object != net.system
      && smart as object != net && smart as object != net.system
    }

    ghost function View(): Iface
      reads this, smart, net, net.system
    {
      Iface(net.View(), clientRoutesApplied, isOpen, smart.workerRunning, smart.options, smart.Held())
    }

    method ClearClientRoutes(stuck: set<Row>)
      requires Valid()
      modifies this, smart, net, net.system
      ensures Valid() && View() == ClearRoutes(net.inet, old(View()), stuck)
    {
      smart.Stop();
      if !clientRoutesApplied {
        return;
      }
      net.ClearClientRoutes(stuck);
      clientRoutesApplied := false;
    }

    method ApplyClientRouting(p: Policy, e: Env) returns (ok: bool)
      requires Valid()
      modifies this, smart, net, net.system
      ensures Valid() && (View(), ok) == ApplyPolicy(net.inet, p, e, old(View()))
    {
      if p.mode == NoRouting && !p.enableGlobal {
        return true;
      }
      if !isOpen {
        return false;
      }
      if e.luid == 0 {
        return false;
      }
      ok := net.ApplyEndpointBypassRoute(e.os, p.endpoint, e.luid, e.resolved, e.listed);
      if !ok {
        return;
      }
      if p.mode == Global || p.enableGlobal {
        ok := net.ApplyGlobalDefaultRoute(e.os, e.luid, p.gateway);
        if !ok {
          net.ClearClientRoutes(e.stuck);
          return;
        }
      } else if p.mode == Smart {
        ok := smart.Start(Options(e.luid, p.gateway), e.domainFile, e.cidrFile, e.os, e.dns);
        if !ok {
          net.ClearClientRoutes(e.stuck);
          return;
        }
      }
      clientRoutesApplied := true;
      ok := true;
    }
  }

  // ---------------------------------------------------------------- the account

  /** The host is accounted for, and only refused deletions have stranded rows. Without the flag nothing is recorded
      and no worker runs; with it the bypass of an endpoint that is not local is recorded. */
  ghost predicate Live(inet: Inet, p: Policy, i: Iface, initial: set<Row>, refused: iset<Row>) {
    && Accounted(inet, i.host, initial)
    && (forall r :: r in i.host.stranded ==> r in refused)
    && (!i.flag ==> RecordsNothing(i.host.net) && !i.worker)
    && (i.flag && !Loopback(p.endpoint) ==> BypassRows(inet, i.host.net) != {})
  }

  ghost predicate Idle(inet: Inet, p: Policy, i: Iface, initial: set<Row>, refused: iset<Row>) {
    Live(inet, p, i, initial, refused) && !i.flag
  }

  lemma {:induction false} ApplyAllAccounted(inet: Inet, os: Answers, h: Host, o: Options, targets: seq<Target>,
                                             initial: set<Row>)
    requires Accounted(inet, h, initial)
    ensures var h' := ApplyAll(inet, os, h, o, targets);
            && Accounted(inet, h', initial) && h'.stranded <= h.stranded
            && BypassRows(inet, h'.net) == BypassRows(inet, h.net)
    decreases |targets|
  {
    if targets != [] {
      var n := |targets| - 1;
      ApplyAllAccounted(inet, os, h, o, targets[..n], initial);
      PrefixAccounted(inet, os, ApplyAll(inet, os, h, o, targets[..n]), initial, o.luid, targets[n].0, targets[n].1,
                      o.gateway);
    }
  }

  lemma ClearMakesIdle(inet: Inet, p: Policy, i: Iface, initial: set<Row>, refused: iset<Row>, stuck: set<Row>)
    requires Live(inet, p, i, initial, refused) && forall r :: r in stuck ==> r in refused
    ensures Idle(inet, p, ClearRoutes(inet, i, stuck), initial, refused)
  {
    ClearRestores(inet, i.host, initial, stuck);
  }

  /** One application to a host that records neither route keeps the account and strands nothing. */
  lemma StepTidy(inet: Inet, h: Host, initial: set<Row>, op: RouteOp)
    requires inet.Lawful() && Accounted(inet, h, initial) && !op.ClearAll?
    requires (op.Bypass? ==> !h.net.bypassApplied) && (op.Default? ==> !h.net.defaultApplied)
    ensures var h' := StepRoutes(inet, h, op); Accounted(inet, h', initial) && h'.stranded <= h.stranded
  {
    StepAccounted(inet, h, initial, op);
    StepStrands(inet, h, initial, op);
    assert Refused([op]) == {};
  }

  /** What a rollback leaves. */
  lemma RollbackTidy(inet: Inet, h: Host, initial: set<Row>, refused: iset<Row>, stuck: set<Row>)
    requires Accounted(inet, h, initial)
    requires (forall r :: r in stuck ==> r in refused) && (forall r :: r in h.stranded ==> r in refused)
    ensures var h' := Clear(inet, h, stuck);
            Accounted(inet, h', initial) && RecordsNothing(h'.net) && forall r :: r in h'.stranded ==> r in refused
  {
    ClearRestores(inet, h, initial, stuck);
  }

  lemma PolicyMakesLive(inet: Inet, p: Policy, e: Env, i: Iface, initial: set<Row>, refused: iset<Row>)
    requires inet.Lawful() && Idle(inet, p, i, initial, refused) && forall r :: r in e.stuck ==> r in refused
    ensures Live(inet, p, ApplyPolicy(inet, p, e, i).0, initial, refused)
    ensures !ApplyPolicy(inet, p, e, i).1 ==> Idle(inet, p, ApplyPolicy(inet, p, e, i).0, initial, refused)
  {
    if !Off(p) && i.isOpen && e.luid != 0 {
      var (h, bypassed) := ApplyBypass(inet, e.os, i.host, p.endpoint, e.luid, e.resolved, e.listed);
      StepTidy(inet, i.host, initial, Bypass(p.endpoint, e.luid, e.resolved, e.listed, e.os));
      if bypassed {
        BypassedNet(inet, p, e, i.host);
        if GlobalMode(p) {
          StepTidy(inet, h, initial, Default(e.luid, p.gateway, e.os));
          RollbackTidy(inet, ApplyDefault(inet, e.os, h, e.luid, p.gateway).0, initial, refused, e.stuck);
        } else {
          var (lists, loaded) := LoadBoth(i.lists, e.domainFile, e.cidrFile);
          ApplyAllAccounted(inet, e.os, h, Options(e.luid, p.gateway), ListTargets(inet, e.dns, lists), initial);
          RollbackTidy(inet, h, initial, refused, e.stuck);
        }
      }
    }
  }

  lemma BypassedNet(inet: Inet, p: Policy, e: Env, h: Host)
    requires inet.Lawful() && ApplyBypass(inet, e.os, h, p.endpoint, e.luid, e.resolved, e.listed).1
    ensures var h' := ApplyBypass(inet, e.os, h, p.endpoint, e.luid, e.resolved, e.listed).0;
            && h'.net.defaultApplied == h.net.defaultApplied
            && (!Loopback(p.endpoint) ==> BypassRows(inet, h'.net) != {})
  {
    if !Loopback(p.endpoint) {
      BypassRecord(inet, e.os, h, p.endpoint, e.luid, e.resolved, e.listed);
    }
  }

  // ---------------------------------------------------------------- which routes a policy installs

  /** The bypass row of the endpoint, if it needs and can have one. */
  function NewBypass(p: Policy, e: Env): set<Row> {
    if Loopback(p.endpoint) || e.resolved.None? || e.listed.None? || Best(e.listed.value, e.luid).None? then {}
    else {BypassRow(e.resolved.value, Best(e.listed.value, e.luid).value)}
  }

  /** The tunnel row that the policy asks for matches `x` with prefix length `q`: in global mode the default route
      does, in smart mode the entries and resolved domains of the lists. */
  ghost predicate Asked(inet: Inet, p: Policy, o: Options, sweep: Sweep, x: u32, q: int) {
    if GlobalMode(p) then q == 0 else SentAt(inet, sweep.os, o, sweep.dns, sweep.lists, x, q)
  }

  /** One pass over the lists: the answers it got and the part of the lists it saw. */
  datatype Sweep = Sweep(os: Answers, dns: string -> seq<u32>, lists: Lists)

  /** The first pass of a start. */
  function FirstSweep(e: Env, i: Iface): Sweep {
    Sweep(e.os, e.dns, LoadBoth(i.lists, e.domainFile, e.cidrFile).0)
  }

  /** Applying a policy succeeds exactly when routing is off, or the adapter is open, the endpoint can be bypassed,
      and the default route is taken or the lists can be used. */
  lemma PolicyAnswer(inet: Inet, p: Policy, e: Env, i: Iface)
    ensures ApplyPolicy(inet, p, e, i).1
            <==> || Off(p)
                 || (&& i.isOpen && e.luid != 0
                     && (Loopback(p.endpoint) || exists r :: r in NewBypass(p, e) && e.os(r))
                     && if GlobalMode(p)
                        then inet.parse(p.gateway).Some? && e.os(Row(e.luid, 0, 0, inet.parse(p.gateway).value))
                        else LoadBoth(i.lists, e.domainFile, e.cidrFile).1)
  {
    BypassAnswer(inet, e.os, i.host, p.endpoint, e.luid, e.resolved, e.listed);
    if !Loopback(p.endpoint) && e.resolved.Some? && e.listed.Some? && Best(e.listed.value, e.luid).Some? {
      assert BypassRow(e.resolved.value, Best(e.listed.value, e.luid).value) in NewBypass(p, e);
    }
  }

  /** What is left with the smart route manager: its options and lists change exactly when it is started. */
  lemma PolicyLists(inet: Inet, p: Policy, e: Env, i: Iface)
    ensures var j := ApplyPolicy(inet, p, e, i).0;
            var started := && !Off(p) && !GlobalMode(p) && i.isOpen && e.luid != 0
                           && ApplyBypass(inet, e.os, i.host, p.endpoint, e.luid, e.resolved, e.listed).1;
            && j.options == (if started then Options(e.luid, p.gateway) else i.options)
            && j.lists == (if started then LoadBoth(i.lists, e.domainFile, e.cidrFile).0 else i.lists)
            && j.worker == (if started then LoadBoth(i.lists, e.domainFile, e.cidrFile).1 else i.worker)
            && j.isOpen == i.isOpen
  {
  }

  lemma BypassTable(inet: Inet, p: Policy, e: Env, h: Host)
    requires inet.Lawful() && ApplyBypass(inet, e.os, h, p.endpoint, e.luid, e.resolved, e.listed).1
    requires Recorded(inet, h.net) <= h.table
    ensures var h' := ApplyBypass(inet, e.os, h, p.endpoint, e.luid, e.resolved, e.listed).0;
            && h'.table == h.table + NewBypass(p, e) && Recorded(inet, h'.net) <= h'.table
            && (forall r :: r in NewBypass(p, e) ==> r.luid != e.luid)
  {
    if !Loopback(p.endpoint) {
      BypassRecord(inet, e.os, h, p.endpoint, e.luid, e.resolved, e.listed);
      var k := BestIsFirstLeast(e.listed.value, e.luid);
    }
  }

  lemma DefaultCovers(inet: Inet, os: Answers, h: Host, luid: u64, gateway: string, x: u32, q: int)
    requires ApplyDefault(inet, os, h, luid, gateway).1
    ensures inet.parse(gateway).Some?
    ensures ApplyDefault(inet, os, h, luid, gateway).0.table == h.table + {Row(luid, 0, 0, inet.parse(gateway).value)}
    ensures Covers(h.table, ApplyDefault(inet, os, h, luid, gateway).0.table, luid, x, q, q == 0)
  {
    var row := Row(luid, 0, 0, inet.parse(gateway).value);
    MaskedZero(x);
    assert Matches(row, x);
    AddsRows(h.table, {row}, luid, x, q);
  }

  /** A successful application changes the table by the bypass row and by the tunnel rows that the policy asks for. */
  lemma PolicyCovers(inet: Inet, p: Policy, e: Env, i: Iface, x: u32, q: int)
    requires inet.Lawful() && !Off(p) && Recorded(inet, i.host.net) <= i.host.table && ApplyPolicy(inet, p, e, i).1
    ensures e.luid != 0 && i.isOpen && forall r :: r in NewBypass(p, e) ==> r.luid != e.luid
    ensures Covers(i.host.table + NewBypass(p, e), ApplyPolicy(inet, p, e, i).0.host.table, e.luid, x, q,
                   Asked(inet, p, Options(e.luid, p.gateway), FirstSweep(e, i), x, q))
    ensures GlobalMode(p) ==>
              && inet.parse(p.gateway).Some?
              && Row(e.luid, 0, 0, inet.parse(p.gateway).value) in ApplyPolicy(inet, p, e, i).0.host.table
  {
    var h := ApplyBypass(inet, e.os, i.host, p.endpoint, e.luid, e.resolved, e.listed).0;
    BypassTable(inet, p, e, i.host);
    if GlobalMode(p) {
      DefaultCovers(inet, e.os, h, e.luid, p.gateway, x, q);
    } else {
      ListsCover(inet, e.os, h, Options(e.luid, p.gateway), e.dns, LoadBoth(i.lists, e.domainFile, e.cidrFile).0, x, q);
    }
  }

  /** Where a successful application sends an address: a longest match for `x` is a tunnel row iff a tunnel row that
      the policy asks for, or one that was there, is at least as long as every matching row of another interface, the
      new bypass row included. */
  lemma PolicyRoutes(inet: Inet, p: Policy, e: Env, i: Iface, x: u32)
    requires inet.Lawful() && !Off(p) && Recorded(inet, i.host.net) <= i.host.table && ApplyPolicy(inet, p, e, i).1
    ensures ToTunnel(ApplyPolicy(inet, p, e, i).0.host.table, e.luid, x)
            <==> exists q ::
                   && (|| Asked(inet, p, Options(e.luid, p.gateway), FirstSweep(e, i), x, q)
                       || TunnelAt(i.host.table, e.luid, x, q))
                   && Unbeaten(i.host.table + NewBypass(p, e), e.luid, x, q)
  {
    var after := ApplyPolicy(inet, p, e, i).0.host.table;
    var asked := (q: int) => Asked(inet, p, Options(e.luid, p.gateway), FirstSweep(e, i), x, q);
    forall q ensures Covers(i.host.table + NewBypass(p, e), after, e.luid, x, q, asked(q)) {
      PolicyCovers(inet, p, e, i, x, q);
    }
    PolicyCovers(inet, p, e, i, x, 0);
    CoveredRoutes(i.host.table, NewBypass(p, e), after, e.luid, x, asked);
  }

  /** The general step: tunnel rows that were there or are asked for, against the rows of other interfaces. */
  lemma CoveredRoutes(base: set<Row>, bypass: set<Row>, after: set<Row>, luid: u64, x: u32, asked: int -> bool)
    requires forall q :: Covers(base + bypass, after, luid, x, q, asked(q))
    requires forall r :: r in bypass ==> r.luid != luid
    ensures ToTunnel(after, luid, x)
            <==> exists q :: (asked(q) || TunnelAt(base, luid, x, q)) && Unbeaten(base + bypass, luid, x, q)
  {
    ToTunnelIff(after, luid, x);
    forall q
      ensures TunnelAt(after, luid, x, q) <==> asked(q) || TunnelAt(base, luid, x, q)
      ensures Unbeaten(after, luid, x, q) <==> Unbeaten(base + bypass, luid, x, q)
    {
      assert Covers(base + bypass, after, luid, x, q, asked(q));
      SameTunnel(base, bypass, luid, x, q);
    }
  }

  lemma SameTunnel(base: set<Row>, bypass: set<Row>, luid: u64, x: u32, q: int)
    requires forall r :: r in bypass ==> r.luid != luid
    ensures TunnelAt(base + bypass, luid, x, q) <==> TunnelAt(base, luid, x, q)
  {
    if TunnelAt(base, luid, x, q) {
      var r :| r in base && r.luid == luid && r.prefix == q && Matches(r, x);
      assert r in base + bypass;
    }
  }

  /** In global mode over a table whose other matching rows are default routes, every address but the endpoint goes to
      the tunnel. */
  lemma GlobalTakesAll(inet: Inet, p: Policy, e: Env, i: Iface, x: u32)
    requires inet.Lawful() && GlobalMode(p) && Recorded(inet, i.host.net) <= i.host.table
             && ApplyPolicy(inet, p, e, i).1
    requires forall r :: r in i.host.table && r.luid != e.luid && Matches(r, x) ==> r.prefix == 0
    requires e.resolved != Some(x)
    ensures ToTunnel(ApplyPolicy(inet, p, e, i).0.host.table, e.luid, x)
  {
    PolicyRoutes(inet, p, e, i, x);
    assert Unbeaten(i.host.table + NewBypass(p, e), e.luid, x, 0) by {
      forall r | r in NewBypass(p, e) ensures !Matches(r, x) {
      }
    }
    assert Asked(inet, p, Options(e.luid, p.gateway), FirstSweep(e, i), x, 0);
  }
}
