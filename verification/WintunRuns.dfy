/** `WintunVirtualInterface` under a tunnel engine: what every run leaves in the forwarding table. */
module WintunRuns {
  import opened Bytes
  import opened NetConfig
  import opened RouteRestoration
  import opened TextLists
  import opened SmartRoutes
  import opened Wintun
  import opened SessionStates
  import opened Engine
  import opened EngineAnswers
  import opened EngineWorld

  /** History: the tunnel's LUID and the table when routes were last applied, and the passes over the lists since. */
  datatype Routes = Routes(luid: u64, base: set<Row>, sweeps: seq<Sweep>)

  /** The interface, the number of calls made so far, which stands for the rest of the devices, and the history. */
  datatype World = World(iface: Iface, calls: nat, last: Routes)

  function Advance(w: World, i: Iface): World { World(i, w.calls + 1, w.last) }

  function Applying(inet: Inet, p: Policy, e: Env, w: World): (bool, World) {
    var (i, ok) := ApplyPolicy(inet, p, e, w.iface);
    var sweeps := if GlobalMode(p) then [] else [FirstSweep(e, w.iface)];
    (ok, World(i, w.calls + 1, if ok then Routes(e.luid, w.iface.host.table, sweeps) else w.last))
  }

  /** What a pass of the worker sees. */
  function NextSweep(e: Env, i: Iface): Sweep { Sweep(e.os, e.dns, Noticed(i.lists, e.patience)) }

  /** The worker makes a pass over the lists, as far as it comes. */
  function Refreshing(inet: Inet, e: Env, w: World): World {
    if !w.iface.worker then Advance(w, w.iface)
    else
      var s := NextSweep(e, w.iface);
      var h := ApplyAll(inet, s.os, w.iface.host, w.iface.options, ListTargets(inet, s.dns, s.lists));
      World(w.iface.(host := h), w.calls + 1, w.last.(sweeps := w.last.sweeps + [s]))
  }

  /** The devices of an engine on this interface. All answers of the surroundings are read off `env`, one per
      call, so that every behaviour of them is some `env`. Opening the adapter closes it first, which clears the
      routes. */
  function Devices(inet: Inet, p: Policy, env: nat -> Env): Device<World> {
    Device(
      true,
      (w: World) => (env(w.calls).ok, Advance(w, w.iface)),
      (w: World) => env(w.calls).ok,
      (w: World) =>
        (env(w.calls).ok, Advance(w, ClearRoutes(inet, w.iface, env(w.calls).stuck).(isOpen := env(w.calls).ok))),
      (w: World) => (env(w.calls).ok, Advance(w, w.iface)),
      (w: World) => (env(w.calls).ok, Advance(w, w.iface)),
      (w: World) => (env(w.calls).ok, Advance(w, w.iface)),
      (w: World) => Applying(inet, p, env(w.calls), w),
      (w: World) => Advance(w, ClearRoutes(inet, w.iface, env(w.calls).stuck)),
      (w: World) => Advance(w, w.iface),
      (w: World) => Advance(w, ClearRoutes(inet, w.iface, env(w.calls).stuck).(isOpen := false)),
      (w: World) => Advance(w, w.iface),
      (w: World) => Refreshing(inet, env(w.calls), w),
      (w: World) => (env(w.calls).packet, Advance(w, w.iface)),
      (w: World, q: Packet) => (env(w.calls).ok, Advance(w, w.iface)),
      (w: World, q: Packet) => (env(w.calls).ok, Advance(w, w.iface)),
      (w: World) => (env(w.calls).frame, Advance(w, w.iface)),
      (w: World, q: Packet) => (env(w.calls).frame, Advance(w, w.iface)),
      (w: World, q: Packet) => (env(w.calls).frame, Advance(w, w.iface)))
  }

  // ---------------------------------------------------------------- the routes in place

  /** A tunnel row that the policy has asked for since the last application matches `x` with prefix length `q`. */
  ghost predicate Installed(inet: Inet, p: Policy, last: Routes, x: u32, q: int) {
    if GlobalMode(p) then q == 0
    else exists k :: 0 <= k < |last.sweeps| && Asked(inet, p, Options(last.luid, p.gateway), last.sweeps[k], x, q)
  }

  lemma InstalledSnoc(inet: Inet, p: Policy, last: Routes, s: Sweep, x: u32, q: int)
    requires !GlobalMode(p)
    ensures Installed(inet, p, last.(sweeps := last.sweeps + [s]), x, q)
            <==> Installed(inet, p, last, x, q) || Asked(inet, p, Options(last.luid, p.gateway), s, x, q)
  {
    var longer := last.sweeps + [s];
    if Installed(inet, p, last, x, q) {
      var k :| 0 <= k < |last.sweeps| && Asked(inet, p, Options(last.luid, p.gateway), last.sweeps[k], x, q);
      assert longer[k] == last.sweeps[k];
    }
    assert longer[|last.sweeps|] == s;
    if Installed(inet, p, last.(sweeps := longer), x, q) && !Asked(inet, p, Options(last.luid, p.gateway), s, x, q) {
      var k :| 0 <= k < |longer| && Asked(inet, p, Options(last.luid, p.gateway), longer[k], x, q);
      assert longer[k] == last.sweeps[k];
    }
  }

  /** While routes are applied, the table is what it was before, with the bypass row and the tunnel rows asked for. */
  ghost predicate Routed(inet: Inet, p: Policy, i: Iface, last: Routes) {
    i.flag ==>
      && last.luid != 0 && !Off(p)
      && (forall r :: r in BypassRows(inet, i.host.net) ==> r.luid != last.luid)
      && (forall x: u32, q: int :: InPlace(inet, p, i.host, last, x, q))
      && (GlobalMode(p) ==> !i.worker && HasDefault(inet, p, i.host, last))
      && (!GlobalMode(p) ==> i.worker && i.options == Options(last.luid, p.gateway) && Swept(i.lists, last.sweeps))
  }

  /** The first pass saw the whole lists, and each later one a part of them. */
  ghost predicate Swept(lists: Lists, sweeps: seq<Sweep>) {
    && sweeps != [] && sweeps[0].lists == lists
    && forall k :: 0 <= k < |sweeps| ==> PartOf(sweeps[k].lists, lists)
  }

  ghost predicate PartOf(part: Lists, lists: Lists) { exists patience: nat :: part == Noticed(lists, patience) }

  lemma WholeIsPart(lists: Lists)
    ensures PartOf(lists, lists)
  {
    assert Noticed(lists, |lists.cidrs| + |lists.domains|) == lists;
  }

  ghost predicate InPlace(inet: Inet, p: Policy, h: Host, last: Routes, x: u32, q: int) {
    Covers(last.base + BypassRows(inet, h.net), h.table, last.luid, x, q, Installed(inet, p, last, x, q))
  }

  predicate HasDefault(inet: Inet, p: Policy, h: Host, last: Routes) {
    inet.parse(p.gateway).Some? && Row(last.luid, 0, 0, inet.parse(p.gateway).value) in h.table
  }

  lemma ApplyingRoutes(inet: Inet, p: Policy, e: Env, w: World)
    requires inet.Lawful() && RecordsNothing(w.iface.host.net) && !w.iface.flag && !w.iface.worker
    ensures var w' := Applying(inet, p, e, w).1; Routed(inet, p, w'.iface, w'.last)
  {
    var w' := Applying(inet, p, e, w).1;
    if w'.iface.flag {
      assert ApplyPolicy(inet, p, e, w.iface).1 && !Off(p);
      NewBypassRecorded(inet, p, e, w.iface);
      PolicyCovers(inet, p, e, w.iface, 0, 0);
      WholeIsPart(w'.iface.lists);
      forall x: u32, q: int ensures InPlace(inet, p, w'.iface.host, w'.last, x, q) {
        PolicyCovers(inet, p, e, w.iface, x, q);
        if !GlobalMode(p) {
          assert w'.last.sweeps[0] == FirstSweep(e, w.iface);
        }
      }
    }
  }

  lemma NewBypassRecorded(inet: Inet, p: Policy, e: Env, i: Iface)
    requires inet.Lawful() && RecordsNothing(i.host.net) && !Off(p) && ApplyPolicy(inet, p, e, i).1
    ensures BypassRows(inet, ApplyPolicy(inet, p, e, i).0.host.net) == NewBypass(p, e)
  {
    var h := ApplyBypass(inet, e.os, i.host, p.endpoint, e.luid, e.resolved, e.listed).0;
    if !Loopback(p.endpoint) {
      BypassRecord(inet, e.os, i.host, p.endpoint, e.luid, e.resolved, e.listed);
    }
    if !GlobalMode(p) {
      var lists := LoadBoth(i.lists, e.domainFile, e.cidrFile).0;
      ApplyAllBypass(inet, e.os, h, Options(e.luid, p.gateway), ListTargets(inet, e.dns, lists));
    }
  }

  lemma {:induction false} ApplyAllBypass(inet: Inet, os: Answers, h: Host, o: Options, targets: seq<Target>)
    ensures BypassRows(inet, ApplyAll(inet, os, h, o, targets).net) == BypassRows(inet, h.net)
    decreases |targets|
  {
    if targets != [] {
      ApplyAllBypass(inet, os, h, o, targets[..|targets| - 1]);
    }
  }

  lemma RefreshingRoutes(inet: Inet, p: Policy, e: Env, w: World)
    requires inet.Lawful() && Routed(inet, p, w.iface, w.last) && Recorded(inet, w.iface.host.net) <= w.iface.host.table
    requires w.iface.worker ==> w.iface.flag
    ensures var w' := Refreshing(inet, e, w); Routed(inet, p, w'.iface, w'.last)
  {
    if w.iface.worker {
      var w', s := Refreshing(inet, e, w), NextSweep(e, w.iface);
      assert PartOf(s.lists, w.iface.lists);
      ApplyAllBypass(inet, s.os, w.iface.host, w.iface.options, ListTargets(inet, s.dns, s.lists));
      forall x: u32, q: int ensures InPlace(inet, p, w'.iface.host, w'.last, x, q) {
        assert InPlace(inet, p, w.iface.host, w.last, x, q);
        ListsCover(inet, s.os, w.iface.host, w.iface.options, s.dns, s.lists, x, q);
        InstalledSnoc(inet, p, w.last, s, x, q);
        CoversBoth(w.last.base + BypassRows(inet, w.iface.host.net), w.iface.host.table, w'.iface.host.table,
                   w.last.luid, x, q, Installed(inet, p, w.last, x, q),
                   Asked(inet, p, Options(w.last.luid, p.gateway), s, x, q));
      }
    }
  }

  // ---------------------------------------------------------------- what the devices keep

  /** The account of the host, the routes in place, and where the table they were applied to came from. */
  ghost predicate LiveWorld(inet: Inet, p: Policy, w: World, initial: set<Row>, refused: iset<Row>) {
    && Live(inet, p, w.iface, initial, refused)
    && Routed(inet, p, w.iface, w.last)
    && (w.iface.flag ==> forall r :: r in w.last.base ==> r in initial || r in refused)
  }

  ghost predicate IdleWorld(inet: Inet, p: Policy, w: World, initial: set<Row>, refused: iset<Row>) {
    LiveWorld(inet, p, w, initial, refused) && !w.iface.flag
  }

  lemma ClearKeeps(inet: Inet, p: Policy, w: World, initial: set<Row>, refused: iset<Row>, stuck: set<Row>,
                   isOpen: bool)
    requires LiveWorld(inet, p, w, initial, refused) && forall r :: r in stuck ==> r in refused
    ensures IdleWorld(inet, p, Advance(w, ClearRoutes(inet, w.iface, stuck)), initial, refused)
    ensures IdleWorld(inet, p, Advance(w, ClearRoutes(inet, w.iface, stuck).(isOpen := isOpen)), initial, refused)
  {
    ClearMakesIdle(inet, p, w.iface, initial, refused, stuck);
  }

  lemma ApplyingKeeps(inet: Inet, p: Policy, e: Env, w: World, initial: set<Row>, refused: iset<Row>)
    requires inet.Lawful() && IdleWorld(inet, p, w, initial, refused) && forall r :: r in e.stuck ==> r in refused
    ensures LiveWorld(inet, p, Applying(inet, p, e, w).1, initial, refused)
  {
    PolicyMakesLive(inet, p, e, w.iface, initial, refused);
    ApplyingRoutes(inet, p, e, w);
    assert Recorded(inet, w.iface.host.net) == {};
  }

  lemma RefreshingKeeps(inet: Inet, p: Policy, e: Env, w: World, initial: set<Row>, refused: iset<Row>)
    requires inet.Lawful() && LiveWorld(inet, p, w, initial, refused)
    ensures LiveWorld(inet, p, Refreshing(inet, e, w), initial, refused)
  {
    RefreshingRoutes(inet, p, e, w);
    if w.iface.worker {
      var s := NextSweep(e, w.iface);
      ApplyAllAccounted(inet, s.os, w.iface.host, w.iface.options, ListTargets(inet, s.dns, s.lists), initial);
    }
  }

  /** The rows whose deletion the surroundings refuse at one time or another. */
  ghost function EverStuck(env: nat -> Env): iset<Row> { iset r: Row, k: nat | r in env(k).stuck :: r }

  ghost predicate Describes(ph: Phases<World>, inet: Inet, p: Policy, initial: set<Row>, refused: iset<Row>) {
    && (forall w :: ph.bare(w))
    && (forall w :: ph.idle(w) == IdleWorld(inet, p, w, initial, refused))
    && (forall w :: ph.live(w) == LiveWorld(inet, p, w, initial, refused))
  }

  /** What the calls do to the description, without the definition of the devices. */
  ghost predicate Honours(ph: Phases<World>, inet: Inet, p: Policy, env: nat -> Env) {
    Rests(ph) && Clears(ph, inet, env) && Applies(ph, inet, p, env) && Refreshes(ph, inet, env)
  }

  ghost predicate Rests(ph: Phases<World>) {
    && (forall w {:trigger ph.idle(w)} :: ph.idle(w) ==> ph.live(w))
    && (forall w {:trigger ph.bare(w)} :: ph.bare(w))
    && (forall w {:trigger Advance(w, w.iface)} :: ph.live(w) ==> ph.live(Advance(w, w.iface)))
    && (forall w {:trigger Advance(w, w.iface)} :: ph.idle(w) ==> ph.idle(Advance(w, w.iface)))
  }

  ghost predicate Clears(ph: Phases<World>, inet: Inet, env: nat -> Env) {
    && (forall w {:trigger ClearRoutes(inet, w.iface, env(w.calls).stuck)} ::
          ph.live(w) ==> ph.idle(Advance(w, ClearRoutes(inet, w.iface, env(w.calls).stuck))))
    && (forall w, b {:trigger ClearRoutes(inet, w.iface, env(w.calls).stuck).(isOpen := b)} ::
          ph.live(w) ==> ph.idle(Advance(w, ClearRoutes(inet, w.iface, env(w.calls).stuck).(isOpen := b))))
  }

  ghost predicate Applies(ph: Phases<World>, inet: Inet, p: Policy, env: nat -> Env) {
    forall w {:trigger Applying(inet, p, env(w.calls), w)} ::
      ph.idle(w) ==> ph.live(Applying(inet, p, env(w.calls), w).1)
  }

  ghost predicate Refreshes(ph: Phases<World>, inet: Inet, env: nat -> Env) {
    forall w {:trigger Refreshing(inet, env(w.calls), w)} ::
      && (ph.live(w) ==> ph.live(Refreshing(inet, env(w.calls), w)))
      && (ph.idle(w) ==> ph.idle(Refreshing(inet, env(w.calls), w)))
  }

  lemma RestsHonoured(ph: Phases<World>, inet: Inet, p: Policy, initial: set<Row>, refused: iset<Row>)
    requires Describes(ph, inet, p, initial, refused)
    ensures Rests(ph)
  {
  }

  lemma ClearsHonoured(ph: Phases<World>, inet: Inet, p: Policy, env: nat -> Env, initial: set<Row>)
    requires Describes(ph, inet, p, initial, EverStuck(env))
    ensures Clears(ph, inet, env)
  {
    forall w, b | ph.live(w)
      ensures ph.idle(Advance(w, ClearRoutes(inet, w.iface, env(w.calls).stuck)))
      ensures ph.idle(Advance(w, ClearRoutes(inet, w.iface, env(w.calls).stuck).(isOpen := b)))
    {
      ClearKeeps(inet, p, w, initial, EverStuck(env), env(w.calls).stuck, b);
    }
    forall w | ph.live(w) ensures ph.idle(Advance(w, ClearRoutes(inet, w.iface, env(w.calls).stuck))) {
      ClearKeeps(inet, p, w, initial, EverStuck(env), env(w.calls).stuck, false);
    }
  }

  lemma AppliesHonoured(ph: Phases<World>, inet: Inet, p: Policy, env: nat -> Env, initial: set<Row>)
    requires inet.Lawful() && Describes(ph, inet, p, initial, EverStuck(env))
    ensures Applies(ph, inet, p, env)
  {
    forall w | ph.idle(w) ensures ph.live(Applying(inet, p, env(w.calls), w).1) {
      ApplyingKeeps(inet, p, env(w.calls), w, initial, EverStuck(env));
    }
  }

  lemma RefreshesHonoured(ph: Phases<World>, inet: Inet, p: Policy, env: nat -> Env, initial: set<Row>)
    requires inet.Lawful() && Describes(ph, inet, p, initial, EverStuck(env))
    ensures Refreshes(ph, inet, env)
  {
    forall w | ph.live(w)
      ensures ph.live(Refreshing(inet, env(w.calls), w))
      ensures ph.idle(w) ==> ph.idle(Refreshing(inet, env(w.calls), w))
    {
      RefreshingKeeps(inet, p, env(w.calls), w, initial, EverStuck(env));
      assert Refreshing(inet, env(w.calls), w).iface.flag == w.iface.flag;
    }
  }

  lemma DevicesMove(ph: Phases<World>, inet: Inet, p: Policy, env: nat -> Env)
    requires Rests(ph)
    ensures Moving(Devices(inet, p, env), ph.live)
  {
  }

  lemma DevicesRespect(ph: Phases<World>, inet: Inet, p: Policy, env: nat -> Env)
    requires Honours(ph, inet, p, env)
    ensures Respects(Devices(inet, p, env), Client, ph)
  {
    DevicesMove(ph, inet, p, env);
  }

  // ---------------------------------------------------------------- every client run

  /** What holds of the interface after a run; `stopped` says that the run ended with a stop. */
  ghost predicate Concluded(inet: Inet, p: Policy, w: World, initial: set<Row>, refused: iset<Row>, stopped: bool) {
    var i := w.iface;
    && Recorded(inet, i.host.net) <= i.host.table
    && (forall r :: r in i.host.stranded ==> r in refused)
    && (!i.flag ==> RecordsNothing(i.host.net) && !i.worker)
    && (i.flag && !Loopback(p.endpoint) ==> exists r :: r in BypassRows(inet, i.host.net) && r in i.host.table)
    && (i.flag ==> RoutesInPlace(inet, p, w, initial, refused))
    && (stopped ==>
          && !i.flag
          && i.host.table == (initial - i.host.applied) + i.host.stranded
          && (i.host.table == initial <==> i.host.stranded == initial * i.host.applied))
  }

  /** While the flag is set: in global mode the tunnel's default route is in the table, and in smart mode a worker
      goes over the lists, which a first pass has seen completely; and a longest match for an address is a tunnel row
      iff a tunnel row asked for since the application, or one that was there before, is at least as long as every
      matching row of another interface. What was there before are rows of the initial table and rows whose deletion
      was refused. */
  ghost predicate RoutesInPlace(inet: Inet, p: Policy, w: World, initial: set<Row>, refused: iset<Row>) {
    var luid, base, table := w.last.luid, w.last.base, w.iface.host.table;
    && !Off(p) && luid != 0
    && (forall r :: r in base ==> r in initial || r in refused)
    && (GlobalMode(p) ==> HasDefault(inet, p, w.iface.host, w.last) && !w.iface.worker)
    && (!GlobalMode(p) ==> w.iface.worker && Swept(w.iface.lists, w.last.sweeps))
    && forall x: u32 {:trigger ToTunnel(table, luid, x)} ::
         ToTunnel(table, luid, x)
         <==> exists q :: (Installed(inet, p, w.last, x, q) || TunnelAt(base, luid, x, q))
                       && Unbeaten(base + BypassRows(inet, w.iface.host.net), luid, x, q)
  }

  function NewWorld(initial: set<Row>): World {
    World(Iface(Pristine(initial), false, false, false, Options(0, "10.66.66.1"), Lists([], [])), 0, Routes(0, {}, []))
  }

  /** Every run of a client engine on this interface, whatever the system, the network, name resolution and the list
      files answer, whichever deletions the system refuses, and however often the worker refreshes in between: the
      recorded rows are in the table; `client_routes_applied_` false means that nothing is recorded and no worker
      runs, true means that the endpoint's bypass row and the routes of the configured mode are in place; and after a
      stop the table is the initial one without the rows applied, plus stranded rows, all of which the system once
      refused to delete. */
  lemma ClientRunRestores(inet: Inet, p: Policy, env: nat -> Env, initial: set<Row>, hasInner: bool, ops: seq<Op>)
    requires inet.Lawful()
    ensures Concluded(inet, p, Run(Devices(inet, p, env), Fresh(Client, hasInner, NewWorld(initial)), ops).world,
                      initial, EverStuck(env), ops != [] && ops[|ops| - 1] == DoStop)
  {
    assert IdleWorld(inet, p, NewWorld(initial), initial, EverStuck(env));
    RunConclusion(inet, p, env, Fresh(Client, hasInner, NewWorld(initial)), ops, initial, EverStuck(env));
  }

  /** With no refusals, then: the initial table without the rows applied, and itself iff none had been there. */
  lemma ClientStopRestores(inet: Inet, p: Policy, env: nat -> Env, initial: set<Row>, hasInner: bool, ops: seq<Op>)
    requires inet.Lawful() && (forall k :: env(k).stuck == {}) && ops != [] && ops[|ops| - 1] == DoStop
    ensures var h := Run(Devices(inet, p, env), Fresh(Client, hasInner, NewWorld(initial)), ops).world.iface.host;
            h.table == initial - h.applied && (h.table == initial <==> initial !! h.applied)
  {
    ClientRunRestores(inet, p, env, initial, hasInner, ops);
    var h := Run(Devices(inet, p, env), Fresh(Client, hasInner, NewWorld(initial)), ops).world.iface.host;
    assert h.stranded == {};
  }

  /** And the adapter is closed, whatever the role. */
  lemma StopClosesAdapter(inet: Inet, p: Policy, env: nat -> Env, n: Node<World>, ops: seq<Op>)
    requires ops != [] && ops[|ops| - 1] == DoStop
    ensures !Run(Devices(inet, p, env), n, ops).world.iface.isOpen
  {
    var d := Devices(inet, p, env);
    var closed := (w: World) => !w.iface.isOpen;
    forall w ensures closed(d.closeInterface(w)) {
      assert d.closeInterface(w) == Advance(w, ClearRoutes(inet, w.iface, env(w.calls).stuck).(isOpen := false));
    }
    EndsClosed(d, n, ops, closed);
  }

  lemma RunConclusion(inet: Inet, p: Policy, env: nat -> Env, n: Node<World>, ops: seq<Op>, initial: set<Row>,
                      refused: iset<Row>)
    requires inet.Lawful() && refused == EverStuck(env)
    requires n.role == Client && IdleWorld(inet, p, n.world, initial, refused)
    ensures Concluded(inet, p, Run(Devices(inet, p, env), n, ops).world, initial, refused,
                         ops != [] && ops[|ops| - 1] == DoStop)
  {
    var ph := Phases((w: World) => true,
                     (w: World) => IdleWorld(inet, p, w, initial, refused),
                     (w: World) => LiveWorld(inet, p, w, initial, refused));
    RestsHonoured(ph, inet, p, initial, refused);
    ClearsHonoured(ph, inet, p, env, initial);
    AppliesHonoured(ph, inet, p, env, initial);
    RefreshesHonoured(ph, inet, p, env, initial);
    DevicesRespect(ph, inet, p, env);
    KeepsConcludes(inet, p, Devices(inet, p, env), n, ops, initial, refused, ph);
  }

  lemma KeepsConcludes(inet: Inet, p: Policy, d: Device<World>, n: Node<World>, ops: seq<Op>, initial: set<Row>,
                       refused: iset<Row>, ph: Phases<World>)
    requires Describes(ph, inet, p, initial, refused)
    requires Respects(d, Client, ph) && n.role == Client && ph.idle(n.world)
    ensures Concluded(inet, p, Run(d, n, ops).world, initial, refused, ops != [] && ops[|ops| - 1] == DoStop)
  {
    RunKeeps(d, n, ops, ph);
    Conclude(inet, p, Run(d, n, ops).world, initial, refused);
  }

  lemma Conclude(inet: Inet, p: Policy, w: World, initial: set<Row>, refused: iset<Row>)
    requires LiveWorld(inet, p, w, initial, refused)
    ensures Concluded(inet, p, w, initial, refused, !w.iface.flag)
  {
    var i, h := w.iface, w.iface.host;
    assert BypassRows(inet, h.net) <= Recorded(inet, h.net);
    if i.flag {
      InPlaceConcludes(inet, p, w, initial, refused);
      if !Loopback(p.endpoint) {
        var r :| r in BypassRows(inet, h.net);
        assert r in h.table;
      }
    }
    assert (initial - h.applied) + h.stranded == initial <==> h.stranded == initial * h.applied;
  }

  lemma InPlaceConcludes(inet: Inet, p: Policy, w: World, initial: set<Row>, refused: iset<Row>)
    requires LiveWorld(inet, p, w, initial, refused) && w.iface.flag
    ensures RoutesInPlace(inet, p, w, initial, refused)
  {
    var luid, table := w.last.luid, w.iface.host.table;
    forall x: u32
      ensures ToTunnel(table, luid, x)
              <==> exists q :: (Installed(inet, p, w.last, x, q) || TunnelAt(w.last.base, luid, x, q))
                            && Unbeaten(w.last.base + BypassRows(inet, w.iface.host.net), luid, x, q)
    {
      var asked := (q: int) => Installed(inet, p, w.last, x, q);
      forall q ensures Covers(w.last.base + BypassRows(inet, w.iface.host.net), table, luid, x, q, asked(q)) {
        assert InPlace(inet, p, w.iface.host, w.last, x, q);
      }
      CoveredRoutes(w.last.base, BypassRows(inet, w.iface.host.net), table, luid, x, asked);
    }
  }

  /** A complete pass of the worker leaves the rows of the lists, by what name resolution answers then, in the table.
      */
  lemma RefreshSendsAgain(inet: Inet, e: Env, w: World, x: u32, q: int)
    requires inet.Lawful() && Recorded(inet, w.iface.host.net) <= w.iface.host.table && w.iface.worker
    requires e.patience >= |w.iface.lists.cidrs| + |w.iface.lists.domains|
    ensures var w' := Refreshing(inet, e, w);
            TunnelAt(w'.iface.host.table, w.iface.options.luid, x, q)
            <==> || TunnelAt(w.iface.host.table, w.iface.options.luid, x, q)
                 || SentAt(inet, e.os, w.iface.options, e.dns, w.iface.lists, x, q)
  {
    assert Noticed(w.iface.lists, e.patience) == w.iface.lists;
    ListsCover(inet, e.os, w.iface.host, w.iface.options, e.dns, w.iface.lists, x, q);
  }

  /** Surroundings in which a start goes through. */
  predicate Agreeable(inet: Inet, p: Policy, e: Env) {
    && e.ok && e.luid != 0 && (forall r :: r in NewBypass(p, e) ==> e.os(r))
    && (Loopback(p.endpoint) || NewBypass(p, e) != {})
    && inet.parse(p.gateway).Some? && e.os(Row(e.luid, 0, 0, inet.parse(p.gateway).value))
    && e.cidrFile.Content? && Load(e.cidrFile.text) != [] && !e.domainFile.Missing?
  }

  /** And it does: a fresh client that starts in agreeable surroundings, with routing on, has its routes applied. */
  lemma StartApplies(inet: Inet, p: Policy, env: nat -> Env, initial: set<Row>)
    requires !Off(p) && forall k :: Agreeable(inet, p, env(k))
    ensures var (n, ok) := Start(Devices(inet, p, env), Fresh(Client, true, NewWorld(initial)));
            ok && n.world.iface.flag && n.world.iface.isOpen
  {
    var d, n := Devices(inet, p, env), Fresh(Client, true, NewWorld(initial));
    var w1 := d.openInterface(n.world).1;
    var w2 := d.connect(w1).1;
    var w3 := d.handshake(w2).1;
    var w4 := d.openChannel(w3).1;
    assert w1.iface.isOpen && w4.iface == w1.iface;
    AgreeablePolicy(inet, p, env(w4.calls), w4.iface);
    assert env(0).ok && env(w1.calls).ok && env(w2.calls).ok && env(w3.calls).ok && env(w4.calls).ok;
    StartsApplied(d, n, w4);
  }

  lemma AgreeablePolicy(inet: Inet, p: Policy, e: Env, i: Iface)
    requires !Off(p) && Agreeable(inet, p, e) && i.isOpen
    ensures ApplyPolicy(inet, p, e, i).1 && ApplyPolicy(inet, p, e, i).0.flag && ApplyPolicy(inet, p, e, i).0.isOpen
  {
    PolicyAnswer(inet, p, e, i);
    LoadsBoth(i.lists, e.domainFile, e.cidrFile);
    if !Loopback(p.endpoint) {
      var r :| r in NewBypass(p, e);
    }
  }

  /** The world a successful start of a client leaves is the one in which routing was applied. */
  lemma StartsApplied(d: Device<World>, n: Node<World>, w4: World)
    requires n.role == Client && n.hasInner && n.session.state == Stopped && d.configValid
    requires d.openInterface(n.world).0 && d.connect(d.openInterface(n.world).1).0
    requires var w2 := d.connect(d.openInterface(n.world).1).1;
             && d.handshake(w2).0 && d.openChannel(d.handshake(w2).1) == (true, w4)
             && d.innerReady(w4) && d.applyRouting(w4).0
    ensures Start(d, n).1 && Start(d, n).0.world == d.applyRouting(w4).1
  {
  }

  // ---------------------------------------------------------------- routing off

  /** The interface has never touched the host. */
  predicate Untouched(i: Iface, initial: set<Row>) { i.host == Pristine(initial) && !i.flag && !i.worker }

  /** With routing off, every run of either role leaves the host as it was: a server applies its policy again after
      each reset, and that is harmless because a server's configuration has routing off. */
  lemma RoutingOffTouchesNothing(inet: Inet, p: Policy, env: nat -> Env, initial: set<Row>, role: Role, hasInner: bool,
                                 ops: seq<Op>)
    requires Off(p)
    ensures Untouched(Run(Devices(inet, p, env), Fresh(role, hasInner, NewWorld(initial)), ops).world.iface, initial)
  {
    var inv := (w: World) => Untouched(w.iface, initial);
    var ph := Phases((w: World) => true, inv, inv);
    OffRespects(inet, p, env, initial, role, ph);
    RunKeeps(Devices(inet, p, env), Fresh(role, hasInner, NewWorld(initial)), ops, ph);
  }

  /** The calls that could touch the host: they leave an interface that never did as it is. */
  lemma OffCalls(inet: Inet, p: Policy, e: Env, w: World, initial: set<Row>)
    requires Off(p) && Untouched(w.iface, initial)
    ensures Untouched(ClearRoutes(inet, w.iface, e.stuck), initial)
    ensures Applying(inet, p, e, w).1.iface == w.iface && Refreshing(inet, e, w).iface == w.iface
  {
  }

  lemma OffRespects(inet: Inet, p: Policy, env: nat -> Env, initial: set<Row>, role: Role, ph: Phases<World>)
    requires Off(p) && forall w :: ph.bare(w) && ph.idle(w) == ph.live(w) == Untouched(w.iface, initial)
    ensures Respects(Devices(inet, p, env), role, ph)
  {
    var d := Devices(inet, p, env);
    forall w | ph.live(w)
      ensures ph.live(d.clearRouting(w)) && ph.live(d.openInterface(w).1) && ph.live(d.closeInterface(w))
    {
      OffCalls(inet, p, env(w.calls), w, initial);
    }
    forall w | ph.live(w) ensures ph.live(d.applyRouting(w).1) && ph.live(d.background(w)) {
      OffCalls(inet, p, env(w.calls), w, initial);
    }
  }
}
