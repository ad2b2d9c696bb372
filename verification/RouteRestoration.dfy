/** What whole runs of the configurator leave in the forwarding table. */
module RouteRestoration {
  import opened Bytes
  import opened InnerFrame
  import opened Ipv4
  import opened NetConfig

  /** The table is the initial one without the rows ever applied, plus the recorded and the stranded ones; so
      clearing, which deletes the recorded ones, leaves only stranded rows of ours behind. */
  ghost predicate Accounted(inet: Inet, h: Host, initial: set<Row>) {
    && h.table == (initial - h.applied) + Recorded(inet, h.net) + h.stranded
    && Recorded(inet, h.net) <= h.applied && h.stranded <= h.applied
    && h.stranded !! Recorded(inet, h.net)
  }

  lemma SelectiveSnoc(inet: Inet, keys: seq<Key>, key: Key)
    ensures SelectiveRows(inet, keys + [key]) == SelectiveRows(inet, keys) + KeyRows(inet, key)
  {
    assert (keys + [key])[..|keys|] == keys;
  }

  // ---------------------------------------------------------------- one operation

  /** Adding a recorded row keeps the account. */
  lemma AddAccounted(inet: Inet, h: Host, initial: set<Row>, row: Row, net: Net)
    requires Accounted(inet, h, initial)
    requires row in Recorded(inet, net) && Recorded(inet, net) <= Recorded(inet, h.net) + {row}
    ensures Accounted(inet, h.Add(inet, row, net), initial)
  {
    var before, after := Recorded(inet, h.net), Recorded(inet, net);
    assert before + {row} == after + (before - after);
  }

  /** The record after a successful bypass application. */
  lemma BypassRecord(inet: Inet, os: Answers, h: Host, endpoint: string, tunnel: u64, resolved: Option<u32>,
                     table: Option<seq<Entry>>)
    requires inet.Lawful() && !Loopback(endpoint)
    requires ApplyBypass(inet, os, h, endpoint, tunnel, resolved, table).1
    ensures resolved.Some? && table.Some? && Best(table.value, tunnel).Some?
    ensures var row := BypassRow(resolved.value, Best(table.value, tunnel).value);
            var h' := ApplyBypass(inet, os, h, endpoint, tunnel, resolved, table).0;
            && h' == h.Add(inet, row, h'.net)
            && BypassRows(inet, h'.net) == {row}
            && h'.net.selective == h.net.selective && DefaultRows(inet, h'.net) == DefaultRows(inet, h.net)
            && h'.net.bypassApplied && h'.net.defaultApplied == h.net.defaultApplied
  {
    var row := BypassRow(resolved.value, Best(table.value, tunnel).value);
    assert inet.parse(inet.format(row.gateway).value) == Some(row.gateway);
    assert inet.parse(inet.format(row.destination).value) == Some(row.destination);
  }

  /** A default route of another interface whose next hop is a proper IPv4 address. */
  predicate Usable(e: Entry, tunnel: u64) {
    var Entry(Row(luid, _, prefix, gateway), _, v4) := e;
    prefix == 0 && luid != tunnel && v4 && gateway > 0
  }

  /** What a bypass application answers: yes for a local endpoint, which needs none; otherwise whether the endpoint
      resolves, some default route of another interface has a gateway, and the system takes the row. A refusal changes
      nothing. */
  lemma BypassAnswer(inet: Inet, os: Answers, h: Host, endpoint: string, tunnel: u64, resolved: Option<u32>,
                     table: Option<seq<Entry>>)
    ensures var (h', ok) := ApplyBypass(inet, os, h, endpoint, tunnel, resolved, table);
            && (ok <==> || Loopback(endpoint)
                        || (&& resolved.Some? && table.Some?
                            && (exists k :: 0 <= k < |table.value| && Usable(table.value[k], tunnel))
                            && Best(table.value, tunnel).Some?
                            && os(BypassRow(resolved.value, Best(table.value, tunnel).value))))
            && (!ok || Loopback(endpoint) ==> h' == h)
            && (ok && !Loopback(endpoint) ==> Usable(Best(table.value, tunnel).value, tunnel))
  {
    if table.Some? {
      var k := BestIsFirstLeast(table.value, tunnel);
    }
  }

  /** What a default application answers: no without a change, and yes with its row in the table. */
  lemma DefaultAnswer(inet: Inet, os: Answers, h: Host, luid: u64, gateway: string)
    ensures var (h', ok) := ApplyDefault(inet, os, h, luid, gateway);
            && (ok <==> && luid != 0 && inet.parse(gateway).Some?
                        && os(Row(luid, 0, 0, inet.parse(gateway).value)))
            && (ok ==> Row(luid, 0, 0, inet.parse(gateway).value) in h'.table)
            && (!ok ==> h' == h)
  {
  }

  /** What a selective application answers: no without a change, and yes only with its row in the table. */
  lemma PrefixAnswer(inet: Inet, os: Answers, h: Host, luid: u64, destination: string, prefix: nat, gateway: string)
    requires Recorded(inet, h.net) <= h.table
    ensures var (h', ok) := ApplyPrefix(inet, os, h, luid, destination, prefix, gateway);
            var route := PrefixRoute(inet, luid, destination, prefix, gateway);
            && (ok <==> route.Some? && (route.value.0 in h.net.selective || os(route.value.1)))
            && (ok ==> route.value.1 in h'.table)
            && (!ok ==> h' == h)
  {
    var route := PrefixRoute(inet, luid, destination, prefix, gateway);
    if route.Some? && route.value.0 in h.net.selective {
      KeyIsRecorded(inet, h.net.selective, route.value.0);
    }
  }

  /** A bypass application strands nothing exactly when it does not overwrite the record of a different row that
      nothing else records. */
  lemma BypassStrandsIff(inet: Inet, os: Answers, h: Host, initial: set<Row>, endpoint: string, tunnel: u64,
                         resolved: Option<u32>, table: Option<seq<Entry>>)
    requires inet.Lawful() && Accounted(inet, h, initial) && !Loopback(endpoint)
    requires ApplyBypass(inet, os, h, endpoint, tunnel, resolved, table).1
    ensures var row := BypassRow(resolved.value, Best(table.value, tunnel).value);
            ApplyBypass(inet, os, h, endpoint, tunnel, resolved, table).0.stranded <= h.stranded
            <==> BypassRows(inet, h.net) <= {row} + SelectiveRows(inet, h.net.selective) + DefaultRows(inet, h.net)
  {
    BypassRecord(inet, os, h, endpoint, tunnel, resolved, table);
    var h' := ApplyBypass(inet, os, h, endpoint, tunnel, resolved, table).0;
    StrandsIff(inet, h, initial, h'.net);
  }

  lemma StrandsIff(inet: Inet, h: Host, initial: set<Row>, net: Net)
    requires Accounted(inet, h, initial)
    ensures h.stranded + Recorded(inet, h.net) - Recorded(inet, net) <= h.stranded
            <==> Recorded(inet, h.net) <= Recorded(inet, net)
  {
  }

  /** The same for the default route. */
  lemma DefaultStrandsIff(inet: Inet, os: Answers, h: Host, initial: set<Row>, luid: u64, gateway: string)
    requires Accounted(inet, h, initial) && ApplyDefault(inet, os, h, luid, gateway).1
    ensures var row := Row(luid, 0, 0, inet.parse(gateway).value);
            ApplyDefault(inet, os, h, luid, gateway).0.stranded <= h.stranded
            <==> DefaultRows(inet, h.net) <= {row} + SelectiveRows(inet, h.net.selective) + BypassRows(inet, h.net)
  {
    StrandsIff(inet, h, initial, ApplyDefault(inet, os, h, luid, gateway).0.net);
  }

  /** A selective application keeps the account and strands nothing. */
  lemma PrefixAccounted(inet: Inet, os: Answers, h: Host, initial: set<Row>, luid: u64, destination: string,
                        prefix: nat, gateway: string)
    requires Accounted(inet, h, initial)
    ensures var h' := ApplyPrefix(inet, os, h, luid, destination, prefix, gateway).0;
            Accounted(inet, h', initial) && h'.stranded <= h.stranded
  {
    var route := PrefixRoute(inet, luid, destination, prefix, gateway);
    if route.Some? {
      var (key, row) := route.value;
      SelectiveSnoc(inet, h.net.selective, key);
      AddAccounted(inet, h, initial, row, h.net.(selective := h.net.selective + [key]));
    }
  }

  /** Clearing forgets everything, strands exactly the recorded rows that the system refused to delete, and leaves
      besides the stranded rows the initial table without the applied ones. */
  lemma ClearRestores(inet: Inet, h: Host, initial: set<Row>, stuck: set<Row>)
    requires Accounted(inet, h, initial)
    ensures var h' := Clear(inet, h, stuck);
            && RecordsNothing(h'.net)
            && Recorded(inet, h'.net) == {}
            && h'.table == (initial - h.applied) + h.stranded + (Recorded(inet, h.net) * stuck)
            && h'.stranded == h.stranded + (Recorded(inet, h.net) * stuck)
            && Accounted(inet, h', initial)
  {
  }

  /** A refusal is final: the row survives the next clearing, whatever is refused then. */
  lemma RefusedRowStays(inet: Inet, h: Host, initial: set<Row>, row: Row, stuck: set<Row>, stuck': set<Row>)
    requires Accounted(inet, h, initial) && row in Recorded(inet, h.net)
    ensures row in Clear(inet, Clear(inet, h, stuck), stuck').table <==> row in stuck
  {
    ClearRestores(inet, h, initial, stuck);
    ClearRestores(inet, Clear(inet, h, stuck), initial, stuck');
  }

  // ---------------------------------------------------------------- whole runs

  datatype RouteOp =
    | Bypass(endpoint: string, tunnel: u64, resolved: Option<u32>, listed: Option<seq<Entry>>, os: Answers)
    | Default(luid: u64, gateway: string, os: Answers)
    | Prefixed(luid: u64, destination: string, prefix: nat, gateway: string, os: Answers)
    | ClearAll(stuck: set<Row>)

  function StepRoutes(inet: Inet, h: Host, op: RouteOp): Host {
    match op
    case Bypass(e, t, r, l, os) => ApplyBypass(inet, os, h, e, t, r, l).0
    case Default(l, g, os) => ApplyDefault(inet, os, h, l, g).0
    case Prefixed(l, d, p, g, os) => ApplyPrefix(inet, os, h, l, d, p, g).0
    case ClearAll(stuck) => Clear(inet, h, stuck)
  }

  function RunRoutes(inet: Inet, h: Host, ops: seq<RouteOp>): Host
    decreases |ops|
  {
    if ops == [] then h else RunRoutes(inet, StepRoutes(inet, h, ops[0]), ops[1..])
  }

  /** `h'` is `h`, or `h` with one row more, which it records. */
  ghost predicate Adds(inet: Inet, h: Host, h': Host, row: Row) {
    h' == h || (&& h' == h.Add(inet, row, h'.net)
                && row in Recorded(inet, h'.net)
                && Recorded(inet, h'.net) <= Recorded(inet, h.net) + {row})
  }

  lemma BypassAdds(inet: Inet, os: Answers, h: Host, endpoint: string, tunnel: u64, resolved: Option<u32>,
                   table: Option<seq<Entry>>)
    returns (row: Row)
    requires inet.Lawful()
    ensures Adds(inet, h, ApplyBypass(inet, os, h, endpoint, tunnel, resolved, table).0, row)
  {
    row := Row(0, 0, 0, 0);
    if !Loopback(endpoint) && ApplyBypass(inet, os, h, endpoint, tunnel, resolved, table).1 {
      BypassRecord(inet, os, h, endpoint, tunnel, resolved, table);
      row := BypassRow(resolved.value, Best(table.value, tunnel).value);
    }
  }

  lemma DefaultAdds(inet: Inet, os: Answers, h: Host, luid: u64, gateway: string) returns (row: Row)
    ensures Adds(inet, h, ApplyDefault(inet, os, h, luid, gateway).0, row)
  {
    row := Row(luid, 0, 0, if inet.parse(gateway).Some? then inet.parse(gateway).value else 0);
  }

  lemma PrefixAdds(inet: Inet, os: Answers, h: Host, luid: u64, destination: string, prefix: nat, gateway: string)
    returns (row: Row)
    ensures Adds(inet, h, ApplyPrefix(inet, os, h, luid, destination, prefix, gateway).0, row)
  {
    row := Row(0, 0, 0, 0);
    var route := PrefixRoute(inet, luid, destination, prefix, gateway);
    if route.Some? {
      row := route.value.1;
      SelectiveSnoc(inet, h.net.selective, route.value.0);
    }
  }

  lemma StepAdds(inet: Inet, h: Host, op: RouteOp) returns (row: Row)
    requires inet.Lawful() && !op.ClearAll?
    ensures Adds(inet, h, StepRoutes(inet, h, op), row)
  {
    match op
    case Bypass(e, t, r, l, os) => row := BypassAdds(inet, os, h, e, t, r, l);
    case Default(l, g, os) => row := DefaultAdds(inet, os, h, l, g);
    case Prefixed(l, d, p, g, os) => row := PrefixAdds(inet, os, h, l, d, p, g);
  }

  lemma StepAccounted(inet: Inet, h: Host, initial: set<Row>, op: RouteOp)
    requires inet.Lawful() && Accounted(inet, h, initial)
    ensures Accounted(inet, StepRoutes(inet, h, op), initial)
  {
    match op
    case ClearAll(stuck) => ClearRestores(inet, h, initial, stuck);
    case _ =>
      var row := StepAdds(inet, h, op);
      var h' := StepRoutes(inet, h, op);
      if h' != h {
        AddAccounted(inet, h, initial, row, h'.net);
      }
  }

  lemma {:induction false} RunAccounted(inet: Inet, h: Host, initial: set<Row>, ops: seq<RouteOp>)
    requires inet.Lawful() && Accounted(inet, h, initial)
    ensures Accounted(inet, RunRoutes(inet, h, ops), initial)
    decreases |ops|
  {
    if ops != [] {
      StepAccounted(inet, h, initial, ops[0]);
      RunAccounted(inet, StepRoutes(inet, h, ops[0]), initial, ops[1..]);
    }
  }

  /** Route restoration, after any run whatever: creations may succeed, fail or report that the row exists, and any
      deletions may be refused. The recorded rows are in the table; clearing leaves the initial table without the
      rows applied, plus exactly the stranded ones. So it takes back all that was applied iff nothing is stranded,
      and gives the initial table iff the stranded rows are the applied ones that had been there before. */
  lemma RestorationIff(inet: Inet, initial: set<Row>, ops: seq<RouteOp>, stuck: set<Row>)
    requires inet.Lawful()
    ensures var h := RunRoutes(inet, Pristine(initial), ops);
            var cleared := Clear(inet, h, stuck);
            && Recorded(inet, h.net) <= h.table
            && cleared.table == (initial - h.applied) + cleared.stranded
            && (cleared.table == initial - h.applied <==> cleared.stranded == {})
            && (cleared.table == initial <==> cleared.stranded == initial * h.applied)
  {
    assert Accounted(inet, Pristine(initial), initial);
    RunAccounted(inet, Pristine(initial), initial, ops);
    Cleared(inet, RunRoutes(inet, Pristine(initial), ops), initial, stuck);
  }

  lemma Cleared(inet: Inet, h: Host, initial: set<Row>, stuck: set<Row>)
    requires Accounted(inet, h, initial)
    ensures var cleared := Clear(inet, h, stuck);
            && cleared.table == (initial - h.applied) + cleared.stranded
            && (cleared.table == initial - h.applied <==> cleared.stranded == {})
            && (cleared.table == initial <==> cleared.stranded == initial * h.applied)
  {
    ClearRestores(inet, h, initial, stuck);
    var stranded := Clear(inet, h, stuck).stranded;
    assert stranded <= h.applied;
    assert (initial - h.applied) + stranded == initial - h.applied <==> stranded == {};
    assert (initial - h.applied) + stranded == initial <==> stranded == initial * h.applied;
  }

  // ---------------------------------------------------------------- what strands a row

  /** The bypass and the default route are not applied again while applied. */
  predicate OnceBetweenClears(inet: Inet, h: Host, ops: seq<RouteOp>)
    decreases |ops|
  {
    ops == [] ||
    (&& (ops[0].Bypass? ==> !h.net.bypassApplied)
     && (ops[0].Default? ==> !h.net.defaultApplied)
     && OnceBetweenClears(inet, StepRoutes(inet, h, ops[0]), ops[1..]))
  }

  /** The deletions refused during a run. */
  function Refused(ops: seq<RouteOp>): set<Row> {
    if ops == [] then {} else (if ops[0].ClearAll? then ops[0].stuck else {}) + Refused(ops[1..])
  }

  lemma StepStrands(inet: Inet, h: Host, initial: set<Row>, op: RouteOp)
    requires inet.Lawful() && Accounted(inet, h, initial)
    requires (op.Bypass? ==> !h.net.bypassApplied) && (op.Default? ==> !h.net.defaultApplied)
    ensures StepRoutes(inet, h, op).stranded <= h.stranded + Refused([op])
  {
    match op
    case Bypass(e, t, r, l, os) =>
      if !Loopback(e) && ApplyBypass(inet, os, h, e, t, r, l).1 {
        BypassStrandsIff(inet, os, h, initial, e, t, r, l);
      }
    case Default(l, g, os) =>
      if ApplyDefault(inet, os, h, l, g).1 {
        DefaultStrandsIff(inet, os, h, initial, l, g);
      }
    case Prefixed(l, d, p, g, os) => PrefixAccounted(inet, os, h, initial, l, d, p, g);
    case ClearAll(stuck) =>
  }

  lemma {:induction false} RunStrands(inet: Inet, h: Host, initial: set<Row>, ops: seq<RouteOp>)
    requires inet.Lawful() && Accounted(inet, h, initial) && OnceBetweenClears(inet, h, ops)
    ensures RunRoutes(inet, h, ops).stranded <= h.stranded + Refused(ops)
    decreases |ops|
  {
    if ops != [] {
      StepAccounted(inet, h, initial, ops[0]);
      StepStrands(inet, h, initial, ops[0]);
      RunStrands(inet, StepRoutes(inet, h, ops[0]), initial, ops[1..]);
      assert Refused(ops) == Refused([ops[0]]) + Refused(ops[1..]);
    }
  }

  /** A run that applies the bypass and the default route once between clears strands only rows whose deletion was
      refused. Without refusals clearing therefore leaves the initial table minus the rows applied, and the
      initial table itself iff none of them had been there. */
  lemma Restoration(inet: Inet, initial: set<Row>, ops: seq<RouteOp>, stuck: set<Row>)
    requires inet.Lawful() && OnceBetweenClears(inet, Pristine(initial), ops)
    ensures var h := RunRoutes(inet, Pristine(initial), ops);
            var cleared := Clear(inet, h, stuck);
            && cleared.stranded <= Refused(ops) + stuck
            && (Refused(ops) + stuck == {} ==>
                  && cleared.table == initial - h.applied
                  && (cleared.table == initial <==> initial !! h.applied))
  {
    assert Accounted(inet, Pristine(initial), initial);
    RunStrands(inet, Pristine(initial), initial, ops);
    RestorationIff(inet, initial, ops, stuck);
  }

  /** A row that an overwrite strands: a second bypass application, after the system's own default route has moved
      to another gateway, leaves the first bypass row behind. */
  lemma SecondBypassLeaks(inet: Inet)
    requires inet.Lawful()
    ensures var os: Answers := (r: Row) => true;
            var first := Bypass("192.0.2.1", 9, Some(7), Some([Entry(Row(1, 0, 0, 5), 0, true)]), os);
            var second := first.(listed := Some([Entry(Row(1, 0, 0, 6), 0, true)]));
            var h := StepRoutes(inet, StepRoutes(inet, Pristine({}), first), second);
            Row(1, 7, 32, 5) in Clear(inet, h, {}).table
  {
    var os: Answers := (r: Row) => true;
    var t1, t2 := [Entry(Row(1, 0, 0, 5), 0, true)], [Entry(Row(1, 0, 0, 6), 0, true)];
    BestOfOne(t1[0], 9);
    BestOfOne(t2[0], 9);
    BypassRecord(inet, os, Pristine({}), "192.0.2.1", 9, Some(7), Some(t1));
    var h1 := ApplyBypass(inet, os, Pristine({}), "192.0.2.1", 9, Some(7), Some(t1)).0;
    BypassRecord(inet, os, h1, "192.0.2.1", 9, Some(7), Some(t2));
  }

  lemma BestOfOne(e: Entry, tunnel: u64)
    requires Eligible(e, tunnel)
    ensures Best([e], tunnel) == Some(e)
  {
    assert [e][..0] == [];
  }

  // ---------------------------------------------------------------- the endpoint's next hop

  predicate Matches(row: Row, x: u32) { InBlock(x, row.destination, row.prefix) }

  /** The longest-match rule of section 5.2.4.3 of RFC 1812. */
  ghost predicate LongestMatch(table: set<Row>, x: u32, row: Row) {
    row in table && Matches(row, x) && forall r :: r in table && Matches(r, x) ==> r.prefix <= row.prefix
  }

  predicate HostRoute(r: Row, x: u32) { r.prefix == 32 && r.destination == x }

  function HostRoutes(table: set<Row>, x: u32): set<Row> { set r | r in table && HostRoute(r, x) }

  /** Where there is a host route for `x`, the longest matches are the host routes for `x`. */
  lemma HostRoutesWin(table: set<Row>, x: u32, host: Row)
    requires host in HostRoutes(table, x)
    ensures forall r :: LongestMatch(table, x, r) <==> r in HostRoutes(table, x)
  {
    assert Matches(host, x);
    forall r | r in HostRoutes(table, x) ensures LongestMatch(table, x, r) {
    }
    forall r | LongestMatch(table, x, r) ensures r in HostRoutes(table, x) {
      assert host.prefix <= r.prefix;
    }
  }

  /** The host route for `x` that an operation makes the system take, if it does. */
  function HostTaken(inet: Inet, op: RouteOp, x: u32): set<Row> {
    if !op.Prefixed? || op.luid == 0 || op.prefix != 32 then {}
    else if inet.parse(op.destination) != Some(x) || inet.parse(op.gateway).None? then {}
    else
      var row := Row(op.luid, x, 32, inet.parse(op.gateway).value);
      if op.os(row) then {row} else {}
  }

  function HostsTaken(inet: Inet, ops: seq<RouteOp>, x: u32): set<Row> {
    if ops == [] then {} else HostTaken(inet, ops[0], x) + HostsTaken(inet, ops[1..], x)
  }

  /** Default and selective routes only, on any interface. */
  predicate TunnelOps(ops: seq<RouteOp>) { forall i :: 0 <= i < |ops| ==> ops[i].Default? || ops[i].Prefixed? }

  lemma {:induction false} KeyIsRecorded(inet: Inet, keys: seq<Key>, key: Key)
    requires key in keys
    ensures KeyRows(inet, key) <= SelectiveRows(inet, keys)
  {
    var n := |keys| - 1;
    if key != keys[n] {
      KeyIsRecorded(inet, keys[..n], key);
    }
  }

  /** The row that a selective application makes the system take, if it does. */
  function PrefixTaken(inet: Inet, os: Answers, luid: u64, destination: string, prefix: nat,
                       gateway: string): set<Row> {
    var route := PrefixRoute(inet, luid, destination, prefix, gateway);
    if route.Some? && os(route.value.1) then {route.value.1} else {}
  }

  /** With the recorded rows in the table, a selective application adds to the table the row taken, whether or not
      its key was recorded already. */
  lemma PrefixTable(inet: Inet, os: Answers, h: Host, luid: u64, destination: string, prefix: nat, gateway: string)
    requires Recorded(inet, h.net) <= h.table
    ensures var h' := ApplyPrefix(inet, os, h, luid, destination, prefix, gateway).0;
            && h'.table == h.table + PrefixTaken(inet, os, luid, destination, prefix, gateway)
            && Recorded(inet, h'.net) <= h'.table
  {
    var route := PrefixRoute(inet, luid, destination, prefix, gateway);
    if route.Some? {
      var (key, row) := route.value;
      SelectiveSnoc(inet, h.net.selective, key);
      if key in h.net.selective {
        KeyIsRecorded(inet, h.net.selective, key);
        assert row in h.table;
      }
    }
  }

  lemma DefaultHosts(inet: Inet, os: Answers, h: Host, luid: u64, gateway: string, x: u32)
    requires Recorded(inet, h.net) <= h.table
    ensures var h' := ApplyDefault(inet, os, h, luid, gateway).0;
            Recorded(inet, h'.net) <= h'.table && HostRoutes(h'.table, x) == HostRoutes(h.table, x)
  {
  }

  lemma StepHosts(inet: Inet, h: Host, op: RouteOp, x: u32)
    requires inet.Lawful() && Recorded(inet, h.net) <= h.table && (op.Default? || op.Prefixed?)
    ensures var h' := StepRoutes(inet, h, op);
            && Recorded(inet, h'.net) <= h'.table
            && HostRoutes(h'.table, x) == HostRoutes(h.table, x) + HostTaken(inet, op, x)
  {
    match op
    case Default(l, g, os) => DefaultHosts(inet, os, h, l, g, x);
    case Prefixed(l, d, p, g, os) =>
      PrefixTable(inet, os, h, l, d, p, g);
      TakenHost(inet, os, l, d, p, g, x);
      AddedHosts(h.table, PrefixTaken(inet, os, l, d, p, g), x);
  }

  lemma TakenHost(inet: Inet, os: Answers, luid: u64, destination: string, prefix: nat, gateway: string, x: u32)
    ensures HostRoutes(PrefixTaken(inet, os, luid, destination, prefix, gateway), x)
         == HostTaken(inet, Prefixed(luid, destination, prefix, gateway, os), x)
  {
  }

  lemma AddedHosts(table: set<Row>, added: set<Row>, x: u32)
    ensures HostRoutes(table + added, x) == HostRoutes(table, x) + HostRoutes(added, x)
  {
  }

  /** Default and selective routes change the host routes for `x` by the ones taken. */
  lemma {:induction false} HostRoutesAfter(inet: Inet, h: Host, ops: seq<RouteOp>, x: u32)
    requires inet.Lawful() && Recorded(inet, h.net) <= h.table && TunnelOps(ops)
    ensures HostRoutes(RunRoutes(inet, h, ops).table, x) == HostRoutes(h.table, x) + HostsTaken(inet, ops, x)
    decreases |ops|
  {
    if ops != [] {
      StepHosts(inet, h, ops[0], x);
      HostRoutesAfter(inet, StepRoutes(inet, h, ops[0]), ops[1..], x);
    }
  }

  /** Does the endpoint loop into the tunnel? Apply its bypass, on any host whose recorded rows are in the table, and
      then any default and selective routes. No longest match for the endpoint is a tunnel row exactly when the
      tunnel had no host route for it and none of the routes applied gives it one. The bypass row is the only
      longest match exactly when every host route for the endpoint that was there, or is applied, is that row. It
      leads to the gateway of the first least-metric default route that is not the tunnel's. */
  lemma EndpointAvoidsTunnelIff(inet: Inet, os: Answers, h: Host, endpoint: string, tunnel: u64, resolved: Option<u32>,
                                listed: Option<seq<Entry>>, ops: seq<RouteOp>)
    requires inet.Lawful() && !Loopback(endpoint) && Recorded(inet, h.net) <= h.table && TunnelOps(ops)
    requires ApplyBypass(inet, os, h, endpoint, tunnel, resolved, listed).1
    ensures resolved.Some? && listed.Some? && Best(listed.value, tunnel).Some?
    ensures var x, best := resolved.value, Best(listed.value, tunnel).value;
            var table := RunRoutes(inet, ApplyBypass(inet, os, h, endpoint, tunnel, resolved, listed).0, ops).table;
            var hosts := HostRoutes(h.table, x) + HostsTaken(inet, ops, x);
            && best.row.luid != tunnel
            && ((forall r :: LongestMatch(table, x, r) ==> r.luid != tunnel)
                <==> (forall r :: r in hosts ==> r.luid != tunnel))
            && ((forall r :: LongestMatch(table, x, r) <==> r == Row(best.row.luid, x, 32, best.row.gateway))
                <==> hosts <= {Row(best.row.luid, x, 32, best.row.gateway)})
  {
    BypassRecord(inet, os, h, endpoint, tunnel, resolved, listed);
    var k := BestIsFirstLeast(listed.value, tunnel);
    var x, row := resolved.value, BypassRow(resolved.value, Best(listed.value, tunnel).value);
    var h1 := ApplyBypass(inet, os, h, endpoint, tunnel, resolved, listed).0;
    assert HostRoutes(h1.table, x) == HostRoutes(h.table, x) + {row};
    HostRoutesAfter(inet, h1, ops, x);
    Decided(RunRoutes(inet, h1, ops).table, x, tunnel, row, HostRoutes(h.table, x) + HostsTaken(inet, ops, x));
  }

  lemma Decided(table: set<Row>, x: u32, tunnel: u64, row: Row, hosts: set<Row>)
    requires HostRoute(row, x) && row.luid != tunnel && HostRoutes(table, x) == hosts + {row}
    ensures (forall r :: LongestMatch(table, x, r) ==> r.luid != tunnel)
            <==> (forall r :: r in hosts ==> r.luid != tunnel)
    ensures (forall r :: LongestMatch(table, x, r) <==> r == row) <==> hosts <= {row}
  {
    HostRoutesWin(table, x, row);
    forall r | r in hosts ensures LongestMatch(table, x, r) {
      assert r in HostRoutes(table, x);
    }
  }

  /** A run that fails the promise: the bypass of the endpoint 7 is applied, and then a list target that is the
      endpoint itself. The tunnel's row is a longest match as good as the bypass. */
  lemma ListedEndpointLoops(inet: Inet)
    requires inet.Lawful()
    ensures var os: Answers := (r: Row) => true;
            var bypass := Bypass("vpn.example", 9, Some(7), Some([Entry(Row(1, 0, 0, 5), 0, true)]), os);
            var listed := Prefixed(9, inet.format(7).value, 32, inet.format(6).value, os);
            var table := RunRoutes(inet, Pristine({Row(1, 0, 0, 5)}), [bypass, listed]).table;
            LongestMatch(table, 7, Row(1, 7, 32, 5)) && LongestMatch(table, 7, Row(9, 7, 32, 6))
  {
    var os: Answers := (r: Row) => true;
    var t := [Entry(Row(1, 0, 0, 5), 0, true)];
    var h0 := Pristine({Row(1, 0, 0, 5)});
    var bypass := Bypass("vpn.example", 9, Some(7), Some(t), os);
    var listed := Prefixed(9, inet.format(7).value, 32, inet.format(6).value, os);
    BestOfOne(t[0], 9);
    BypassRecord(inet, os, h0, "vpn.example", 9, Some(7), Some(t));
    var h1 := StepRoutes(inet, h0, bypass);
    HostRoutesAfter(inet, h1, [listed], 7);
    assert HostTaken(inet, listed, 7) == {Row(9, 7, 32, 6)};
    var table := RunRoutes(inet, h1, [listed]).table;
    assert [bypass, listed][1..] == [listed];
    assert Row(1, 7, 32, 5) in HostRoutes(table, 7) && Row(9, 7, 32, 6) in HostRoutes(table, 7);
    HostRoutesWin(table, 7, Row(1, 7, 32, 5));
  }
}
