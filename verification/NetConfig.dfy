/** `WindowsNetConfigurator`: which rows of the forwarding table it adds, what it remembers of them, and
    that clearing takes back what it added. */
module NetConfig {
  import opened Bytes
  import opened InnerFrame
  import opened Ipv4

  // ---------------------------------------------------------------- the operating system's side

  /** A row of the forwarding table: what `CreateIpForwardEntry2` and `DeleteIpForwardEntry2` tell apart. */
  datatype Row = Row(luid: u64, destination: u32, prefix: Prefix, gateway: u32)

  /** A row as listed by `GetIpForwardTable2`; `v4` is the family of its next hop. */
  datatype Entry = Entry(row: Row, metric: nat, v4: bool)

  /** `InetPtonA` and `InetNtopA`. */
  datatype Inet = Inet(parse: string -> Option<u32>, format: u32 -> Option<string>) {
    /** Every address can be written down and is read back as itself. */
    ghost predicate Lawful() {
      forall a: u32 :: format(a).Some? && format(a).value != "" && parse(format(a).value) == Some(a)
    }
  }

  /** What the system answers to the creation of a row: `true` for success and for "already exists". */
  type Answers = Row -> bool

  // ---------------------------------------------------------------- what the configurator remembers

  datatype Key = Key(luid: u64, destination: u32, prefix: Prefix, gateway: string)

  datatype Net = Net(
    bypassApplied: bool, bypassDestination: string, bypassGateway: string, bypassLuid: u64,
    defaultApplied: bool, defaultLuid: u64, defaultGateway: string,
    selective: seq<Key>)

  const NOTHING: Net := Net(false, "", "", 0, false, 0, "", [])

  function KeyRows(inet: Inet, k: Key): set<Row> {
    match inet.parse(k.gateway)
    case None => {}
    case Some(g) => {Row(k.luid, k.destination, k.prefix, g)}
  }

  function SelectiveRows(inet: Inet, keys: seq<Key>): set<Row> {
    if keys == [] then {} else SelectiveRows(inet, keys[..|keys| - 1]) + KeyRows(inet, keys[|keys| - 1])
  }

  function DefaultRows(inet: Inet, net: Net): set<Row> {
    if !net.defaultApplied then {}
    else
      match inet.parse(net.defaultGateway)
      case None => {}
      case Some(g) => {Row(net.defaultLuid, 0, 0, g)}
  }

  function BypassRows(inet: Inet, net: Net): set<Row> {
    if !net.bypassApplied then {}
    else
      match (inet.parse(net.bypassDestination), inet.parse(net.bypassGateway))
      case (Some(d), Some(g)) => {Row(net.bypassLuid, d, 32, g)}
      case _ => {}
  }

  /** The rows that the record denotes. */
  function Recorded(inet: Inet, net: Net): set<Row> {
    SelectiveRows(inet, net.selective) + DefaultRows(inet, net) + BypassRows(inet, net)
  }

  /** The record, the forwarding table, and two histories: `applied`, the rows whose creation was answered well, and
      `stranded`, the recorded rows that dropped out of the record without being deleted and were not recorded
      again. */
  datatype Host = Host(net: Net, table: set<Row>, applied: set<Row>, stranded: set<Row>) {
    function Add(inet: Inet, row: Row, net': Net): Host {
      Host(net', table + {row}, applied + {row}, stranded + Recorded(inet, net) - Recorded(inet, net'))
    }
  }

  /** A host on which nothing has been applied yet. */
  function Pristine(table: set<Row>): Host { Host(NOTHING, table, {}, {}) }

  // ---------------------------------------------------------------- choosing the bypass gateway

  predicate Eligible(e: Entry, tunnel: u64) {
    e.row.prefix == 0 && e.row.luid != tunnel && e.v4 && e.row.gateway != 0
  }

  function Best(table: seq<Entry>, tunnel: u64): Option<Entry> {
    if table == [] then None
    else
      var n := |table| - 1;
      var best := Best(table[..n], tunnel);
      if Eligible(table[n], tunnel) && (best.None? || table[n].metric < best.value.metric) then Some(table[n]) else best
  }

  /** Position `k` holds the first of the eligible rows with the least metric. */
  predicate FirstLeast(table: seq<Entry>, tunnel: u64, k: nat) {
    && k < |table| && Eligible(table[k], tunnel)
    && (forall i :: 0 <= i < |table| && Eligible(table[i], tunnel) ==> table[k].metric <= table[i].metric)
    && (forall i :: 0 <= i < k && Eligible(table[i], tunnel) ==> table[k].metric < table[i].metric)
  }

  /** The scan yields that row, and nothing only if no row is eligible. */
  lemma {:induction false} BestIsFirstLeast(table: seq<Entry>, tunnel: u64) returns (k: nat)
    ensures Best(table, tunnel).None? ==> forall i :: 0 <= i < |table| ==> !Eligible(table[i], tunnel)
    ensures Best(table, tunnel).Some? ==> FirstLeast(table, tunnel, k) && table[k] == Best(table, tunnel).value
  {
    k := 0;
    if table != [] {
      var n := |table| - 1;
      var init := table[..n];
      k := BestIsFirstLeast(init, tunnel);
      var best := Best(init, tunnel);
      forall i | 0 <= i < n && Eligible(table[i], tunnel)
        ensures best.Some? && best.value.metric <= table[i].metric
      {
        assert init[i] == table[i];
      }
      if Eligible(table[n], tunnel) && (best.None? || table[n].metric < best.value.metric) {
        k := n;
      } else if best.Some? {
        forall i | 0 <= i < k && Eligible(table[i], tunnel) ensures table[k].metric < table[i].metric {
          assert init[i] == table[i];
        }
      }
    }
  }

  /** The loop over the listed rows. */
  method SelectGateway(table: seq<Entry>, tunnel: u64) returns (best: Option<Entry>)
    ensures best == Best(table, tunnel)
  {
    best := None;
    var i := 0;
    while i < |table|
      invariant 0 <= i <= |table|
      invariant best == Best(table[..i], tunnel)
    {
      var e := table[i];
      assert table[..i + 1][..i] == table[..i];
      i := i + 1;
      if e.row.prefix != 0 { continue; }
      if e.row.luid == tunnel { continue; }
      if !e.v4 { continue; }
      if e.row.gateway == 0 { continue; }
      if best.None? || e.metric < best.value.metric {
        best := Some(e);
      }
    }
    assert table[..i] == table;
  }

  // ---------------------------------------------------------------- the operations

  predicate Loopback(endpoint: string) { endpoint == "127.0.0.1" || endpoint == "localhost" }

  /** `resolved` and `table` are what name resolution and the table listing answered, if they did. */
  function ApplyBypass(inet: Inet, os: Answers, h: Host, endpoint: string, tunnel: u64,
                       resolved: Option<u32>, table: Option<seq<Entry>>): (Host, bool) {
    if Loopback(endpoint) then (h, true)
    else if resolved.None? || table.None? || Best(table.value, tunnel).None? then (h, false)
    else
      var row := BypassRow(resolved.value, Best(table.value, tunnel).value);
      if !os(row) then (h, false)
      else
        var g, d := inet.format(row.gateway), inet.format(row.destination);
        (h.Add(inet, row, h.net.(bypassApplied := true, bypassLuid := row.luid,
                           bypassGateway := if g.Some? then g.value else "0.0.0.0",
                           bypassDestination := if d.Some? then d.value else endpoint)), true)
  }

  function BypassRow(destination: u32, best: Entry): Row { Row(best.row.luid, destination, 32, best.row.gateway) }

  function ApplyDefault(inet: Inet, os: Answers, h: Host, luid: u64, gateway: string): (Host, bool) {
    if luid == 0 || inet.parse(gateway).None? then (h, false)
    else
      var row := Row(luid, 0, 0, inet.parse(gateway).value);
      if !os(row) then (h, false)
      else (h.Add(inet, row, h.net.(defaultApplied := true, defaultLuid := luid, defaultGateway := gateway)), true)
  }

  /** The key and the row of a selective route, if its arguments are acceptable. */
  function PrefixRoute(inet: Inet, luid: u64, destination: string, prefix: nat, gateway: string): Option<(Key, Row)> {
    if luid == 0 || prefix > 32 || inet.parse(destination).None? || inet.parse(gateway).None? then None
    else
      var d := Masked(inet.parse(destination).value, prefix);
      Some((Key(luid, d, prefix, gateway), Row(luid, d, prefix, inet.parse(gateway).value)))
  }

  function ApplyPrefix(inet: Inet, os: Answers, h: Host, luid: u64, destination: string, prefix: nat,
                       gateway: string): (Host, bool) {
    match PrefixRoute(inet, luid, destination, prefix, gateway)
    case None => (h, false)
    case Some((key, row)) =>
      if key in h.net.selective then (h, true)
      else if !os(row) then (h, false)
      else (h.Add(inet, row, h.net.(selective := h.net.selective + [key])), true)
  }

  /** Rows in `stuck` are those whose deletion the system refuses. */
  function Clear(inet: Inet, h: Host, stuck: set<Row>): Host {
    h.(net := Forget(h.net), table := h.table - (Recorded(inet, h.net) - stuck),
       stranded := h.stranded + Recorded(inet, h.net) * stuck)
  }

  function Forget(net: Net): Net {
    var n := net.(selective := []);
    var m := if n.defaultApplied then n.(defaultApplied := false, defaultLuid := 0, defaultGateway := "") else n;
    if !m.bypassApplied then m
    else m.(bypassApplied := false, bypassDestination := "", bypassGateway := "", bypassLuid := 0)
  }

  predicate RecordsNothing(net: Net) { !net.bypassApplied && !net.defaultApplied && net.selective == [] }

  // ---------------------------------------------------------------- the class

  datatype Status = NoError | AlreadyExists | NotFound | OtherError

  /** The forwarding table of the system. */
  class ForwardTable {
    var rows: set<Row>

    constructor (rows: set<Row>)
      ensures this.rows == rows
    {
      this.rows := rows;
    }

    method Create(row: Row, os: Answers) returns (s: Status)
      modifies this
      ensures (s == NoError || s == AlreadyExists) == os(row)
      ensures rows == if os(row) then old(rows) + {row} else old(rows)
    {
      if !os(row) { return OtherError; }
      if row in rows {
        s := AlreadyExists;
      } else {
        rows := rows + {row};
        s := NoError;
      }
    }

    method Delete(row: Row, stuck: set<Row>) returns (s: Status)
      modifies this
      ensures rows == if row in stuck then old(rows) else old(rows) - {row}
    {
      if row in stuck { return OtherError; }
      s := if row in rows then NoError else NotFound;
      rows := rows - {row};
    }
  }

  class WindowsNetConfigurator {
    const inet: Inet
    const system: ForwardTable
    var bypassApplied: bool
    var bypassDestination: string
    var bypassGateway: string
    var bypassLuid: u64
    var defaultApplied: bool
    var defaultLuid: u64
    var defaultGateway: string
    var selective: seq<Key>
    ghost var applied: set<Row>
    ghost var stranded: set<Row>

    constructor (inet: Inet, system: ForwardTable)
      ensures this.inet == inet && this.system == system
      ensures View() == Pristine(system.rows)
    {
      this.inet, this.system := inet, system;
      bypassApplied, bypassDestination, bypassGateway, bypassLuid := false, "", "", 0;
      defaultApplied, defaultLuid, defaultGateway := false, 0, "";
      selective, applied, stranded := [], {}, {};
    }

    ghost function View(): Host
      reads this, system
    {
      Host(Net(bypassApplied, bypassDestination, bypassGateway, bypassLuid, defaultApplied, defaultLuid,
               defaultGateway, selective),
           system.rows, applied, stranded)
    }

    /** The histories after the row was created and the record changed from `before`. */
    ghost method Applied(row: Row, before: Net)
      modifies this`applied, this`stranded
      ensures applied == old(applied) + {row}
      ensures stranded == old(stranded) + Recorded(inet, before) - Recorded(inet, View().net)
    {
      applied, stranded := applied + {row}, stranded + Recorded(inet, before) - Recorded(inet, View().net);
    }

    method ApplyEndpointBypassRoute(os: Answers, endpoint: string, tunnel: u64, resolved: Option<u32>,
                                    table: Option<seq<Entry>>)
      returns (ok: bool)
      modifies this, system
      ensures (View(), ok) == ApplyBypass(inet, os, old(View()), endpoint, tunnel, resolved, table)
    {
      if endpoint == "127.0.0.1" || endpoint == "localhost" {
        return true;
      }
      if resolved.None? || table.None? {
        return false;
      }
      var best := SelectGateway(table.value, tunnel);
      if best.None? {
        return false;
      }
      var row := Row(best.value.row.luid, resolved.value, 32, best.value.row.gateway);
      var status := system.Create(row, os);
      if status != NoError && status != AlreadyExists {
        return false;
      }
      ghost var before := View().net;
      bypassApplied, bypassLuid := true, row.luid;
      var gateway := inet.format(row.gateway);
      bypassGateway := if gateway.Some? then gateway.value else "0.0.0.0";
      var destination := inet.format(row.destination);
      bypassDestination := if destination.Some? then destination.value else endpoint;
      Applied(row, before);
      ok := true;
    }

    method ApplyGlobalDefaultRoute(os: Answers, luid: u64, gateway: string) returns (ok: bool)
      modifies this, system
      ensures (View(), ok) == ApplyDefault(inet, os, old(View()), luid, gateway)
    {
      if luid == 0 {
        return false;
      }
      var g := inet.parse(gateway);
      if g.None? {
        return false;
      }
      var row := Row(luid, 0, 0, g.value);
      var status := system.Create(row, os);
      if status != NoError && status != AlreadyExists {
        return false;
      }
      ghost var before := View().net;
      defaultApplied, defaultLuid, defaultGateway := true, luid, gateway;
      Applied(row, before);
      ok := true;
    }

    method ApplyPrefixRoute(os: Answers, luid: u64, destination: string, prefix: nat, gateway: string)
      returns (ok: bool)
      modifies this, system
      ensures (View(), ok) == ApplyPrefix(inet, os, old(View()), luid, destination, prefix, gateway)
    {
      if luid == 0 || prefix > 32 {
        return false;
      }
      var d := inet.parse(destination);
      if d.None? {
        return false;
      }
      var network := Masked(d.value, prefix);
      var g := inet.parse(gateway);
      if g.None? {
        return false;
      }
      var key := Key(luid, network, prefix, gateway);
      var i := 0;
      while i < |selective|
        invariant 0 <= i <= |selective|
        invariant key !in selective[..i]
      {
        if selective[i] == key {
          return true;
        }
        i := i + 1;
      }
      assert key !in selective;
      var row := Row(luid, network, prefix, g.value);
      var status := system.Create(row, os);
      if status != NoError && status != AlreadyExists {
        return false;
      }
      ghost var before := View().net;
      selective := selective + [key];
      Applied(row, before);
      ok := true;
    }

    method ClearClientRoutes(stuck: set<Row>)
      modifies this, system
      ensures View() == Clear(inet, old(View()), stuck)
    {
      ghost var h := View();
      ClearSelective(stuck);
      ClearDefault(stuck);
      ClearBypass(stuck);
      stranded := stranded + Recorded(inet, h.net) * stuck;
      Unions(h.table, SelectiveRows(inet, h.net.selective), DefaultRows(inet, h.net), BypassRows(inet, h.net), stuck);
    }

    method ClearSelective(stuck: set<Row>)
      modifies this, system
      ensures var h := old(View());
              View() == h.(net := h.net.(selective := []),
                           table := h.table - (SelectiveRows(inet, h.net.selective) - stuck))
    {
      ghost var h := View();
      var i := 0;
      while i < |selective|
        invariant 0 <= i <= |selective|
        invariant View() == h.(table := h.table - (SelectiveRows(inet, selective[..i]) - stuck))
      {
        var route := selective[i];
        assert selective[..i + 1][..i] == selective[..i];
        var g := inet.parse(route.gateway);
        if g.Some? {
          var ignored := system.Delete(Row(route.luid, route.destination, route.prefix, g.value), stuck);
        }
        i := i + 1;
      }
      assert selective[..i] == selective;
      selective := [];
    }

    method ClearDefault(stuck: set<Row>)
      modifies this, system
      ensures var h := old(View());
              View() == h.(table := h.table - (DefaultRows(inet, h.net) - stuck),
                           net := if !h.net.defaultApplied then h.net
                                  else h.net.(defaultApplied := false, defaultLuid := 0, defaultGateway := ""))
    {
      if defaultApplied {
        var g := inet.parse(defaultGateway);
        if g.Some? {
          var ignored := system.Delete(Row(defaultLuid, 0, 0, g.value), stuck);
        }
        defaultApplied, defaultLuid, defaultGateway := false, 0, "";
      }
    }

    method ClearBypass(stuck: set<Row>)
      modifies this, system
      ensures var h := old(View());
              View() == h.(table := h.table - (BypassRows(inet, h.net) - stuck),
                           net := if !h.net.bypassApplied then h.net
                                  else h.net.(bypassApplied := false, bypassDestination := "", bypassGateway := "",
                                              bypassLuid := 0))
    {
      if bypassApplied {
        var d, g := inet.parse(bypassDestination), inet.parse(bypassGateway);
        if d.Some? && g.Some? {
          var ignored := system.Delete(Row(bypassLuid, d.value, 32, g.value), stuck);
        }
        bypassApplied, bypassDestination, bypassGateway, bypassLuid := false, "", "", 0;
      }
    }
  }

  lemma Unions(t: set<Row>, a: set<Row>, b: set<Row>, c: set<Row>, stuck: set<Row>)
    ensures t - (a - stuck) - (b - stuck) - (c - stuck) == t - (a + b + c - stuck)
  {
  }
}
