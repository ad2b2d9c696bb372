/** `SmartRouteManager`: refresh passes over the route lists, and the set of routes they maintain. */
module SmartRoutes {
  import opened Bytes
  import opened InnerFrame
  import opened Ipv4
  import opened NetConfig
  import opened RouteRestoration
  import opened TextLists

  datatype Options = Options(luid: u64, gateway: string)

  /** A destination in dotted form and its prefix length. */
  type Target = (string, nat)

  /** The targets of the CIDR entries that parse. */
  function CidrTargets(inet: Inet, texts: seq<string>): seq<Target> {
    if texts == [] then []
    else
      var n := |texts| - 1;
      var t := ParseCidr(inet, texts[n]);
      CidrTargets(inet, texts[..n]) + if t.Some? then [t.value] else []
  }

  /** The targets of resolved addresses that can be written down. */
  function AddressTargets(inet: Inet, addresses: seq<u32>): seq<Target> {
    if addresses == [] then []
    else
      var n := |addresses| - 1;
      var s := inet.format(addresses[n]);
      AddressTargets(inet, addresses[..n]) + if s.Some? && s.value != "" then [(s.value, 32)] else []
  }

  /** `dns` gives the addresses found for a domain, over all host names tried for it. */
  function DomainTargets(inet: Inet, dns: string -> seq<u32>, domains: seq<string>): seq<Target> {
    if domains == [] then []
    else
      var n := |domains| - 1;
      DomainTargets(inet, dns, domains[..n]) + AddressTargets(inet, dns(domains[n]))
  }

  lemma DomainTargetsSnoc(inet: Inet, dns: string -> seq<u32>, domains: seq<string>, i: nat, done: seq<Target>)
    requires i < |domains|
    ensures done + DomainTargets(inet, dns, domains[..i + 1])
         == (done + DomainTargets(inet, dns, domains[..i])) + AddressTargets(inet, dns(domains[i]))
  {
    assert domains[..i + 1][..i] == domains[..i];
  }

  function ApplyAll(inet: Inet, os: Answers, h: Host, o: Options, targets: seq<Target>): Host {
    if targets == [] then h
    else
      var n := |targets| - 1;
      ApplyPrefix(inet, os, ApplyAll(inet, os, h, o, targets[..n]), o.luid, targets[n].0, targets[n].1, o.gateway).0
  }

  lemma ApplyAllSnoc(inet: Inet, os: Answers, h: Host, o: Options, targets: seq<Target>, t: Target)
    ensures ApplyAll(inet, os, h, o, targets + [t])
         == ApplyPrefix(inet, os, ApplyAll(inet, os, h, o, targets), o.luid, t.0, t.1, o.gateway).0
  {
    assert (targets + [t])[..|targets|] == targets;
  }

  /** A list as configured: an empty path, a file that cannot be opened, or its text. */
  datatype ListFile = NoPath | Missing | Content(text: string)

  /** The two lists the manager holds. */
  datatype Lists = Lists(domains: seq<string>, cidrs: seq<string>)

  /** An empty path leaves the list of an earlier start; a missing file empties it and is an error. */
  function LoadList(file: ListFile, previous: seq<string>): (seq<string>, bool) {
    match file
    case NoPath => (previous, true)
    case Missing => ([], false)
    case Content(text) => (Load(text), true)
  }

  /** The lists after both loads, and whether they can be used. A failed first load skips the second. */
  function LoadBoth(previous: Lists, domainFile: ListFile, cidrFile: ListFile): (Lists, bool) {
    var (domains, ok) := LoadList(domainFile, previous.domains);
    if !ok then (Lists(domains, previous.cidrs), false)
    else
      var (cidrs, ok') := LoadList(cidrFile, previous.cidrs);
      (Lists(domains, cidrs), ok' && (domains != [] || cidrs != []))
  }

  function ListTargets(inet: Inet, dns: string -> seq<u32>, lists: Lists): seq<Target> {
    CidrTargets(inet, lists.cidrs) + DomainTargets(inet, dns, lists.domains)
  }

  /** What a pass gets to see of the lists if a stop request is noticed after `patience` entries. */
  function Noticed(lists: Lists, patience: nat): Lists {
    var c := Least(patience, |lists.cidrs|);
    Lists(lists.domains[..Least(patience - c, |lists.domains|)], lists.cidrs[..c])
  }

  /** That is the first `patience` entries, CIDR blocks before domains. */
  lemma NoticedEntries(lists: Lists, patience: nat)
    ensures var part := Noticed(lists, patience);
            && part.cidrs <= lists.cidrs && part.domains <= lists.domains
            && |part.cidrs| + |part.domains| == Least(patience, |lists.cidrs| + |lists.domains|)
            && (part.domains != [] ==> part.cidrs == lists.cidrs)
  {
  }

  /** The targets of the first pass of a start that succeeds. */
  function StartTargets(inet: Inet, o: Options, previous: Lists, domainFile: ListFile, cidrFile: ListFile,
                        dns: string -> seq<u32>): Option<seq<Target>> {
    var (lists, ok) := LoadBoth(previous, domainFile, cidrFile);
    if o.luid == 0 || !ok then None else Some(ListTargets(inet, dns, lists))
  }

  /** The entries that a configured list has after loading. */
  predicate HoldsList(file: ListFile, previous: seq<string>, list: seq<string>) {
    (file.NoPath? ==> list == previous) && (file.Missing? ==> list == []) && (file.Content? ==> list == Load(file.text))
  }

  /** The lists can be used exactly when neither file is missing and one of the two has an entry. The first file holds
      domains and the second CIDR blocks; an empty path keeps the list of an earlier start. */
  lemma LoadsBoth(previous: Lists, domainFile: ListFile, cidrFile: ListFile)
    ensures var (lists, ok) := LoadBoth(previous, domainFile, cidrFile);
            && HoldsList(domainFile, previous.domains, lists.domains)
            && (!domainFile.Missing? ==> HoldsList(cidrFile, previous.cidrs, lists.cidrs))
            && (domainFile.Missing? ==> lists.cidrs == previous.cidrs)
            && (ok <==> !domainFile.Missing? && !cidrFile.Missing? && (lists.domains != [] || lists.cidrs != []))
  {
  }

  // ---------------------------------------------------------------- the manager

  class SmartRouteManager {
    const net: WindowsNetConfigurator
    var options: Options
    var domains: seq<string>
    var cidrs: seq<string>
    var stopRequested: bool
    var workerRunning: bool
    var appliedRouteCount: nat

    constructor (net: WindowsNetConfigurator)
      ensures this.net == net && domains == [] && cidrs == [] && !stopRequested && !workerRunning
    {
      this.net, options := net, Options(0, "10.66.66.1");
      domains, cidrs, stopRequested, workerRunning, appliedRouteCount := [], [], false, false, 0;
    }

    /** `stop`: ask the worker to end and wait until it has. */
    method Stop()
      modifies this
      ensures stopRequested && !workerRunning
      ensures options == old(options) && domains == old(domains) && cidrs == old(cidrs)
    {
      stopRequested := true;
      workerRunning := false;
    }

    function Held(): Lists
      reads this
    {
      Lists(domains, cidrs)
    }

    /** `start`. */
    method Start(o: Options, domainFile: ListFile, cidrFile: ListFile, os: Answers, dns: string -> seq<u32>)
      returns (ok: bool)
      requires this as object != net && this as object != net.system
      modifies this, net, net.system
      ensures var targets := StartTargets(net.inet, o, old(Held()), domainFile, cidrFile, dns);
              && ok == targets.Some? && workerRunning == ok
              && net.View() == if ok then ApplyAll(net.inet, os, old(net.View()), o, targets.value) else old(net.View())
      ensures Held() == if o.luid == 0 then old(Held()) else LoadBoth(old(Held()), domainFile, cidrFile).0
      ensures options == if o.luid == 0 then old(options) else o
    {
      Stop();
      if o.luid == 0 {
        return false;
      }
      options := o;
      ok := LoadLists(domainFile, cidrFile);
      if !ok {
        return;
      }
      FirstPass(os, dns);
    }

    /** The first pass of a start, and the creation of the worker. */
    method FirstPass(os: Answers, dns: string -> seq<u32>)
      requires this as object != net && this as object != net.system
      modifies this, net, net.system
      ensures workerRunning && options == old(options) && Held() == old(Held())
      ensures net.View() == ApplyAll(net.inet, os, old(net.View()), options, ListTargets(net.inet, dns, Held()))
    {
      stopRequested := false;
      ApplyRoutesOnce(os, dns, |cidrs| + |domains|);
      assert Noticed(Held(), |cidrs| + |domains|) == Held();
      workerRunning := true;
    }

    method LoadLists(domainFile: ListFile, cidrFile: ListFile) returns (ok: bool)
      modifies this`domains, this`cidrs
      ensures (Held(), ok) == LoadBoth(old(Held()), domainFile, cidrFile)
    {
      ok, domains := ReadList(domainFile, domains);
      if !ok {
        return;
      }
      ok, cidrs := ReadList(cidrFile, cidrs);
      if !ok {
        return;
      }
      ok := domains != [] || cidrs != [];
    }

    method ReadList(file: ListFile, previous: seq<string>) returns (ok: bool, list: seq<string>)
      ensures (list, ok) == LoadList(file, previous)
    {
      if file.NoPath? {
        return true, previous;
      }
      ok, list := LoadListFile(if file.Content? then Some(file.text) else None);
    }

    /** `apply_routes_once`: one pass over both lists. A stop request from another thread is noticed after `patience`
        entries; one made before makes the pass do nothing. Only a complete pass updates the count. */
    method ApplyRoutesOnce(os: Answers, dns: string -> seq<u32>, patience: nat)
      requires this as object != net && this as object != net.system
      modifies this`appliedRouteCount, net, net.system
      ensures stopRequested ==> net.View() == old(net.View()) && appliedRouteCount == old(appliedRouteCount)
      ensures !stopRequested ==>
                && net.View() == ApplyAll(net.inet, os, old(net.View()), options,
                                          ListTargets(net.inet, dns, Noticed(Held(), patience)))
                && appliedRouteCount == (if patience < |cidrs| + |domains| then old(appliedRouteCount)
                                         else |net.selective|)
    {
      if stopRequested {
        return;
      }
      var complete := ApplyEntries(os, dns, patience);
      if complete {
        appliedRouteCount := |net.selective|;
      }
    }

    /** Both loops of the pass. */
    method ApplyEntries(os: Answers, dns: string -> seq<u32>, patience: nat) returns (complete: bool)
      requires this as object != net && this as object != net.system
      modifies net, net.system
      ensures complete == (patience >= |cidrs| + |domains|)
      ensures net.View() == ApplyAll(net.inet, os, old(net.View()), options,
                                     ListTargets(net.inet, dns, Noticed(Held(), patience)))
    {
      ghost var h := net.View();
      var c := ApplyCidrs(os, patience);
      var d := ApplyDomains(os, dns, patience - c, h, CidrTargets(net.inet, cidrs[..c]));
      complete := c == |cidrs| && d == |domains|;
    }

    method ApplyCidrs(os: Answers, patience: nat) returns (done: nat)
      requires this as object != net && this as object != net.system
      modifies net, net.system
      ensures done == Least(patience, |cidrs|)
      ensures net.View() == ApplyAll(net.inet, os, old(net.View()), options, CidrTargets(net.inet, cidrs[..done]))
    {
      ghost var h := net.View();
      done := 0;
      while done < |cidrs|
        invariant done <= Least(patience, |cidrs|)
        invariant net.View() == ApplyAll(net.inet, os, h, options, CidrTargets(net.inet, cidrs[..done]))
      {
        if done == patience {
          return;
        }
        assert cidrs[..done + 1][..done] == cidrs[..done];
        var parsed := ParseCidrPrefix(net.inet, cidrs[done]);
        if parsed.Some? {
          ApplyAllSnoc(net.inet, os, h, options, CidrTargets(net.inet, cidrs[..done]), parsed.value);
          var ignored := net.ApplyPrefixRoute(os, options.luid, parsed.value.0, parsed.value.1, options.gateway);
        } else {
          assert CidrTargets(net.inet, cidrs[..done + 1]) == CidrTargets(net.inet, cidrs[..done]);
        }
        done := done + 1;
      }
    }

    method ApplyDomains(os: Answers, dns: string -> seq<u32>, patience: nat, ghost h: Host, ghost before: seq<Target>)
      returns (done: nat)
      requires this as object != net && this as object != net.system
      requires net.View() == ApplyAll(net.inet, os, h, options, before)
      modifies net, net.system
      ensures done == Least(patience, |domains|)
      ensures net.View() == ApplyAll(net.inet, os, h, options, before + DomainTargets(net.inet, dns, domains[..done]))
    {
      done := 0;
      assert before + DomainTargets(net.inet, dns, domains[..0]) == before;
      while done < |domains|
        invariant done <= Least(patience, |domains|)
        invariant net.View() == ApplyAll(net.inet, os, h, options,
                                         before + DomainTargets(net.inet, dns, domains[..done]))
      {
        if done == patience {
          return;
        }
        DomainTargetsSnoc(net.inet, dns, domains, done, before);
        ResolveAndApply(os, dns(domains[done]), h, before + DomainTargets(net.inet, dns, domains[..done]));
        done := done + 1;
      }
    }

    /** One domain: a route for each address found. */
    method ResolveAndApply(os: Answers, addresses: seq<u32>, ghost h: Host, ghost done: seq<Target>)
      requires this as object != net && this as object != net.system
      requires net.View() == ApplyAll(net.inet, os, h, options, done)
      modifies net, net.system
      ensures net.View() == ApplyAll(net.inet, os, h, options, done + AddressTargets(net.inet, addresses))
    {
      var k := 0;
      assert done + AddressTargets(net.inet, addresses[..0]) == done;
      while k < |addresses|
        invariant 0 <= k <= |addresses|
        invariant net.View() == ApplyAll(net.inet, os, h, options, done + AddressTargets(net.inet, addresses[..k]))
      {
        assert addresses[..k + 1][..k] == addresses[..k];
        ghost var before := done + AddressTargets(net.inet, addresses[..k]);
        var dotted := net.inet.format(addresses[k]);
        assert done + AddressTargets(net.inet, addresses[..k + 1])
            == before + if dotted.Some? && dotted.value != "" then [(dotted.value, 32)] else [];
        if dotted.Some? && dotted.value != "" {
          ApplyAllSnoc(net.inet, os, h, options, before, (dotted.value, 32));
          var ignored := net.ApplyPrefixRoute(os, options.luid, dotted.value, 32, options.gateway);
        } else {
          assert done + AddressTargets(net.inet, addresses[..k + 1]) == before;
        }
        k := k + 1;
      }
      assert addresses[..k] == addresses;
    }
  }

  // ---------------------------------------------------------------- passes maintain a set

  ghost function KeySet(keys: seq<Key>): set<Key> { set k | k in keys }

  predicate NoDup(keys: seq<Key>) { forall i, j :: 0 <= i < j < |keys| ==> keys[i] != keys[j] }

  lemma {:induction false} CountDistinct(keys: seq<Key>)
    requires NoDup(keys)
    ensures |KeySet(keys)| == |keys|
  {
    if keys != [] {
      var n := |keys| - 1;
      CountDistinct(keys[..n]);
      assert KeySet(keys) == KeySet(keys[..n]) + {keys[n]};
    }
  }

  /** The keys of the targets whose rows the system takes. */
  ghost function Wanted(inet: Inet, os: Answers, o: Options, targets: seq<Target>): set<Key> {
    if targets == [] then {}
    else
      var n := |targets| - 1;
      Wanted(inet, os, o, targets[..n]) + Mine(inet, os, o, targets[n])
  }

  /** The key of a target whose row the system takes. */
  function Mine(inet: Inet, os: Answers, o: Options, t: Target): set<Key> {
    var route := PrefixRoute(inet, o.luid, t.0, t.1, o.gateway);
    if route.Some? && os(route.value.1) then {route.value.0} else {}
  }

  /** One application adds the target's key, if the system takes its row, and nothing else. */
  lemma PrefixKeys(inet: Inet, os: Answers, h: Host, o: Options, t: Target)
    requires NoDup(h.net.selective)
    ensures var h' := ApplyPrefix(inet, os, h, o.luid, t.0, t.1, o.gateway).0;
            && NoDup(h'.net.selective)
            && KeySet(h'.net.selective) == KeySet(h.net.selective) + Mine(inet, os, o, t)
            && (Mine(inet, os, o, t) <= KeySet(h.net.selective) ==> h' == h)
  {
  }

  /** `after` is what a pass that wants `wanted` makes of `h`. */
  ghost predicate Refined(h: Host, after: Host, wanted: set<Key>) {
    && NoDup(after.net.selective)
    && KeySet(after.net.selective) == KeySet(h.net.selective) + wanted
    && (wanted <= KeySet(h.net.selective) ==> after == h)
  }

  lemma RefinedStep(h: Host, mid: Host, after: Host, wanted: set<Key>, mine: set<Key>)
    requires Refined(h, mid, wanted) && Refined(mid, after, mine)
    ensures Refined(h, after, wanted + mine)
  {
  }

  /** A pass refines a set: the recorded list has no duplicates, it holds what it held and the keys the pass
      applied, and a pass that wants nothing new changes nothing. */
  lemma {:induction false} PassRefinesSet(inet: Inet, os: Answers, h: Host, o: Options, targets: seq<Target>)
    requires NoDup(h.net.selective)
    ensures Refined(h, ApplyAll(inet, os, h, o, targets), Wanted(inet, os, o, targets))
    decreases |targets|
  {
    if targets != [] {
      var n := |targets| - 1;
      PassRefinesSet(inet, os, h, o, targets[..n]);
      var mid := ApplyAll(inet, os, h, o, targets[..n]);
      PrefixKeys(inet, os, mid, o, targets[n]);
      RefinedStep(h, mid, ApplyAll(inet, os, h, o, targets), Wanted(inet, os, o, targets[..n]),
                  Mine(inet, os, o, targets[n]));
    }
  }

  /** Repeating a pass with the same answers changes nothing, in the record or in the table. */
  lemma PassIsIdempotent(inet: Inet, os: Answers, h: Host, o: Options, targets: seq<Target>)
    requires NoDup(h.net.selective)
    ensures var h' := ApplyAll(inet, os, h, o, targets); ApplyAll(inet, os, h', o, targets) == h'
  {
    PassRefinesSet(inet, os, h, o, targets);
    PassRefinesSet(inet, os, ApplyAll(inet, os, h, o, targets), o, targets);
  }

  datatype Refresh = Refresh(os: Answers, targets: seq<Target>)

  function Refreshes(inet: Inet, h: Host, o: Options, passes: seq<Refresh>): Host {
    if passes == [] then h
    else
      var n := |passes| - 1;
      ApplyAll(inet, passes[n].os, Refreshes(inet, h, o, passes[..n]), o, passes[n].targets)
  }

  ghost function EverWanted(inet: Inet, o: Options, passes: seq<Refresh>): set<Key> {
    if passes == [] then {}
    else
      var n := |passes| - 1;
      EverWanted(inet, o, passes[..n]) + Wanted(inet, passes[n].os, o, passes[n].targets)
  }

  /** Over any number of passes, with any lists and answers: the number of recorded routes is the number of
      distinct keys successfully applied since the list was empty. */
  lemma {:induction false} RefreshesRefineSet(inet: Inet, h: Host, o: Options, passes: seq<Refresh>)
    requires h.net.selective == []
    ensures var keys := Refreshes(inet, h, o, passes).net.selective;
            && NoDup(keys)
            && KeySet(keys) == EverWanted(inet, o, passes)
            && |keys| == |EverWanted(inet, o, passes)|
    decreases |passes|
  {
    if passes == [] {
      assert KeySet([]) == {};
    } else {
      var n := |passes| - 1;
      RefreshesRefineSet(inet, h, o, passes[..n]);
      PassRefinesSet(inet, passes[n].os, Refreshes(inet, h, o, passes[..n]), o, passes[n].targets);
    }
    CountDistinct(Refreshes(inet, h, o, passes).net.selective);
  }

  // ---------------------------------------------------------------- where the CIDR list sends an address

  /** A row of the tunnel, with prefix length `q`, matches `x`. */
  ghost predicate TunnelAt(table: set<Row>, luid: u64, x: u32, q: int) {
    exists r :: r in table && r.luid == luid && r.prefix == q && Matches(r, x)
  }

  /** A row of the tunnel is a longest match for `x`. */
  ghost predicate ToTunnel(table: set<Row>, luid: u64, x: u32) {
    exists r :: LongestMatch(table, x, r) && r.luid == luid
  }

  /** No other interface has a longer match for `x` than `q`. */
  ghost predicate Unbeaten(table: set<Row>, luid: u64, x: u32, q: int) {
    forall r :: r in table && r.luid != luid && Matches(r, x) ==> r.prefix <= q
  }

  lemma LongestTunnelRow(table: set<Row>, luid: u64, x: u32, r: Row)
    requires r in table && r.luid == luid && Matches(r, x) && Unbeaten(table, luid, x, r.prefix)
    ensures ToTunnel(table, luid, x)
    decreases 32 - r.prefix
  {
    if !LongestMatch(table, x, r) {
      var longer :| longer in table && Matches(longer, x) && longer.prefix > r.prefix;
      LongestTunnelRow(table, luid, x, longer);
    }
  }

  lemma ToTunnelIff(table: set<Row>, luid: u64, x: u32)
    ensures ToTunnel(table, luid, x) <==> exists q :: TunnelAt(table, luid, x, q) && Unbeaten(table, luid, x, q)
  {
    if r :| LongestMatch(table, x, r) && r.luid == luid {
      assert TunnelAt(table, luid, x, r.prefix) && Unbeaten(table, luid, x, r.prefix);
    }
    if q :| TunnelAt(table, luid, x, q) && Unbeaten(table, luid, x, q) {
      var r :| r in table && r.luid == luid && r.prefix == q && Matches(r, x);
      LongestTunnelRow(table, luid, x, r);
    }
  }

  /** A list entry parses, with prefix length `q`; `x` agrees with its address on the first `q` bits; and the system
      takes its row. */
  predicate EntryAt(inet: Inet, os: Answers, o: Options, text: string, x: u32, q: int) {
    match CidrOf(inet, text)
    case None => false
    case Some((a, p)) =>
      && p == q && x / Size(p) == a / Size(p)
      && o.luid != 0 && inet.parse(o.gateway).Some? && os(Row(o.luid, Masked(a, p), p, inet.parse(o.gateway).value))
  }

  ghost predicate Any(p: string -> bool, texts: seq<string>) {
    exists i :: 0 <= i < |texts| && p(texts[i])
  }

  ghost predicate ListedAt(inet: Inet, os: Answers, o: Options, texts: seq<string>, x: u32, q: int) {
    Any((text: string) => EntryAt(inet, os, o, text, x, q), texts)
  }

  /** `after` differs from `before` in tunnel rows only, and those match `x` with prefix length `q` that did before or
      as `listed` says. */
  ghost predicate Covers(before: set<Row>, after: set<Row>, luid: u64, x: u32, q: int, listed: bool) {
    && (forall r: Row :: r.luid != luid ==> (r in after <==> r in before))
    && (TunnelAt(after, luid, x, q) <==> TunnelAt(before, luid, x, q) || listed)
  }

  lemma EntryCovers(inet: Inet, os: Answers, h: Host, o: Options, text: string, x: u32, q: int)
    requires inet.Lawful() && Recorded(inet, h.net) <= h.table && ParseCidr(inet, text).Some?
    ensures var t := ParseCidr(inet, text).value;
            var h' := ApplyPrefix(inet, os, h, o.luid, t.0, t.1, o.gateway).0;
            && Recorded(inet, h'.net) <= h'.table
            && Covers(h.table, h'.table, o.luid, x, q, EntryAt(inet, os, o, text, x, q))
  {
    var t := ParseCidr(inet, text).value;
    EntryRow(inet, os, o, text, x, q);
    PrefixTable(inet, os, h, o.luid, t.0, t.1, o.gateway);
    AddsRows(h.table, PrefixTaken(inet, os, o.luid, t.0, t.1, o.gateway), o.luid, x, q);
  }

  lemma EntryRow(inet: Inet, os: Answers, o: Options, text: string, x: u32, q: int)
    requires inet.Lawful() && ParseCidr(inet, text).Some?
    ensures var t := ParseCidr(inet, text).value;
            var taken := PrefixTaken(inet, os, o.luid, t.0, t.1, o.gateway);
            && (forall r :: r in taken ==> r.luid == o.luid)
            && (TunnelAt(taken, o.luid, x, q) <==> EntryAt(inet, os, o, text, x, q))
  {
    var (a, p) := CidrOf(inet, text).value;
    var t := ParseCidr(inet, text).value;
    assert inet.parse(t.0) == Some(Masked(a, p)) && t.1 == p;
    MaskedTwice(a, p);
    SharesPrefix(x, a, p);
    var g := inet.parse(o.gateway);
    if o.luid != 0 && g.Some? {
      var row := Row(o.luid, Masked(a, p), p, g.value);
      assert PrefixRoute(inet, o.luid, t.0, t.1, o.gateway).value.1 == row;
      assert Matches(row, x) <==> x / Size(p) == a / Size(p);
    }
  }

  lemma AddsRows(table: set<Row>, added: set<Row>, luid: u64, x: u32, q: int)
    requires forall r :: r in added ==> r.luid == luid
    ensures Covers(table, table + added, luid, x, q, TunnelAt(added, luid, x, q))
  {
  }

  lemma {:induction false} PassCovers(inet: Inet, os: Answers, h: Host, o: Options, texts: seq<string>, x: u32, q: int)
    requires inet.Lawful() && Recorded(inet, h.net) <= h.table
    ensures var h' := ApplyAll(inet, os, h, o, CidrTargets(inet, texts));
            && Recorded(inet, h'.net) <= h'.table
            && Covers(h.table, h'.table, o.luid, x, q, ListedAt(inet, os, o, texts, x, q))
    decreases |texts|
  {
    if texts != [] {
      var n := |texts| - 1;
      var init := texts[..n];
      PassCovers(inet, os, h, o, init, x, q);
      AnySnoc((text: string) => EntryAt(inet, os, o, text, x, q), texts);
      var t := ParseCidr(inet, texts[n]);
      if t.Some? {
        EntryCovers(inet, os, ApplyAll(inet, os, h, o, CidrTargets(inet, init)), o, texts[n], x, q);
        ApplyAllSnoc(inet, os, h, o, CidrTargets(inet, init), t.value);
      } else {
        assert CidrTargets(inet, texts) == CidrTargets(inet, init);
        assert CidrOf(inet, texts[n]).None?;
      }
    }
  }

  lemma AnySnoc(p: string -> bool, texts: seq<string>)
    requires texts != []
    ensures var n := |texts| - 1; Any(p, texts) <==> Any(p, texts[..n]) || p(texts[n])
  {
    var n := |texts| - 1;
    if Any(p, texts[..n]) {
      var i :| 0 <= i < n && p(texts[..n][i]);
      assert texts[i] == texts[..n][i];
    }
    if Any(p, texts) && !p(texts[n]) {
      var i :| 0 <= i < |texts| && p(texts[i]);
      assert texts[..n][i] == texts[i];
    }
  }

  lemma {:induction false} ApplyAllAppend(inet: Inet, os: Answers, h: Host, o: Options, a: seq<Target>, b: seq<Target>)
    ensures ApplyAll(inet, os, h, o, a + b) == ApplyAll(inet, os, ApplyAll(inet, os, h, o, a), o, b)
    decreases |b|
  {
    if b == [] {
      assert a + b == a;
    } else {
      var n := |b| - 1;
      ApplyAllAppend(inet, os, h, o, a, b[..n]);
      assert (a + b)[..|a + b| - 1] == a + b[..n];
    }
  }

  lemma CoversBoth(a: set<Row>, b: set<Row>, c: set<Row>, luid: u64, x: u32, q: int, first: bool, second: bool)
    requires Covers(a, b, luid, x, q, first) && Covers(b, c, luid, x, q, second)
    ensures Covers(a, c, luid, x, q, first || second)
  {
  }

  /** The system takes a host route for `x` into the tunnel. */
  predicate HostAt(inet: Inet, os: Answers, o: Options, x: u32, q: int) {
    q == 32 && o.luid != 0 && inet.parse(o.gateway).Some? && os(Row(o.luid, x, 32, inet.parse(o.gateway).value))
  }

  /** One resolved address. */
  lemma AddressCovers(inet: Inet, os: Answers, h: Host, o: Options, a: u32, x: u32, q: int)
    requires inet.Lawful() && Recorded(inet, h.net) <= h.table
    ensures var h' := ApplyPrefix(inet, os, h, o.luid, inet.format(a).value, 32, o.gateway).0;
            && Recorded(inet, h'.net) <= h'.table
            && Covers(h.table, h'.table, o.luid, x, q, a == x && HostAt(inet, os, o, x, q))
  {
    var dotted := inet.format(a).value;
    assert inet.parse(dotted) == Some(a);
    PrefixTable(inet, os, h, o.luid, dotted, 32, o.gateway);
    var taken := PrefixTaken(inet, os, o.luid, dotted, 32, o.gateway);
    AddsRows(h.table, taken, o.luid, x, q);
    HostTakenAt(inet, os, o, a, x, q);
  }

  lemma HostTakenAt(inet: Inet, os: Answers, o: Options, a: u32, x: u32, q: int)
    requires inet.Lawful()
    ensures var taken := PrefixTaken(inet, os, o.luid, inet.format(a).value, 32, o.gateway);
            && (forall r :: r in taken ==> r.luid == o.luid)
            && (TunnelAt(taken, o.luid, x, q) <==> a == x && HostAt(inet, os, o, x, q))
  {
    assert inet.parse(inet.format(a).value) == Some(a);
    var g := inet.parse(o.gateway);
    if o.luid != 0 && g.Some? {
      var row := Row(o.luid, a, 32, g.value);
      assert PrefixRoute(inet, o.luid, inet.format(a).value, 32, o.gateway).value.1 == row;
      assert Matches(row, x) <==> a == x;
    }
  }

  lemma {:induction false} AddressesCover(inet: Inet, os: Answers, h: Host, o: Options, addresses: seq<u32>, x: u32,
                                          q: int)
    requires inet.Lawful() && Recorded(inet, h.net) <= h.table
    ensures var h' := ApplyAll(inet, os, h, o, AddressTargets(inet, addresses));
            && Recorded(inet, h'.net) <= h'.table
            && Covers(h.table, h'.table, o.luid, x, q, x in addresses && HostAt(inet, os, o, x, q))
    decreases |addresses|
  {
    if addresses != [] {
      var n := |addresses| - 1;
      AddressesCover(inet, os, h, o, addresses[..n], x, q);
      var mid := ApplyAll(inet, os, h, o, AddressTargets(inet, addresses[..n]));
      AddressCovers(inet, os, mid, o, addresses[n], x, q);
      ApplyAllSnoc(inet, os, h, o, AddressTargets(inet, addresses[..n]), (inet.format(addresses[n]).value, 32));
      assert x in addresses <==> x in addresses[..n] || addresses[n] == x;
    }
  }

  /** Some listed domain resolves to `x`. */
  ghost predicate Resolved(dns: string -> seq<u32>, domains: seq<string>, x: u32) {
    Any((domain: string) => x in dns(domain), domains)
  }

  lemma {:induction false} DomainsCover(inet: Inet, os: Answers, h: Host, o: Options, dns: string -> seq<u32>,
                                        domains: seq<string>, x: u32, q: int)
    requires inet.Lawful() && Recorded(inet, h.net) <= h.table
    ensures var h' := ApplyAll(inet, os, h, o, DomainTargets(inet, dns, domains));
            && Recorded(inet, h'.net) <= h'.table
            && Covers(h.table, h'.table, o.luid, x, q, Resolved(dns, domains, x) && HostAt(inet, os, o, x, q))
    decreases |domains|
  {
    if domains != [] {
      var n := |domains| - 1;
      var init, last := DomainTargets(inet, dns, domains[..n]), AddressTargets(inet, dns(domains[n]));
      DomainsCover(inet, os, h, o, dns, domains[..n], x, q);
      AddressesCover(inet, os, ApplyAll(inet, os, h, o, init), o, dns(domains[n]), x, q);
      ApplyAllAppend(inet, os, h, o, init, last);
      AnySnoc((domain: string) => x in dns(domain), domains);
    }
  }

  /** The lists send `x` to the tunnel with prefix length `q`: by an entry that contains it, or by its own address. */
  ghost predicate SentAt(inet: Inet, os: Answers, o: Options, dns: string -> seq<u32>, lists: Lists, x: u32, q: int) {
    || ListedAt(inet, os, o, lists.cidrs, x, q)
    || (Resolved(dns, lists.domains, x) && HostAt(inet, os, o, x, q))
  }

  lemma ListsCover(inet: Inet, os: Answers, h: Host, o: Options, dns: string -> seq<u32>, lists: Lists, x: u32, q: int)
    requires inet.Lawful() && Recorded(inet, h.net) <= h.table
    ensures Covers(h.table, ApplyAll(inet, os, h, o, ListTargets(inet, dns, lists)).table, o.luid, x, q,
                   SentAt(inet, os, o, dns, lists, x, q))
  {
    var first, second := CidrTargets(inet, lists.cidrs), DomainTargets(inet, dns, lists.domains);
    PassCovers(inet, os, h, o, lists.cidrs, x, q);
    var mid := ApplyAll(inet, os, h, o, first);
    DomainsCover(inet, os, mid, o, dns, lists.domains, x, q);
    ApplyAllAppend(inet, os, h, o, first, second);
    CoversBoth(h.table, mid.table, ApplyAll(inet, os, mid, o, second).table, o.luid, x, q,
               ListedAt(inet, os, o, lists.cidrs, x, q), Resolved(dns, lists.domains, x) && HostAt(inet, os, o, x, q));
  }

  /** Where a pass over both lists sends an address, whatever the system and name resolution answer: a longest match
      for `x` is a tunnel row iff a CIDR entry that parses, contains `x` and is taken, or a host route for a domain
      that resolves to `x`, or a tunnel row that was there, has a prefix at least as long as every row of another
      interface that matches `x`. */
  lemma ListCoverage(inet: Inet, os: Answers, h: Host, o: Options, dns: string -> seq<u32>, lists: Lists, x: u32)
    requires inet.Lawful() && Recorded(inet, h.net) <= h.table
    ensures ToTunnel(ApplyAll(inet, os, h, o, ListTargets(inet, dns, lists)).table, o.luid, x)
            <==> exists q :: (SentAt(inet, os, o, dns, lists, x, q) || TunnelAt(h.table, o.luid, x, q))
                          && Unbeaten(h.table, o.luid, x, q)
  {
    var after := ApplyAll(inet, os, h, o, ListTargets(inet, dns, lists)).table;
    ToTunnelIff(after, o.luid, x);
    forall q
      ensures TunnelAt(after, o.luid, x, q)
              <==> SentAt(inet, os, o, dns, lists, x, q) || TunnelAt(h.table, o.luid, x, q)
      ensures Unbeaten(after, o.luid, x, q) <==> Unbeaten(h.table, o.luid, x, q)
    {
      ListsCover(inet, os, h, o, dns, lists, x, q);
    }
  }

  /** The entry parses, contains `x`, and its row is taken. */
  predicate InEntry(inet: Inet, os: Answers, o: Options, text: string, x: u32) {
    CidrOf(inet, text).Some? && EntryAt(inet, os, o, text, x, CidrOf(inet, text).value.1)
  }

  ghost predicate Listed(inet: Inet, os: Answers, o: Options, texts: seq<string>, x: u32) {
    exists i :: 0 <= i < |texts| && InEntry(inet, os, o, texts[i], x)
  }

  lemma ListedSomewhere(inet: Inet, os: Answers, o: Options, texts: seq<string>, x: u32)
    ensures Listed(inet, os, o, texts, x) <==> exists q :: 0 <= q && ListedAt(inet, os, o, texts, x, q)
  {
    if i :| 0 <= i < |texts| && InEntry(inet, os, o, texts[i], x) {
      assert ListedAt(inet, os, o, texts, x, CidrOf(inet, texts[i]).value.1);
    }
    if q :| 0 <= q && ListedAt(inet, os, o, texts, x, q) {
      var i :| 0 <= i < |texts| && EntryAt(inet, os, o, texts[i], x, q);
      assert InEntry(inet, os, o, texts[i], x);
    }
  }

  lemma ListedIsPrefix(inet: Inet, os: Answers, o: Options, texts: seq<string>, x: u32, q: int)
    requires ListedAt(inet, os, o, texts, x, q)
    ensures 0 <= q
  {
    var i :| 0 <= i < |texts| && EntryAt(inet, os, o, texts[i], x, q);
  }

  lemma SentSomewhere(inet: Inet, os: Answers, o: Options, dns: string -> seq<u32>, lists: Lists, x: u32)
    ensures (exists q :: 0 <= q && SentAt(inet, os, o, dns, lists, x, q))
            <==> Listed(inet, os, o, lists.cidrs, x) || (Resolved(dns, lists.domains, x) && HostAt(inet, os, o, x, 32))
    ensures forall q :: SentAt(inet, os, o, dns, lists, x, q) ==> 0 <= q
  {
    ListedSomewhere(inet, os, o, lists.cidrs, x);
    forall q | SentAt(inet, os, o, dns, lists, x, q) ensures 0 <= q {
      if ListedAt(inet, os, o, lists.cidrs, x, q) {
        ListedIsPrefix(inet, os, o, lists.cidrs, x, q);
      }
    }
    if q :| 0 <= q && ListedAt(inet, os, o, lists.cidrs, x, q) {
      assert SentAt(inet, os, o, dns, lists, x, q);
    }
    if Resolved(dns, lists.domains, x) && HostAt(inet, os, o, x, 32) {
      assert SentAt(inet, os, o, dns, lists, x, 32);
    }
  }

  /** If the other interfaces have only default routes for `x`, this comes down to: `x` lies in a listed block whose
      row is taken, or a listed domain resolves to it and its host route is taken, or `x` matched a tunnel row
      before. */
  lemma ListCoverageOverDefaults(inet: Inet, os: Answers, h: Host, o: Options, dns: string -> seq<u32>, lists: Lists,
                                 x: u32)
    requires inet.Lawful() && Recorded(inet, h.net) <= h.table
    requires forall r :: r in h.table && r.luid != o.luid && Matches(r, x) ==> r.prefix == 0
    ensures ToTunnel(ApplyAll(inet, os, h, o, ListTargets(inet, dns, lists)).table, o.luid, x)
            <==> || Listed(inet, os, o, lists.cidrs, x)
                 || (Resolved(dns, lists.domains, x) && HostAt(inet, os, o, x, 32))
                 || exists r :: r in h.table && r.luid == o.luid && Matches(r, x)
  {
    ListCoverage(inet, os, h, o, dns, lists, x);
    SentSomewhere(inet, os, o, dns, lists, x);
    forall q | 0 <= q ensures Unbeaten(h.table, o.luid, x, q) {
    }
    MatchedSomewhere(h.table, o.luid, x);
  }

  lemma MatchedSomewhere(table: set<Row>, luid: u64, x: u32)
    ensures (exists r :: r in table && r.luid == luid && Matches(r, x))
            <==> exists q :: 0 <= q && TunnelAt(table, luid, x, q)
    ensures forall q :: TunnelAt(table, luid, x, q) ==> 0 <= q
  {
    if r :| r in table && r.luid == luid && Matches(r, x) {
      assert TunnelAt(table, luid, x, r.prefix);
    }
  }
}
