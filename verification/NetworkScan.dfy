/**
 `scan_network` of `packages/gateway-rust/src/network_scan.rs`: which addresses a scan reports, what
 it says of them, and in which order. Everything the host answers is a value of `Answers`.
 */
module NetworkScan {
  import opened Prelude
  import opened Text
  import opened JsText
  import opened ArpTable
  import opened ScanRows
  import opened SortKey

  // ----- the subnets -----

  predicate ValidGroups(parts: seq<string>, n: nat) {
    |parts| == n && forall i :: 0 <= i < n ==> IsValidOctet(parts[i])
  }

  /** A `/24` network, a full address, or its first three groups. */
  function NormalizeSubnetPrefix(value: string): Option<string> {
    var t := Trim(value, AppSpace);
    if |t| >= 3 && t[|t| - 3..] == "/24" then
      var parts := Split(t[..|t| - 3], '.');
      if ValidGroups(parts, 4) then Some(Join(parts[..3], '.')) else None
    else
      var parts := Split(t, '.');
      if ValidGroups(parts, 4) then Some(Join(parts[..3], '.'))
      else if ValidGroups(parts, 3) then Some(t)
      else None
  }

  function PrefixesOf(interfaces: seq<LocalInterface>): seq<string> {
    if interfaces == [] then []
    else
      var i := interfaces[|interfaces| - 1];
      var parts := Split(i.address, '.');
      PrefixesOf(interfaces[..|interfaces| - 1]) + if Scanned(i) && |parts| == 4 then [Join(parts[..3], '.')] else []
  }

  function Subnets(requested: Option<string>, interfaces: seq<LocalInterface>): seq<string> {
    var one := if requested.Some? then NormalizeSubnetPrefix(requested.value) else None;
    if one.Some? then [one.value] else Dedup(PrefixesOf(interfaces))
  }

  predicate InScope(ip: string, subnets: seq<string>) {
    exists s :: s in subnets && s + "." <= ip
  }

  // ----- what the host answers -----

  /** The neighbour tables read before and after the sweep; for an address whether it answered a ping
      (`Some(true)`), only an open port (`Some(false)`) or nothing; whether the detail pass finds an
      open port; and the router. */
  datatype Answers = Answers(
    first: seq<HostEntry>,
    second: seq<HostEntry>,
    discover: string -> Option<bool>,
    open: string -> bool,
    router: Option<string>)

  datatype Options = Options(subnet: Option<string>, deep: Option<bool>, includeIps: seq<string>)

  datatype Host = Host(ip: string, mac: Option<string>, isRouter: bool, alive: bool)

  datatype ScanError = NoActiveSubnets

  // ----- the stages -----

  /** The candidates that are not known yet and answer. */
  function Discovered(candidates: seq<string>, known: set<string>, discover: string -> Option<bool>): seq<HostEntry> {
    if candidates == [] then []
    else
      var ip := candidates[|candidates| - 1];
      Discovered(candidates[..|candidates| - 1], known, discover)
      + if ip !in known && discover(ip).Some? then [HostEntry(ip, None, discover(ip).value)] else []
  }

  function Candidates(subnets: seq<string>, interfaces: seq<LocalInterface>, wanted: seq<string>): seq<string> {
    Dedup(SubnetIps(subnets) + LocalIps(interfaces) + wanted)
  }

  function Rows(subnets: seq<string>, interfaces: seq<LocalInterface>, wanted: seq<string>, deep: bool, a: Answers): seq<HostEntry> {
    if deep then
      var known := set ip | ip in Ips(a.first);
      a.first + Discovered(Candidates(subnets, interfaces, wanted), known, a.discover) + a.second
    else a.first
  }

  function InScopeRows(rows: seq<HostEntry>, wanted: seq<string>, subnets: seq<string>): seq<HostEntry> {
    if rows == [] then []
    else
      var row := rows[|rows| - 1];
      InScopeRows(rows[..|rows| - 1], wanted, subnets)
      + if row.ip in wanted || InScope(row.ip, subnets) then [row] else []
  }

  function Missing(wanted: seq<string>, present: set<string>): seq<HostEntry> {
    if wanted == [] then []
    else
      var ip := wanted[|wanted| - 1];
      Missing(wanted[..|wanted| - 1], present) + if ip !in present then [HostEntry(ip, None, false)] else []
  }

  function Scoped(rows: seq<HostEntry>, wanted: seq<string>, subnets: seq<string>): seq<HostEntry> {
    var kept := InScopeRows(Merged(rows), wanted, subnets);
    kept + Missing(wanted, set ip | ip in Ips(kept))
  }

  function Detail(e: HostEntry, a: Answers): Host {
    Host(e.ip, e.mac, a.router == Some(e.ip), e.responsive || a.open(e.ip))
  }

  function Details(rows: seq<HostEntry>, a: Answers): seq<Host> {
    seq(|rows|, i requires 0 <= i < |rows| => Detail(rows[i], a))
  }

  // ----- the stable sort -----

  function Insert(sorted: seq<Host>, h: Host): seq<Host> {
    if sorted == [] || IpSortKey(sorted[|sorted| - 1].ip) <= IpSortKey(h.ip) then sorted + [h]
    else Insert(sorted[..|sorted| - 1], h) + [sorted[|sorted| - 1]]
  }

  function SortByKey(hosts: seq<Host>): seq<Host> {
    if hosts == [] then [] else Insert(SortByKey(hosts[..|hosts| - 1]), hosts[|hosts| - 1])
  }

  // ----- the scan -----

  function ScanResult(options: Options, interfaces: seq<LocalInterface>, a: Answers): Result<seq<Host>, ScanError> {
    var subnets := Subnets(options.subnet, interfaces);
    var wanted := Dedup(WantedIps(options.includeIps));
    if subnets == [] then Err(NoActiveSubnets)
    else
      var rows := Rows(subnets, interfaces, wanted, options.deep != Some(false), a);
      Ok(SortByKey(Details(Scoped(rows, wanted, subnets), a)))
  }

  /** The sweep: what was read first, the candidates that answer, and what is read after them. */
  method Sweep(subnets: seq<string>, interfaces: seq<LocalInterface>, wanted: seq<string>, a: Answers)
    returns (rows: seq<HostEntry>)
    ensures rows == Rows(subnets, interfaces, wanted, true, a)
  {
    hide Dedup, LocalIps, SubnetIps;
    rows := a.first;
    var known := set ip | ip in Ips(rows);
    var candidates := BuildSubnetCandidates(subnets, interfaces);
    ghost var base := SubnetIps(subnets) + LocalIps(interfaces);
    assert base + wanted[..0] == base;
    for i := 0 to |wanted|
      invariant candidates == Dedup(base + wanted[..i])
    {
      assert base + wanted[..i + 1] == base + wanted[..i] + [wanted[i]];
      DedupStep(base + wanted[..i], wanted[i]);
      if wanted[i] !in candidates {
        candidates := candidates + [wanted[i]];
      }
    }
    assert wanted[..|wanted|] == wanted;
    for i := 0 to |candidates|
      invariant rows == a.first + Discovered(candidates[..i], known, a.discover)
    {
      assert candidates[..i + 1][..i] == candidates[..i];
      var ip := candidates[i];
      if ip !in known && a.discover(ip).Some? {
        rows := rows + [HostEntry(ip, None, a.discover(ip).value)];
      }
    }
    assert candidates[..|candidates|] == candidates;
    rows := rows + a.second;
  }

  /** The merged rows in scope, then the requested addresses that are not among them. */
  method Scope(rows: seq<HostEntry>, wanted: seq<string>, subnets: seq<string>) returns (scoped: seq<HostEntry>)
    ensures scoped == Scoped(rows, wanted, subnets)
  {
    hide Merged, InScope;
    var merged := MergeEntries(rows);
    scoped := InScopeRows(merged, wanted, subnets);
    var present := set ip | ip in Ips(scoped);
    ghost var kept := scoped;
    for i := 0 to |wanted|
      invariant scoped == kept + Missing(wanted[..i], present)
    {
      assert wanted[..i + 1][..i] == wanted[..i];
      if wanted[i] !in present {
        scoped := scoped + [HostEntry(wanted[i], None, false)];
      }
    }
    assert wanted[..|wanted|] == wanted;
  }

  method ScanNetwork(options: Options, interfaces: seq<LocalInterface>, a: Answers)
    returns (r: Result<seq<Host>, ScanError>)
    ensures r == ScanResult(options, interfaces, a)
  {
    hide Rows, Scoped, SortByKey, Subnets, WantedIps, Dedup;
    var subnets := Subnets(options.subnet, interfaces);
    if subnets == [] {
      return Err(NoActiveSubnets);
    }
    var wanted := NormalizeIps(options.includeIps);
    var rows;
    if options.deep != Some(false) {
      rows := Sweep(subnets, interfaces, wanted, a);
    } else {
      rows := a.first;
      ShallowRows(subnets, interfaces, wanted, a);
    }
    var scoped := Scope(rows, wanted, subnets);
    r := Ok(SortByKey(Details(scoped, a)));
  }

  lemma ShallowRows(subnets: seq<string>, interfaces: seq<LocalInterface>, wanted: seq<string>, a: Answers)
    ensures Rows(subnets, interfaces, wanted, false, a) == a.first
  {
  }
}
