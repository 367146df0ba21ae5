/** What every network scan promises, whatever the host answers. */
module ScanResults {
  import opened Prelude
  import opened Text
  import opened JsText
  import opened ArpScan
  import opened ArpTable
  import opened ScanRows
  import opened SortKey
  import opened NetworkScan

  // ----- the sort -----

  ghost predicate SortedByKey(hosts: seq<Host>) {
    forall i, j :: 0 <= i < j < |hosts| ==> IpSortKey(hosts[i].ip) <= IpSortKey(hosts[j].ip)
  }

  /** The hosts with one key, in their order. */
  function OfKey(hosts: seq<Host>, key: nat): seq<Host> {
    if hosts == [] then []
    else
      var h := hosts[|hosts| - 1];
      OfKey(hosts[..|hosts| - 1], key) + if IpSortKey(h.ip) == key then [h] else []
  }

  lemma OfKeySnoc(hosts: seq<Host>, h: Host, key: nat)
    ensures OfKey(hosts + [h], key) == OfKey(hosts, key) + if IpSortKey(h.ip) == key then [h] else []
  {
    assert (hosts + [h])[..|hosts|] == hosts;
  }

  lemma {:induction false} InsertMeans(sorted: seq<Host>, h: Host)
    requires SortedByKey(sorted)
    ensures SortedByKey(Insert(sorted, h)) && multiset(Insert(sorted, h)) == multiset(sorted) + multiset{h}
  {
    hide IpSortKey;
    if sorted != [] && IpSortKey(sorted[|sorted| - 1].ip) > IpSortKey(h.ip) {
      var p, last := sorted[..|sorted| - 1], sorted[|sorted| - 1];
      assert sorted == p + [last];
      InsertMeans(p, h);
      var r := Insert(p, h);
      forall i | 0 <= i < |r| ensures IpSortKey(r[i].ip) <= IpSortKey(last.ip) {
        assert r[i] in multiset(r);
        assert r[i] == h || r[i] in p;
      }
    }
  }

  lemma {:induction false} InsertStable(sorted: seq<Host>, h: Host, key: nat)
    requires SortedByKey(sorted)
    ensures OfKey(Insert(sorted, h), key) == OfKey(sorted + [h], key)
  {
    hide IpSortKey, OfKey;
    if sorted != [] && IpSortKey(sorted[|sorted| - 1].ip) > IpSortKey(h.ip) {
      var p, last := sorted[..|sorted| - 1], sorted[|sorted| - 1];
      assert sorted == p + [last];
      InsertStable(p, h, key);
      OfKeySnoc(Insert(p, h), last, key);
      OfKeySnoc(p, h, key);
      OfKeySnoc(p, last, key);
      OfKeySnoc(sorted, h, key);
    }
  }

  /** The sort keeps the hosts, orders them by key, and leaves equal keys in their order. */
  lemma {:induction false} SortMeans(hosts: seq<Host>)
    ensures SortedByKey(SortByKey(hosts)) && multiset(SortByKey(hosts)) == multiset(hosts)
    ensures forall key: nat :: OfKey(SortByKey(hosts), key) == OfKey(hosts, key)
  {
    hide IpSortKey, Insert;
    if hosts != [] {
      var p, h := hosts[..|hosts| - 1], hosts[|hosts| - 1];
      assert hosts == p + [h];
      SortMeans(p);
      InsertMeans(SortByKey(p), h);
      forall key: nat ensures OfKey(SortByKey(hosts), key) == OfKey(hosts, key) {
        InsertStable(SortByKey(p), h, key);
        OfKeySnoc(SortByKey(p), h, key);
      }
    }
  }

  // ----- the rows in scope -----

  /** The addresses a scan reports: the ones in scope it has rows of, then the other wanted ones. */
  function Kept(ips: seq<string>, wanted: seq<string>, subnets: seq<string>): seq<string> {
    if ips == [] then []
    else
      var ip := ips[|ips| - 1];
      Kept(ips[..|ips| - 1], wanted, subnets) + if ip in wanted || InScope(ip, subnets) then [ip] else []
  }

  function Others(wanted: seq<string>, kept: seq<string>): seq<string> {
    if wanted == [] then []
    else
      var ip := wanted[|wanted| - 1];
      Others(wanted[..|wanted| - 1], kept) + if ip !in kept then [ip] else []
  }

  lemma {:induction false} KeptMeans(ips: seq<string>, wanted: seq<string>, subnets: seq<string>)
    requires Distinct(ips)
    ensures var k := Kept(ips, wanted, subnets);
            && Distinct(k)
            && forall x :: x in k <==> x in ips && (x in wanted || InScope(x, subnets))
  {
    hide InScope;
    if ips != [] {
      var p := ips[..|ips| - 1];
      assert ips == p + [ips[|ips| - 1]];
      KeptMeans(p, wanted, subnets);
    }
  }

  lemma {:induction false} OthersMeans(wanted: seq<string>, kept: seq<string>)
    requires Distinct(wanted)
    ensures Distinct(Others(wanted, kept)) && forall x :: x in Others(wanted, kept) <==> x in wanted && x !in kept
  {
    if wanted != [] {
      var p := wanted[..|wanted| - 1];
      assert wanted == p + [wanted[|wanted| - 1]];
      OthersMeans(p, kept);
    }
  }

  lemma {:induction false} KeptRows(rows: seq<HostEntry>, keys: seq<string>, wanted: seq<string>, subnets: seq<string>)
    ensures InScopeRows(EntriesOf(rows, keys), wanted, subnets) == EntriesOf(rows, Kept(keys, wanted, subnets))
  {
    hide InScope;
    if keys != [] {
      var p := keys[..|keys| - 1];
      KeptRows(rows, p, wanted, subnets);
      assert EntriesOf(rows, keys)[..|keys| - 1] == EntriesOf(rows, p);
    }
  }

  lemma {:induction false} OtherRows(rows: seq<HostEntry>, wanted: seq<string>, kept: seq<string>, present: set<string>)
    requires forall x :: x in present <==> x in kept
    requires forall x :: x in wanted && x !in kept ==> InfoOf(rows, x) == Info(None, false)
    ensures Missing(wanted, present) == EntriesOf(rows, Others(wanted, kept))
  {
    if wanted != [] {
      OtherRows(rows, wanted[..|wanted| - 1], kept, present);
    }
  }

  function ScopeKeys(rows: seq<HostEntry>, wanted: seq<string>, subnets: seq<string>): seq<string> {
    var kept := Kept(Dedup(Ips(rows)), wanted, subnets);
    kept + Others(wanted, kept)
  }

  lemma EntryIps(rows: seq<HostEntry>, keys: seq<string>)
    ensures Ips(EntriesOf(rows, keys)) == keys
  {
  }

  lemma EntriesTwo(rows: seq<HostEntry>, a: seq<string>, b: seq<string>)
    ensures EntriesOf(rows, a + b) == EntriesOf(rows, a) + EntriesOf(rows, b)
  {
  }

  /** Each entry in scope says what all the rows say of its address. */
  lemma ScopedRows(rows: seq<HostEntry>, wanted: seq<string>, subnets: seq<string>)
    ensures Scoped(rows, wanted, subnets) == EntriesOf(rows, ScopeKeys(rows, wanted, subnets))
  {
    hide InScope, Dedup, InfoOf, Kept, Others, EntriesOf, Ips, InScopeRows, Missing;
    var keys := Dedup(Ips(rows));
    DedupMeans(Ips(rows));
    var kept := Kept(keys, wanted, subnets);
    KeptMeans(keys, wanted, subnets);
    KeptRows(rows, keys, wanted, subnets);
    EntryIps(rows, kept);
    EntriesTwo(rows, kept, Others(wanted, kept));
    forall x | x in wanted && x !in kept ensures InfoOf(rows, x) == Info(None, false) {
      Unmentioned(rows, x);
    }
    OtherRows(rows, wanted, kept, set ip | ip in kept);
  }

  lemma ScopeMeans(rows: seq<HostEntry>, wanted: seq<string>, subnets: seq<string>)
    requires Distinct(wanted)
    ensures var keys := ScopeKeys(rows, wanted, subnets);
            && Distinct(keys)
            && forall x :: x in keys <==> x in wanted || (x in Ips(rows) && InScope(x, subnets))
  {
    hide InScope, Dedup, Kept, Others;
    var ips := Dedup(Ips(rows));
    DedupMeans(Ips(rows));
    KeptMeans(ips, wanted, subnets);
    var kept := Kept(ips, wanted, subnets);
    OthersMeans(wanted, kept);
    var others := Others(wanted, kept);
    assert forall j :: 0 <= j < |others| ==> others[j] in others;
    assert forall x :: x in kept + others <==> x in kept || x in others;
  }

  // ----- every scan -----

  ghost predicate OneHostPerIp(hosts: seq<Host>) {
    forall i, j :: 0 <= i < j < |hosts| ==> hosts[i].ip != hosts[j].ip
  }

  predicate HasHost(hosts: seq<Host>, ip: string) {
    exists i :: 0 <= i < |hosts| && hosts[i].ip == ip
  }

  lemma {:induction false} SortKeepsOnePerIp(hosts: seq<Host>)
    requires OneHostPerIp(hosts)
    ensures OneHostPerIp(SortByKey(hosts))
  {
    hide Insert;
    if hosts != [] {
      var p, h := hosts[..|hosts| - 1], hosts[|hosts| - 1];
      SortKeepsOnePerIp(p);
      SortMeans(p);
      forall x | x in SortByKey(p) ensures x.ip != h.ip {
        assert x in multiset(SortByKey(p));
        assert x in p;
      }
      InsertOnePerIp(SortByKey(p), h);
    }
  }

  lemma {:induction false} InsertOnePerIp(sorted: seq<Host>, h: Host)
    requires OneHostPerIp(sorted) && forall x :: x in sorted ==> x.ip != h.ip
    ensures OneHostPerIp(Insert(sorted, h)) && forall x :: x in Insert(sorted, h) <==> x in sorted || x == h
  {
    hide IpSortKey;
    if sorted != [] && IpSortKey(sorted[|sorted| - 1].ip) > IpSortKey(h.ip) {
      var p, last := sorted[..|sorted| - 1], sorted[|sorted| - 1];
      assert sorted == p + [last];
      InsertOnePerIp(p, h);
      var r := Insert(p, h);
      assert last in sorted;
      forall i | 0 <= i < |r| ensures r[i].ip != last.ip {
        assert r[i] in r;
        assert r[i] == h || r[i] in p;
      }
    }
  }

  /** What a scan knows of an address: its rows, and the detail pass. */
  function HostOf(rows: seq<HostEntry>, ip: string, a: Answers): Host {
    Detail(Entry(rows, ip), a)
  }

  /** What the rows, the detail pass and the router make of one reported host: it is alive when a row
      about it answered or one of its ports is open, and it has the first hardware address that a row
      about it knows. */
  predicate SaysOf(h: Host, rows: seq<HostEntry>, a: Answers) {
    && (h.alive <==> a.open(h.ip) || exists i :: 0 <= i < |rows| && rows[i].ip == h.ip && rows[i].responsive)
    && (h.isRouter <==> a.router == Some(h.ip))
    && (h.mac == None <==> forall i :: 0 <= i < |rows| && rows[i].ip == h.ip ==> rows[i].mac == None)
    && (h.mac.Some? ==>
          exists i :: 0 <= i < |rows| && rows[i].ip == h.ip && rows[i].mac == h.mac
                      && forall k :: 0 <= k < i && rows[k].ip == h.ip ==> rows[k].mac == None)
  }

  lemma HostSays(rows: seq<HostEntry>, ip: string, a: Answers)
    ensures SaysOf(HostOf(rows, ip, a), rows, a)
  {
    hide InfoOf;
    InfoMeans(rows, ip);
  }

  lemma HostsOfKeys(rows: seq<HostEntry>, keys: seq<string>, a: Answers)
    requires Distinct(keys)
    ensures var hosts := SortByKey(Details(EntriesOf(rows, keys), a));
            && OneHostPerIp(hosts) && SortedByKey(hosts)
            && (forall ip :: HasHost(hosts, ip) <==> ip in keys)
            && forall h :: h in hosts ==> h == HostOf(rows, h.ip, a)
  {
    var d := Details(EntriesOf(rows, keys), a);
    assert |d| == |keys| && forall i :: 0 <= i < |d| ==> d[i].ip == keys[i] && d[i] == HostOf(rows, keys[i], a);
    hide SortByKey, InfoOf, SortedByKey, Details, EntriesOf, HostOf, Distinct;
    SortMeans(d);
    assert OneHostPerIp(d) by { DistinctKeys(d, keys); }
    SortKeepsOnePerIp(d);
    SameHosts(SortByKey(d), d);
    forall ip ensures HasHost(d, ip) <==> ip in keys {
      if ip in keys {
        var i :| 0 <= i < |keys| && keys[i] == ip;
        assert d[i].ip == ip;
      }
    }
  }

  lemma DistinctKeys(d: seq<Host>, keys: seq<string>)
    requires Distinct(keys) && |d| == |keys| && forall i :: 0 <= i < |d| ==> d[i].ip == keys[i]
    ensures OneHostPerIp(d)
  {
  }

  lemma SameHosts(s: seq<Host>, d: seq<Host>)
    requires multiset(s) == multiset(d)
    ensures forall h :: h in s <==> h in d
    ensures forall ip :: HasHost(s, ip) <==> HasHost(d, ip)
  {
    assert forall h :: h in s <==> h in multiset(s);
    assert forall h :: h in d <==> h in multiset(d);
    forall ip ensures HasHost(s, ip) <==> HasHost(d, ip) {
      HasHostMeans(s, ip);
      HasHostMeans(d, ip);
    }
  }

  lemma HasHostMeans(s: seq<Host>, ip: string)
    ensures HasHost(s, ip) <==> exists h :: h in s && h.ip == ip
  {
    if h :| h in s && h.ip == ip {
      var k :| 0 <= k < |s| && s[k] == h;
    }
  }

  /** Whatever the host answers: each address is reported once and in key order; the addresses are
      the requested valid ones and the known ones in a scanned subnet; and each host has the first
      hardware address any row gave, and is alive when a row answered or a port is open. */
  lemma ScanKeeps(options: Options, interfaces: seq<LocalInterface>, a: Answers)
    ensures var subnets := Subnets(options.subnet, interfaces);
            var wanted := Dedup(WantedIps(options.includeIps));
            var rows := Rows(subnets, interfaces, wanted, options.deep != Some(false), a);
            match ScanResult(options, interfaces, a)
            case Err(_) => subnets == []
            case Ok(hosts) =>
              && OneHostPerIp(hosts) && SortedByKey(hosts)
              && (forall ip :: HasHost(hosts, ip) <==> ip in wanted || (ip in Ips(rows) && InScope(ip, subnets)))
              && (forall h :: h in hosts ==> SaysOf(h, rows, a))
  {
    hide Rows, Dedup, InScope, WantedIps, Subnets, SortByKey, SortedByKey, OneHostPerIp, HasHost, HostOf, ScopeKeys, Scoped, SaysOf;
    var subnets := Subnets(options.subnet, interfaces);
    var wanted := Dedup(WantedIps(options.includeIps));
    var rows := Rows(subnets, interfaces, wanted, options.deep != Some(false), a);
    DedupMeans(WantedIps(options.includeIps));
    ScopedRows(rows, wanted, subnets);
    ScopeMeans(rows, wanted, subnets);
    HostsOfKeys(rows, ScopeKeys(rows, wanted, subnets), a);
    forall ip ensures SaysOf(HostOf(rows, ip, a), rows, a) {
      HostSays(rows, ip, a);
    }
  }

  /** Every valid requested address is reported. */
  lemma RequestedAreReported(options: Options, interfaces: seq<LocalInterface>, a: Answers, i: nat)
    requires i < |options.includeIps| && IsValidIpv4(Trim(options.includeIps[i], AppSpace))
    requires Subnets(options.subnet, interfaces) != []
    ensures var r := ScanResult(options, interfaces, a);
            r.Ok? && HasHost(r.value, Trim(options.includeIps[i], AppSpace))
  {
    hide Rows, Subnets, InScope, Trim, IsValidIpv4, Scoped, SortByKey, HasHost, AppSpace, Dedup, HostOf, SaysOf;
    ScanKeeps(options, interfaces, a);
    WantedMeans(options.includeIps, Trim(options.includeIps[i], AppSpace));
    DedupMeans(WantedIps(options.includeIps));
  }

  ghost predicate SortedByOctets(hosts: seq<Host>) {
    forall i, j :: 0 <= i < j < |hosts| && Dotted(hosts[i].ip, 4) && Dotted(hosts[j].ip, 4)
      && Bytewise(Octets(hosts[i].ip)) && Bytewise(Octets(hosts[j].ip))
      ==> !Less(Octets(hosts[j].ip), Octets(hosts[i].ip))
  }

  /** The hosts whose octets fit a byte are in the order of their octets. */
  lemma KeyOrderIsOctetOrder(hosts: seq<Host>)
    requires SortedByKey(hosts)
    ensures SortedByOctets(hosts)
  {
    hide IpSortKey, Dotted, Octets, Bytewise, Less;
    forall i, j | 0 <= i < j < |hosts| && Dotted(hosts[i].ip, 4) && Dotted(hosts[j].ip, 4)
      && Bytewise(Octets(hosts[i].ip)) && Bytewise(Octets(hosts[j].ip))
      ensures !Less(Octets(hosts[j].ip), Octets(hosts[i].ip))
    {
      KeyOfDotted(hosts[i].ip);
      KeyOfDotted(hosts[j].ip);
      KeyOrder(Octets(hosts[j].ip), Octets(hosts[i].ip));
    }
  }

  // ----- the sweep -----

  lemma {:induction false} DiscoveredMeans(candidates: seq<string>, known: set<string>, discover: string -> Option<bool>, ip: string)
    ensures ip in Ips(Discovered(candidates, known, discover)) <==> ip in candidates && ip !in known && discover(ip).Some?
  {
    if candidates != [] {
      var p, last := candidates[..|candidates| - 1], candidates[|candidates| - 1];
      DiscoveredMeans(p, known, discover, ip);
      assert candidates == p + [last];
      var front := Discovered(p, known, discover);
      if last !in known && discover(last).Some? {
        assert Ips(front + [HostEntry(last, None, discover(last).value)]) == Ips(front) + [last];
      } else {
        assert front + [] == front;
      }
    }
  }

  lemma {:induction false} SubnetIpsMeans(subnets: seq<string>, s: string, host: nat)
    requires s in subnets && 1 <= host <= 254
    ensures HostIp(s, host) in SubnetIps(subnets)
  {
    hide HostIp;
    var p, last := subnets[..|subnets| - 1], subnets[|subnets| - 1];
    assert subnets == p + [last];
    if s == last {
      assert HostIps(last, 254)[host - 1] == HostIp(s, host);
    } else {
      SubnetIpsMeans(p, s, host);
    }
  }

  /** A deep scan reports every host of a scanned subnet that answers. */
  lemma AnsweringHostsAreReported(options: Options, interfaces: seq<LocalInterface>, a: Answers, s: string, host: nat)
    requires options.deep != Some(false) && s in Subnets(options.subnet, interfaces) && 1 <= host <= 254
    requires a.discover(HostIp(s, host)).Some?
    ensures var r := ScanResult(options, interfaces, a);
            r.Ok? && HasHost(r.value, HostIp(s, host))
  {
    hide Subnets, WantedIps, HostOf, SaysOf, LocalIps, SubnetIps, Discovered, Scoped, SortByKey, HasHost;
    var subnets, ip := Subnets(options.subnet, interfaces), HostIp(s, host);
    var wanted := Dedup(WantedIps(options.includeIps));
    ScanKeeps(options, interfaces, a);
    SubnetIpsMeans(subnets, s, host);
    var all := SubnetIps(subnets) + LocalIps(interfaces) + wanted;
    DedupMeans(all);
    var known := set x | x in Ips(a.first);
    hide Dedup;
    DiscoveredMeans(Dedup(all), known, a.discover, ip);
    var found := Discovered(Dedup(all), known, a.discover);
    assert Ips(a.first + found + a.second) == Ips(a.first) + Ips(found) + Ips(a.second);
    assert s + "." <= ip;
  }

  // ----- the subnets -----

  lemma ThreeGroups(p: seq<string>)
    requires ValidGroups(p, 4)
    ensures Split(Join(p[..3], '.'), '.') == p[..3]
  {
    forall i | 0 <= i < 3 ensures '.' !in p[..3][i] {
      assert AllDigits(p[i]);
    }
    SplitJoin(p[..3], '.');
  }

  /** An accepted prefix is three valid groups, so all its hosts are valid addresses in scope. */
  lemma PrefixHosts(value: string, host: nat)
    requires NormalizeSubnetPrefix(value).Some? && 1 <= host <= 254
    ensures var s := NormalizeSubnetPrefix(value).value;
            IsValidIpv4(HostIp(s, host)) && InScope(HostIp(s, host), [s])
  {
    var s := NormalizeSubnetPrefix(value).value;
    var t := Trim(value, AppSpace);
    hide Trim, AppSpace;
    if |t| >= 3 && t[|t| - 3..] == "/24" {
      ThreeGroups(Split(t[..|t| - 3], '.'));
    } else if ValidGroups(Split(t, '.'), 4) {
      ThreeGroups(Split(t, '.'));
    }
    assert ValidGroups(Split(s, '.'), 3);
    HostValid(s, host);
    assert s + "." <= HostIp(s, host);
  }

  lemma HostValid(s: string, host: nat)
    requires ValidGroups(Split(s, '.'), 3) && 1 <= host <= 254
    ensures IsValidIpv4(HostIp(s, host))
  {
    var last := Padded(host, 1);
    OctetText(host);
    assert s + "." + last == s + ['.'] + last;
    SplitConcat(s, last, '.');
    assert forall i :: 0 <= i < |last| ==> last[i] != '.';
    SplitWhole(last, '.');
  }

  lemma OctetText(host: nat)
    requires 1 <= host <= 254
    ensures IsValidOctet(Padded(host, 1))
  {
    PaddedShort(host);
  }
}
