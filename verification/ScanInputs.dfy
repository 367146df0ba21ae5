/** What goes into a network scan: the subnets, the candidates, and the rows the sweep makes of them. */
module ScanInputs {
  import opened Prelude
  import opened Text
  import opened JsText
  import opened ArpScan
  import opened ArpTable
  import opened ScanRows
  import opened SortKey
  import opened NetworkScan

  // ----- addresses and their numbers -----

  /** A group of one to three digits is an octet exactly up to 255. */
  lemma OctetNumbers(n: nat)
    requires n < 1000
    ensures IsValidOctet(Padded(n, 1)) <==> n <= 255
  {
    PaddedShort(n);
  }

  predicate Bytes4(q: Quad) {
    q.a <= 255 && q.b <= 255 && q.c <= 255 && q.d <= 255
  }

  /** A text is a valid address exactly when it has four groups of digits, up to 255 each. */
  lemma ValidIff(ip: string)
    ensures IsValidIpv4(ip) <==> Dotted(ip, 4) && Bytes4(Octets(ip))
  {
    if Dotted(ip, 4) {
      var p := Split(ip, '.');
      assert p == [p[0], p[1], p[2], p[3]];
      assert p[0] in p && p[1] in p && p[2] in p && p[3] in p;
      assert forall piece :: piece in p ==> piece == p[0] || piece == p[1] || piece == p[2] || piece == p[3];
    }
  }

  lemma ThreeNines(g: string)
    requires 1 <= |g| <= 3 && AllDigits(g)
    ensures |g| < 3 ==> Value(g) < 100
    ensures |g| == 3 ==> Value(g) == DigitValue(g[0]) * 100 + DigitValue(g[1]) * 10 + DigitValue(g[2])
  {
    var f := g[..|g| - 1];
    if f != "" {
      var e := f[..|f| - 1];
      if e != "" {
        assert e[..|e| - 1] == "";
        assert Value(e) == DigitValue(e[0]);
      }
    }
  }

  lemma GroupIs(g: string, x: char, y: char, z: char)
    requires 1 <= |g| <= 3 && AllDigits(g) && IsDigit(x) && IsDigit(y) && IsDigit(z) && x != '0'
    ensures Value(g) == DigitValue(x) * 100 + DigitValue(y) * 10 + DigitValue(z) <==> g == [x, y, z]
  {
    ThreeNines(g);
    if |g| == 3 {
      assert g == [g[0], g[1], g[2]];
      SameDigits(DigitValue(g[0]), DigitValue(g[1]), DigitValue(g[2]), DigitValue(x), DigitValue(y), DigitValue(z));
    }
    hide Value;
  }

  lemma SameDigits(a: nat, b: nat, c: nat, x: nat, y: nat, z: nat)
    requires a < 10 && b < 10 && c < 10 && x < 10 && y < 10 && z < 10
    ensures a * 100 + b * 10 + c == x * 100 + y * 10 + z <==> a == x && b == y && c == z
  {
  }

  lemma LinkLocalSplits(ip: string)
    requires LINK_LOCAL <= ip
    ensures var p := Split(ip, '.'); |p| >= 3 && p[0] == "169" && p[1] == "254"
  {
    var rest := ip[|LINK_LOCAL|..];
    var more := "254" + ['.'] + rest;
    assert ip == "169" + ['.'] + more;
    SplitConcat("169", more, '.');
    SplitConcat("254", rest, '.');
    SplitWhole("169", '.');
    SplitWhole("254", '.');
  }

  lemma LinkLocalJoins(ip: string)
    requires var p := Split(ip, '.'); |p| >= 3 && p[0] == "169" && p[1] == "254"
    ensures LINK_LOCAL <= ip
  {
    var p := Split(ip, '.');
    JoinSplit(ip, '.');
    hide Split;
    var tail := Join(p[2..], '.');
    assert p[1..][0] == p[1] && p[1..][1..] == p[2..];
    assert Join(p[1..], '.') == "254" + ['.'] + tail;
    assert ip == "169" + ['.'] + ("254" + ['.'] + tail);
    hide Join;
    assert ip == LINK_LOCAL + tail;
  }

  /** The link-local addresses are those of 169.254. */
  lemma LinkLocalIff(ip: string)
    requires Dotted(ip, 4)
    ensures LINK_LOCAL <= ip <==> Octets(ip).a == 169 && Octets(ip).b == 254
  {
    var p := Split(ip, '.');
    GroupIs(p[0], '1', '6', '9');
    GroupIs(p[1], '2', '5', '4');
    hide Split, Value;
    if LINK_LOCAL <= ip {
      LinkLocalSplits(ip);
    }
    if p[0] == "169" && p[1] == "254" {
      LinkLocalJoins(ip);
    }
  }

  // ----- subnets -----

  lemma ShortJoin(p: seq<string>)
    requires |p| >= 3 && forall i :: 0 <= i < |p| ==> '.' !in p[i]
    ensures Split(Join(p[..3], '.'), '.') == p[..3]
  {
    SplitJoin(p[..3], '.');
  }

  /** A requested subnet is taken exactly as a `/24` of four valid groups, four valid groups, or three, and
      the prefix has the first three of them. */
  lemma PrefixExactly(value: string)
    ensures var t := Trim(value, AppSpace);
            var network := |t| >= 3 && t[|t| - 3..] == "/24";
            var p := Split(if network then t[..|t| - 3] else t, '.');
            && (NormalizeSubnetPrefix(value).Some? <==>
                  (|p| == 4 || (|p| == 3 && !network)) && forall i :: 0 <= i < |p| ==> IsValidOctet(p[i]))
            && (NormalizeSubnetPrefix(value).Some? ==> Split(NormalizeSubnetPrefix(value).value, '.') == p[..3])
  {
    var t := Trim(value, AppSpace);
    var network := |t| >= 3 && t[|t| - 3..] == "/24";
    var p := Split(if network then t[..|t| - 3] else t, '.');
    hide Trim, AppSpace;
    if |p| >= 3 {
      ShortJoin(p);
    }
    if |p| == 3 {
      assert p[..3] == p;
    }
  }

  /** The prefix of a local interface of the outside world. */
  predicate PrefixOfLocal(s: string, i: LocalInterface) {
    && !i.internal && !(LINK_LOCAL <= i.address) && |Split(i.address, '.')| == 4
    && Split(s, '.') == Split(i.address, '.')[..3]
  }

  lemma {:induction false} PrefixesMean(interfaces: seq<LocalInterface>, s: string)
    ensures s in PrefixesOf(interfaces) <==> exists i :: i in interfaces && PrefixOfLocal(s, i)
  {
    if interfaces != [] {
      var front, last := interfaces[..|interfaces| - 1], interfaces[|interfaces| - 1];
      PrefixesMean(front, s);
      assert interfaces == front + [last];
      PrefixOne(last, s);
    }
  }

  lemma PrefixOne(i: LocalInterface, s: string)
    ensures PrefixOfLocal(s, i) <==> Scanned(i) && |Split(i.address, '.')| == 4 && s == Join(Split(i.address, '.')[..3], '.')
  {
    var p := Split(i.address, '.');
    if |p| == 4 {
      ShortJoin(p);
      JoinSplit(s, '.');
    }
  }

  /** Without an acceptable request the scanned subnets are those of the local interfaces. */
  lemma SubnetsMean(requested: Option<string>, interfaces: seq<LocalInterface>, s: string)
    ensures s in Subnets(requested, interfaces) <==>
            if requested.Some? && NormalizeSubnetPrefix(requested.value).Some? then NormalizeSubnetPrefix(requested.value) == Some(s)
            else exists i :: i in interfaces && PrefixOfLocal(s, i)
  {
    hide NormalizeSubnetPrefix, PrefixOfLocal;
    PrefixesMean(interfaces, s);
    DedupMeans(PrefixesOf(interfaces));
  }

  // ----- candidates -----

  /** A host of a scanned subnet, by its number in decimal. */
  predicate IsHostOf(ip: string, s: string, host: nat) {
    1 <= host <= 254 && |ip| > |s| + 1 && ip[..|s|] == s && ip[|s|] == '.' && ip[|s| + 1..] == Padded(host, 1)
  }

  lemma HostIs(ip: string, s: string, host: nat)
    ensures IsHostOf(ip, s, host) <==> 1 <= host <= 254 && ip == HostIp(s, host)
  {
    var last := Padded(host, 1);
    assert HostIp(s, host) == s + ['.'] + last;
    if IsHostOf(ip, s, host) {
      assert ip == ip[..|s|] + [ip[|s|]] + ip[|s| + 1..];
    }
  }

  lemma {:induction false} SubnetIpsExactly(subnets: seq<string>, ip: string)
    ensures ip in SubnetIps(subnets) <==> exists s, host: nat :: s in subnets && IsHostOf(ip, s, host)
  {
    hide HostIp, IsHostOf;
    if subnets != [] {
      var front, last := subnets[..|subnets| - 1], subnets[|subnets| - 1];
      SubnetIpsExactly(front, ip);
      assert subnets == front + [last];
      HostIpsExactly(last, ip);
      if ip in HostIps(last, 254) {
        var host: nat :| IsHostOf(ip, last, host);
        assert last in subnets;
      }
      assert forall s :: s in subnets <==> s in front || s == last;
    }
  }

  lemma HostIpsExactly(s: string, ip: string)
    ensures ip in HostIps(s, 254) <==> exists host: nat :: IsHostOf(ip, s, host)
  {
    hide IsHostOf, HostIp;
    if ip in HostIps(s, 254) {
      var k :| 0 <= k < 254 && HostIps(s, 254)[k] == ip;
      HostIs(ip, s, k + 1);
      assert IsHostOf(ip, s, k + 1);
    }
    if host: nat :| IsHostOf(ip, s, host) {
      HostIs(ip, s, host);
      assert HostIps(s, 254)[host - 1] == ip;
    }
  }

  /** A valid address of a local interface of the outside world. */
  predicate IsLocal(ip: string, i: LocalInterface) {
    && i.address == ip && !i.internal && Dotted(ip, 4) && Bytes4(Octets(ip))
    && !(Octets(ip).a == 169 && Octets(ip).b == 254)
  }

  lemma {:induction false} LocalIpsExactly(interfaces: seq<LocalInterface>, ip: string)
    ensures ip in LocalIps(interfaces) <==> exists i :: i in interfaces && IsLocal(ip, i)
  {
    hide IsLocal, IsValidIpv4, Scanned;
    if interfaces != [] {
      var front, last := interfaces[..|interfaces| - 1], interfaces[|interfaces| - 1];
      LocalIpsExactly(front, ip);
      assert interfaces == front + [last];
      LocalOne(last, ip);
    }
  }

  lemma LocalOne(i: LocalInterface, ip: string)
    ensures IsLocal(ip, i) <==> i.address == ip && Scanned(i) && IsValidIpv4(ip)
  {
    ValidIff(ip);
    hide IsValidIpv4;
    if Dotted(ip, 4) {
      LinkLocalIff(ip);
      hide Dotted, Octets;
    }
  }

  /** What a deep scan asks: the hosts of the subnets, the local addresses, and the requested ones. */
  ghost predicate Asked(ip: string, subnets: seq<string>, interfaces: seq<LocalInterface>, wanted: seq<string>) {
    || (exists s, host: nat :: s in subnets && IsHostOf(ip, s, host))
    || (exists i :: i in interfaces && IsLocal(ip, i))
    || ip in wanted
  }

  lemma CandidatesExactly(subnets: seq<string>, interfaces: seq<LocalInterface>, wanted: seq<string>, ip: string)
    ensures ip in Candidates(subnets, interfaces, wanted) <==> Asked(ip, subnets, interfaces, wanted)
  {
    hide IsHostOf, IsLocal, SubnetIps, LocalIps;
    SubnetIpsExactly(subnets, ip);
    LocalIpsExactly(interfaces, ip);
    DedupMeans(SubnetIps(subnets) + LocalIps(interfaces) + wanted);
  }

  // ----- the rows of a deep scan -----

  lemma {:induction false} DiscoveredExactly(candidates: seq<string>, known: set<string>, discover: string -> Option<bool>, row: HostEntry)
    ensures row in Discovered(candidates, known, discover) <==>
            row.mac == None && row.ip in candidates && row.ip !in known && discover(row.ip) == Some(row.responsive)
  {
    if candidates != [] {
      var front, last := candidates[..|candidates| - 1], candidates[|candidates| - 1];
      DiscoveredExactly(front, known, discover, row);
      assert candidates == front + [last];
    }
  }

  /** A deep scan has the rows read first, then one without hardware address for each address asked that
      was not read and answers, responsive if it answered the ping, then the rows read after it. */
  lemma DeepRows(subnets: seq<string>, interfaces: seq<LocalInterface>, wanted: seq<string>, a: Answers)
    returns (found: seq<HostEntry>)
    ensures Rows(subnets, interfaces, wanted, true, a) == a.first + found + a.second
    ensures forall row :: row in found <==>
              && row.mac == None && Asked(row.ip, subnets, interfaces, wanted)
              && (forall i :: 0 <= i < |a.first| ==> a.first[i].ip != row.ip)
              && a.discover(row.ip) == Some(row.responsive)
  {
    hide Asked, Candidates;
    var known := set x | x in Ips(a.first);
    var candidates := Candidates(subnets, interfaces, wanted);
    found := Discovered(candidates, known, a.discover);
    forall row ensures row in found <==>
                         && row.mac == None && Asked(row.ip, subnets, interfaces, wanted)
                         && (forall i :: 0 <= i < |a.first| ==> a.first[i].ip != row.ip)
                         && a.discover(row.ip) == Some(row.responsive)
    {
      DiscoveredExactly(candidates, known, a.discover, row);
      CandidatesExactly(subnets, interfaces, wanted, row.ip);
      IpsMean(a.first, row.ip);
    }
  }

  lemma IpsMean(rows: seq<HostEntry>, ip: string)
    ensures ip in Ips(rows) <==> exists i :: 0 <= i < |rows| && rows[i].ip == ip
  {
    if i :| 0 <= i < |rows| && rows[i].ip == ip {
      assert Ips(rows)[i] == ip;
    }
  }

  /** In scope is whatever continues a subnet and a dot. */
  lemma InScopeExactly(ip: string, subnets: seq<string>)
    ensures InScope(ip, subnets) <==> exists s, rest :: s in subnets && Continues(ip, s, rest)
  {
    if s :| s in subnets && s + "." <= ip {
      assert Continues(ip, s, ip[|s| + 1..]);
    }
    if s, rest :| s in subnets && Continues(ip, s, rest) {
      assert s + "." <= ip;
    }
  }

  predicate Continues(ip: string, s: string, rest: string) {
    ip == s + "." + rest
  }
}
