/**
 The lists a network scan works on (`packages/gateway-rust/src/network_scan.rs`): requested
 addresses, candidates of the scanned subnets, and the merge of what several sources know.
 */
module ScanRows {
  import opened Prelude
  import opened Text
  import opened JsText
  import opened ArpScan
  import opened ArpTable

  // ----- addresses -----

  predicate IsValidOctet(value: string) {
    1 <= |value| <= 3 && AllDigits(value) && Value(value) <= 255
  }

  predicate IsValidIpv4(value: string) {
    Dotted(value, 4) && forall piece :: piece in Split(value, '.') ==> IsValidOctet(piece)
  }

  // ----- keeping the first of equals -----

  function Dedup(s: seq<string>): seq<string> {
    if s == [] then []
    else
      var front, last := Dedup(s[..|s| - 1]), s[|s| - 1];
      if last in front then front else front + [last]
  }

  ghost predicate Distinct(s: seq<string>) {
    forall i, j :: 0 <= i < j < |s| ==> s[i] != s[j]
  }

  /** `x` appears in `s` before `y` does. */
  ghost predicate FirstBefore(s: seq<string>, x: string, y: string) {
    exists k :: 0 <= k < |s| && s[k] == x && y !in s[..k + 1]
  }

  /** Same members, each once, in the order in which they first appear. */
  lemma {:induction false} DedupMeans(s: seq<string>)
    ensures Distinct(Dedup(s)) && forall x :: x in Dedup(s) <==> x in s
    ensures forall i, j :: 0 <= i < j < |Dedup(s)| ==> FirstBefore(s, Dedup(s)[i], Dedup(s)[j])
  {
    if s != [] {
      var p, last := s[..|s| - 1], s[|s| - 1];
      var d := Dedup(s);
      DedupMeans(p);
      assert s == p + [last];
      forall i, j | 0 <= i < j < |d| ensures FirstBefore(s, d[i], d[j]) {
        if j < |Dedup(p)| {
          assert FirstBefore(p, d[i], d[j]);
          var k :| 0 <= k < |p| && p[k] == d[i] && d[j] !in p[..k + 1];
          assert s[..k + 1] == p[..k + 1] && s[k] == p[k];
        } else {
          assert d[i] in p;
          var k :| 0 <= k < |p| && p[k] == d[i];
          assert s[..k + 1] == p[..k + 1] && s[k] == p[k];
          assert forall x :: x in p[..k + 1] ==> x in p;
        }
      }
    }
  }

  lemma {:induction false} DedupConcat(a: seq<string>, b: seq<string>)
    ensures Dedup(Dedup(a) + b) == Dedup(a + b)
    decreases |b|
  {
    if b == [] {
      DedupMeans(a);
      DedupSame(Dedup(a));
      assert Dedup(a) + b == Dedup(a) && a + b == a;
    } else {
      var p := b[..|b| - 1];
      DedupConcat(a, p);
      assert (Dedup(a) + b)[..|Dedup(a) + b| - 1] == Dedup(a) + p;
      assert (a + b)[..|a + b| - 1] == a + p;
    }
  }

  lemma {:induction false} DedupSame(s: seq<string>)
    requires Distinct(s)
    ensures Dedup(s) == s
  {
    if s != [] {
      DedupSame(s[..|s| - 1]);
    }
  }

  /** The step every one of the source's loops makes with its `seen` set. */
  lemma DedupStep(s: seq<string>, x: string)
    ensures Dedup(s + [x]) == if x in Dedup(s) then Dedup(s) else Dedup(s) + [x]
  {
    assert (s + [x])[..|s|] == s;
  }

  // ----- requested addresses -----

  function WantedIps(values: seq<string>): seq<string> {
    if values == [] then []
    else
      var t := Trim(values[|values| - 1], AppSpace);
      WantedIps(values[..|values| - 1]) + if t != "" && IsValidIpv4(t) then [t] else []
  }

  method NormalizeIps(values: seq<string>) returns (out: seq<string>)
    ensures out == Dedup(WantedIps(values))
  {
    hide IsValidIpv4, Trim, AppSpace, Dedup;
    EmptyDedup();
    var seen: set<string> := {};
    out := [];
    for i := 0 to |values|
      invariant out == Dedup(WantedIps(values[..i]))
      invariant forall x :: x in seen <==> x in out
    {
      assert values[..i + 1][..i] == values[..i];
      var trimmed := Trim(values[i], AppSpace);
      if trimmed == "" || !IsValidIpv4(trimmed) {
        assert WantedIps(values[..i]) + [] == WantedIps(values[..i]);
        continue;
      }
      DedupStep(WantedIps(values[..i]), trimmed);
      if trimmed !in seen {
        seen := seen + {trimmed};
        out := out + [trimmed];
      }
    }
    assert values[..|values|] == values;
  }

  lemma {:induction false} WantedMeans(values: seq<string>, ip: string)
    ensures ip in WantedIps(values) <==>
            IsValidIpv4(ip) && exists i :: 0 <= i < |values| && Trim(values[i], AppSpace) == ip
  {
    hide IsValidIpv4, Trim, AppSpace;
    if values != [] {
      var p := values[..|values| - 1];
      WantedMeans(p, ip);
      assert forall i :: 0 <= i < |p| ==> p[i] == values[i];
      NoEmptyIp();
    }
  }

  lemma NoEmptyIp()
    ensures !IsValidIpv4("")
  {
    assert Split("", '.') == [""];
  }

  // ----- candidates -----

  datatype LocalInterface = LocalInterface(address: string, internal: bool)

  const LINK_LOCAL := "169.254."

  predicate Scanned(i: LocalInterface) {
    !i.internal && !(LINK_LOCAL <= i.address)
  }

  function HostIp(subnet: string, host: nat): string {
    subnet + "." + Padded(host, 1)
  }

  /** Hosts 1 to `n` of a subnet. */
  function HostIps(subnet: string, n: nat): seq<string> {
    seq(n, h requires 0 <= h < n => HostIp(subnet, h + 1))
  }

  function SubnetIps(subnets: seq<string>): seq<string> {
    if subnets == [] then []
    else SubnetIps(subnets[..|subnets| - 1]) + HostIps(subnets[|subnets| - 1], 254)
  }

  function LocalIps(interfaces: seq<LocalInterface>): seq<string> {
    if interfaces == [] then []
    else
      var i := interfaces[|interfaces| - 1];
      LocalIps(interfaces[..|interfaces| - 1]) + if Scanned(i) && IsValidIpv4(i.address) then [i.address] else []
  }

  method BuildSubnetCandidates(subnets: seq<string>, interfaces: seq<LocalInterface>) returns (candidates: seq<string>)
    ensures candidates == Dedup(SubnetIps(subnets) + LocalIps(interfaces))
  {
    hide IsValidIpv4, Scanned, HostIp, Dedup;
    var seen: set<string> := {};
    candidates := [];
    EmptyDedup();
    for i := 0 to |subnets|
      invariant candidates == Dedup(SubnetIps(subnets[..i]))
      invariant forall x :: x in seen <==> x in candidates
    {
      assert subnets[..i + 1][..i] == subnets[..i];
      ghost var before := SubnetIps(subnets[..i]);
      assert before + HostIps(subnets[i], 0) == before;
      for host := 1 to 255
        invariant candidates == Dedup(before + HostIps(subnets[i], host - 1))
        invariant forall x :: x in seen <==> x in candidates
      {
        var ip := HostIp(subnets[i], host);
        assert before + HostIps(subnets[i], host) == before + HostIps(subnets[i], host - 1) + [ip];
        DedupStep(before + HostIps(subnets[i], host - 1), ip);
        if ip !in seen {
          seen := seen + {ip};
          candidates := candidates + [ip];
        }
      }
    }
    assert subnets[..|subnets|] == subnets;
    ghost var before := SubnetIps(subnets);
    assert before + LocalIps(interfaces[..0]) == before;
    for i := 0 to |interfaces|
      invariant candidates == Dedup(before + LocalIps(interfaces[..i]))
      invariant forall x :: x in seen <==> x in candidates
    {
      assert interfaces[..i + 1][..i] == interfaces[..i];
      var iface := interfaces[i];
      assert before + LocalIps(interfaces[..i]) + [iface.address] == before + (LocalIps(interfaces[..i]) + [iface.address]);
      assert LocalIps(interfaces[..i]) + [] == LocalIps(interfaces[..i]);
      if !Scanned(iface) {
        continue;
      }
      DedupStep(before + LocalIps(interfaces[..i]), iface.address);
      if IsValidIpv4(iface.address) && iface.address !in seen {
        seen := seen + {iface.address};
        candidates := candidates + [iface.address];
      }
    }
    assert interfaces[..|interfaces|] == interfaces;
  }

  lemma EmptyDedup()
    ensures Dedup([]) == []
  {
  }

  // ----- the merge -----

  /** What some rows know about one address: the first known hardware address, and an answer. */
  datatype Info = Info(mac: Option<string>, responsive: bool)

  function Combine(a: Info, b: Info): Info {
    Info(if a.mac.Some? then a.mac else b.mac, a.responsive || b.responsive)
  }

  function InfoOf(rows: seq<HostEntry>, ip: string): Info {
    if rows == [] then Info(None, false)
    else
      var known, row := InfoOf(rows[..|rows| - 1], ip), rows[|rows| - 1];
      if row.ip == ip then Combine(known, Info(row.mac, row.responsive)) else known
  }

  function Ips(rows: seq<HostEntry>): seq<string> {
    seq(|rows|, i requires 0 <= i < |rows| => rows[i].ip)
  }

  function Entry(rows: seq<HostEntry>, ip: string): HostEntry {
    var info := InfoOf(rows, ip);
    HostEntry(ip, info.mac, info.responsive)
  }

  /** The entries of `keys`, each from all rows. */
  function EntriesOf(rows: seq<HostEntry>, keys: seq<string>): seq<HostEntry> {
    seq(|keys|, i requires 0 <= i < |keys| => Entry(rows, keys[i]))
  }

  /** One entry for each address, in the order of first mention. */
  function Merged(rows: seq<HostEntry>): seq<HostEntry> {
    EntriesOf(rows, Dedup(Ips(rows)))
  }

  lemma InfoStep(rows: seq<HostEntry>, row: HostEntry)
    ensures forall ip :: InfoOf(rows + [row], ip)
                         == if row.ip == ip then Combine(InfoOf(rows, ip), Info(row.mac, row.responsive)) else InfoOf(rows, ip)
  {
    assert (rows + [row])[..|rows|] == rows;
  }

  lemma IpsStep(rows: seq<HostEntry>, row: HostEntry)
    ensures Ips(rows + [row]) == Ips(rows) + [row.ip]
  {
  }

  lemma MergedNew(rows: seq<HostEntry>, row: HostEntry)
    requires row.ip !in Dedup(Ips(rows))
    ensures Merged(rows + [row]) == Merged(rows) + [row]
  {
    DedupMeans(Ips(rows));
    IpsStep(rows, row);
    DedupStep(Ips(rows), row.ip);
    InfoStep(rows, row);
    Unmentioned(rows, row.ip);
    hide Dedup, InfoOf, Ips;
  }

  lemma MergedKnown(rows: seq<HostEntry>, row: HostEntry, at: nat)
    requires at < |Dedup(Ips(rows))| && Dedup(Ips(rows))[at] == row.ip
    ensures var out := Merged(rows);
            Merged(rows + [row]) ==
            out[at := HostEntry(row.ip, if out[at].mac.None? then row.mac else out[at].mac, out[at].responsive || row.responsive)]
  {
    DedupMeans(Ips(rows));
    IpsStep(rows, row);
    DedupStep(Ips(rows), row.ip);
    InfoStep(rows, row);
    hide Dedup, InfoOf, Ips;
  }

  lemma {:induction false} Unmentioned(rows: seq<HostEntry>, ip: string)
    requires ip !in Ips(rows)
    ensures InfoOf(rows, ip) == Info(None, false)
  {
    if rows != [] {
      var p := rows[..|rows| - 1];
      assert Ips(rows) == Ips(p) + [rows[|rows| - 1].ip];
      Unmentioned(p, ip);
    }
  }

  method MergeEntries(rows: seq<HostEntry>) returns (out: seq<HostEntry>)
    ensures out == Merged(rows)
  {
    hide Dedup;
    EmptyDedup();
    out := [];
    assert Ips(rows[..0]) == [];
    var index: map<string, nat> := map[];
    for n := 0 to |rows|
      invariant out == Merged(rows[..n])
      invariant forall ip :: ip in index <==> ip in Dedup(Ips(rows[..n]))
      invariant forall ip :: ip in index ==> index[ip] < |out| && Dedup(Ips(rows[..n]))[index[ip]] == ip
    {
      var row := rows[n];
      ghost var p := rows[..n];
      assert rows[..n + 1] == p + [row];
      assert Ips(p + [row]) == Ips(p) + [row.ip];
      DedupStep(Ips(p), row.ip);
      if row.ip in index {
        var i := index[row.ip];
        MergedKnown(p, row, i);
        if out[i].mac.None? {
          out := out[i := out[i].(mac := row.mac)];
        }
        out := out[i := out[i].(responsive := out[i].responsive || row.responsive)];
      } else {
        MergedNew(p, row);
        index := index[row.ip := |out|];
        out := out + [row];
      }
    }
    assert rows[..|rows|] == rows;
  }

  lemma {:induction false} InfoConcat(a: seq<HostEntry>, b: seq<HostEntry>, ip: string)
    ensures InfoOf(a + b, ip) == Combine(InfoOf(a, ip), InfoOf(b, ip))
    decreases |b|
  {
    if b == [] {
      assert a + b == a;
    } else {
      assert (a + b)[..|a + b| - 1] == a + b[..|b| - 1];
      InfoConcat(a, b[..|b| - 1], ip);
    }
  }

  lemma {:induction false} InfoOfEntries(rows: seq<HostEntry>, keys: seq<string>, ip: string)
    requires Distinct(keys)
    ensures InfoOf(EntriesOf(rows, keys), ip) == if ip in keys then InfoOf(rows, ip) else Info(None, false)
  {
    if keys != [] {
      var p, last := keys[..|keys| - 1], keys[|keys| - 1];
      InfoOfEntries(rows, p, ip);
      assert EntriesOf(rows, keys)[..|keys| - 1] == EntriesOf(rows, p);
      assert keys == p + [last];
    }
  }

  /** Merging what is merged already, with more rows after it, gives what merging everything gives. */
  lemma MergeAgain(a: seq<HostEntry>, b: seq<HostEntry>)
    ensures Merged(Merged(a) + b) == Merged(a + b)
  {
    hide Dedup, InfoOf;
    DedupMeans(Ips(a));
    assert Ips(Merged(a)) == Dedup(Ips(a));
    assert Ips(Merged(a) + b) == Dedup(Ips(a)) + Ips(b) && Ips(a + b) == Ips(a) + Ips(b);
    DedupConcat(Ips(a), Ips(b));
    forall ip ensures InfoOf(Merged(a) + b, ip) == InfoOf(a + b, ip) {
      InfoConcat(Merged(a), b, ip);
      InfoConcat(a, b, ip);
      InfoOfEntries(a, Dedup(Ips(a)), ip);
      if ip !in Ips(a) {
        Unmentioned(a, ip);
      }
    }
  }

  /** What an entry says, without its order of computation. */
  lemma {:induction false} InfoMeans(rows: seq<HostEntry>, ip: string)
    ensures var info := InfoOf(rows, ip);
            && (info.responsive <==> exists i :: 0 <= i < |rows| && rows[i].ip == ip && rows[i].responsive)
            && (info.mac == None <==> forall i :: 0 <= i < |rows| && rows[i].ip == ip ==> rows[i].mac == None)
            && (info.mac.Some? ==>
                  exists i :: 0 <= i < |rows| && rows[i].ip == ip && rows[i].mac == info.mac
                              && forall k :: 0 <= k < i && rows[k].ip == ip ==> rows[k].mac == None)
  {
    if rows != [] {
      var p := rows[..|rows| - 1];
      InfoMeans(p, ip);
      assert forall i :: 0 <= i < |p| ==> p[i] == rows[i];
    }
  }
}
