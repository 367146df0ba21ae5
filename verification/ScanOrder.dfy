/** A scan whose result is not in the order of its octets. */
module ScanOrder {
  import opened Prelude
  import opened Text
  import opened ArpScan
  import opened MacForm
  import opened ArpRows
  import opened ArpTable
  import opened ScanRows
  import opened SortKey
  import opened NetworkScan
  import opened ScanResults

  /** The address 192.168.`c`.`d`. */
  function Local(c: nat, d: nat): string {
    ShowQuad(Quad(192, 168, c, d))
  }

  function Prefix(c: nat): string {
    Join([Padded(192, 1), Padded(168, 1), Padded(c, 1)], '.')
  }

  lemma LocalText(c: nat, d: nat)
    ensures Local(c, d) == Prefix(c) + "." + Padded(d, 1)
  {
    JoinLonger([Padded(192, 1), Padded(168, 1), Padded(c, 1)], Padded(d, 1));
    hide Padded, Join;
    assert [Padded(192, 1), Padded(168, 1), Padded(c, 1)] + [Padded(d, 1)]
        == [Padded(192, 1), Padded(168, 1), Padded(c, 1), Padded(d, 1)];
  }

  lemma {:induction false} JoinLonger(pieces: seq<string>, last: string)
    requires pieces != []
    ensures Join(pieces + [last], '.') == Join(pieces, '.') + "." + last
  {
    if |pieces| == 1 {
      assert (pieces + [last])[1..] == [last];
    } else {
      assert (pieces + [last])[1..] == pieces[1..] + [last];
      JoinLonger(pieces[1..], last);
    }
  }

  lemma LocalSplit(c: nat, d: nat)
    requires c < 1000 && d < 1000
    ensures Split(Local(c, d), '.') == [Padded(192, 1), Padded(168, 1), Padded(c, 1), Padded(d, 1)]
  {
    PaddedShort(192);
    PaddedShort(168);
    PaddedShort(c);
    PaddedShort(d);
    hide Padded;
    SplitJoin([Padded(192, 1), Padded(168, 1), Padded(c, 1), Padded(d, 1)], '.');
  }

  const MAC := Print(Same(2))

  /** A row of `arp -a` on a BSD system. */
  function ArpLine(ip: string): Shown {
    Shown("? (", ip, ") at ", MAC, "")
  }

  const TABLE := [ArpLine(Local(1, 300)), ArpLine(Local(2, 1))]

  const INTERFACES := [LocalInterface(Local(1, 5), false), LocalInterface(Local(2, 5), false)]

  const HOST := Answers(Entries(TableLines(Join(Texts(TABLE), '\n'))), [], _ => None, _ => false, None)

  lemma MacChars(c: char)
    requires c != ':' && !Hex(c)
    ensures c !in MAC
  {
    JoinChars(Hexes(Same(2)), c);
  }

  lemma LocalChars(c: nat, d: nat, x: char)
    requires c < 1000 && d < 1000 && x != '.' && !IsDigit(x)
    ensures x !in Local(c, d)
  {
    ShowReads(Quad(192, 168, c, d));
    var ip := Local(c, d);
    assert ip[..|ip|] == ip;
    DottedLengthIff(ip, 4, |ip|);
    DottedChars(ip, 4);
  }

  lemma ShowWithout(l: Shown, x: char)
    requires x !in l.prefix && x !in l.ip && x !in l.mid && x !in l.mac && x !in l.suffix
    ensures x !in Show(l)
  {
  }

  lemma Fixed()
    ensures Between(") at ") && After(MAC, "")
    ensures forall x, ip :: x in {'\n', '\r'} ==>
              x !in ArpLine(ip).prefix && x !in ArpLine(ip).mid && x !in ArpLine(ip).suffix
    ensures forall i, ip :: 0 <= i < |ArpLine(ip).prefix| ==> !IsDigit(ArpLine(ip).prefix[i])
  {
  }

  lemma LineReadable(ip: string)
    requires Dotted(ip, 4) && '\n' !in ip && '\r' !in ip
    ensures Readable(ArpLine(ip)) && Bytes(ArpLine(ip).mac) == Same(2)
  {
    PrintReads(Same(2));
    MacChars('\n');
    MacChars('\r');
    Fixed();
    var l := ArpLine(ip);
    hide Dotted, MacText, Bytes, Print, NoRowIn, Show, Between, After;
    assert l.ip == ip && l.mac == MAC && l.mid == ") at " && l.suffix == "";
    hide ArpLine;
    NoDigitsNoRow(l.prefix, l.ip + (l.mid + (l.mac + l.suffix)));
    ShowWithout(l, '\n');
    ShowWithout(l, '\r');
  }

  lemma LocalReadable(c: nat, d: nat)
    requires c < 1000 && d < 1000
    ensures Readable(ArpLine(Local(c, d))) && Bytes(ArpLine(Local(c, d)).mac) == Same(2)
  {
    ShowReads(Quad(192, 168, c, d));
    LocalChars(c, d, '\n');
    LocalChars(c, d, '\r');
    hide Local, Dotted, ArpLine, Readable, MacText, Bytes;
    LineReadable(Local(c, d));
  }

  lemma PairIps(lines: seq<Shown>, l: Shown, m: Shown)
    requires lines == [l, m]
    requires Readable(l) && Readable(m) && Bytes(l.mac) == Same(2) && Bytes(m.mac) == Same(2)
    ensures Ips(Entries(TableLines(Join(Texts(lines), '\n')))) == [l.ip, m.ip]
  {
    hide Readable, Bytes, MacText, Print, Listed, Texts, Entries, TableLines, Join, AllReadable;
    ListedPair(l, m);
    TableReads(lines);
  }

  lemma ArpLineIp(ip: string)
    ensures ArpLine(ip).ip == ip
  {
  }

  lemma ListedPair(l: Shown, m: Shown)
    requires Readable(l) && Readable(m) && Bytes(l.mac) == Same(2) && Bytes(m.mac) == Same(2)
    ensures AllReadable([l, m]) && Ips(Listed([l, m])) == [l.ip, m.ip]
  {
    hide Readable, Bytes, MacText, Print;
    assert [l, m][..1] == [l] && [l][..0] == [];
    assert AllReadable([l]) && AllReadable([]);
    assert Listed([]) == [];
    assert Listed([l]) == ShownEntry(l);
    assert Listed([l, m]) == ShownEntry(l) + ShownEntry(m);
  }

  lemma {:induction false} PrefixFound(interfaces: seq<LocalInterface>, i: LocalInterface)
    requires i in interfaces && Scanned(i) && |Split(i.address, '.')| == 4
    ensures Join(Split(i.address, '.')[..3], '.') in PrefixesOf(interfaces)
  {
    hide Scanned, Join, Split;
    var p, last := interfaces[..|interfaces| - 1], interfaces[|interfaces| - 1];
    assert interfaces == p + [last];
    if i != last {
      PrefixFound(p, i);
    }
  }

  lemma LinkLocalHead(ip: string)
    requires LINK_LOCAL <= ip
    ensures Split(ip, '.')[0] == "169" && AllDigits("169") && Value("169") == 169
  {
    var rest := ip[|LINK_LOCAL|..];
    assert ip == "169" + ['.'] + ("254." + rest);
    SplitConcat("169", "254." + rest, '.');
    SplitWhole("169", '.');
    assert "169"[..2] == "16" && "16"[..1] == "1" && "1"[..0] == "";
    assert Value("") == 0;
    assert Value("1") == 1;
    assert Value("16") == 16;
  }

  lemma NotLinkLocal(c: nat, d: nat)
    requires c < 1000 && d < 1000
    ensures !(LINK_LOCAL <= Local(c, d))
  {
    LocalSplit(c, d);
    hide Local, Padded, Value, Split;
    if LINK_LOCAL <= Local(c, d) {
      LinkLocalHead(Local(c, d));
    }
  }

  lemma SubnetFound(interfaces: seq<LocalInterface>, c: nat, d: nat)
    requires c < 1000 && d < 1000 && LocalInterface(Local(c, d), false) in interfaces
    ensures Prefix(c) in Subnets(None, interfaces)
  {
    LocalSplit(c, d);
    NotLinkLocal(c, d);
    hide Padded, Local;
    var i := LocalInterface(Local(c, d), false);
    PrefixFound(interfaces, i);
    assert Split(i.address, '.')[..3] == [Padded(192, 1), Padded(168, 1), Padded(c, 1)];
    DedupMeans(PrefixesOf(interfaces));
  }

  /** Any two addresses a shallow scan knows and has in scope come out in the order of their keys. */
  lemma BothReported(interfaces: seq<LocalInterface>, host: Answers, x: string, y: string)
    requires var subnets := Subnets(None, interfaces); subnets != [] && InScope(x, subnets) && InScope(y, subnets)
    requires x in Ips(host.first) && y in Ips(host.first) && IpSortKey(x) > IpSortKey(y)
    ensures var r := ScanResult(Options(None, Some(false), []), interfaces, host);
            r.Ok? && exists i, j :: 0 <= i < j < |r.value| && r.value[i].ip == y && r.value[j].ip == x
  {
    hide IpSortKey, InScope, Subnets, Dedup, WantedIps, HostOf, SaysOf, ScanResult, Rows;
    var options, subnets := Options(None, Some(false), []), Subnets(None, interfaces);
    ScanKeeps(options, interfaces, host);
    ShallowRows(subnets, interfaces, Dedup(WantedIps([])), host);
    var hosts := ScanResult(options, interfaces, host).value;
    assert HasHost(hosts, x) && HasHost(hosts, y);
    var j :| 0 <= j < |hosts| && hosts[j].ip == x;
    var i :| 0 <= i < |hosts| && hosts[i].ip == y;
  }

  lemma WrongWayRound()
    ensures var x, y := Local(1, 300), Local(2, 1);
            Dotted(x, 4) && Dotted(y, 4) && Less(Octets(x), Octets(y)) && IpSortKey(x) > IpSortKey(y)
  {
    ShowReads(Quad(192, 168, 1, 300));
    ShowReads(Quad(192, 168, 2, 1));
    hide IpSortKey, Dotted, Octets;
    KeyOfDotted(Local(1, 300));
    KeyOfDotted(Local(2, 1));
  }

  /** Two rows that the ARP scanner accepts, 192.168.1.300 and 192.168.2.1, come out of a scan with the
      second before the first, against their octets: the key of the first is the larger one. */
  lemma OctetsOutOfOrder()
    ensures var x, y := Local(1, 300), Local(2, 1);
            && Dotted(x, 4) && Dotted(y, 4) && Less(Octets(x), Octets(y))
            && var r := ScanResult(Options(None, Some(false), []), INTERFACES, HOST);
               r.Ok? && exists i, j :: 0 <= i < j < |r.value| && r.value[i].ip == y && r.value[j].ip == x
  {
    WrongWayRound();
    LocalText(1, 300);
    LocalText(2, 1);
    LocalReadable(1, 300);
    LocalReadable(2, 1);
    ArpLineIp(Local(1, 300));
    ArpLineIp(Local(2, 1));
    hide Local, Prefix, Dotted, Octets, IpSortKey, Padded, Less, ArpLine, Readable, Bytes, Subnets, ScanResult, Ips, Entries;
    var x, y := Local(1, 300), Local(2, 1);
    PairIps(TABLE, ArpLine(x), ArpLine(y));
    SubnetFound(INTERFACES, 1, 5);
    SubnetFound(INTERFACES, 2, 5);
    BothReported(INTERFACES, HOST, x, y);
  }
}
