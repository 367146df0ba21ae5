/** The ARP table: `parse_arp_table` of `packages/gateway-rust/src/network_scan.rs`. */
module ArpTable {
  import opened Prelude
  import opened Text
  import opened ArpScan
  import opened MacForm
  import opened ArpRows

  datatype HostEntry = HostEntry(ip: string, mac: Option<string>, responsive: bool)

  function Newlines(output: string): string {
    seq(|output|, i requires 0 <= i < |output| => if output[i] == '\r' then '\n' else output[i])
  }

  /** The lines of a table, which end at a line feed or a carriage return. */
  function TableLines(output: string): seq<string> {
    Split(Newlines(output), '\n')
  }

  function LineEntries(line: string): seq<HostEntry> {
    match ArpRow(line)
    case None => []
    case Some(row) => if IsUsableMac(row.mac) then [HostEntry(row.ip, Some(row.mac), true)] else []
  }

  function Entries(lines: seq<string>): seq<HostEntry> {
    if lines == [] then [] else Entries(lines[..|lines| - 1]) + LineEntries(lines[|lines| - 1])
  }

  method ParseArpTable(output: string) returns (entries: seq<HostEntry>)
    ensures entries == Entries(TableLines(output))
  {
    entries := [];
    var lines := TableLines(output);
    for i := 0 to |lines|
      invariant entries == Entries(lines[..i])
    {
      assert lines[..i + 1][..i] == lines[..i];
      var row := ParseArpLine(lines[i]);
      if row == None || !IsUsableMac(row.value.mac) {
        continue;
      }
      entries := entries + [HostEntry(row.value.ip, Some(row.value.mac), true)];
    }
    assert lines[..|lines|] == lines;
  }

  lemma {:induction false} EntriesConcat(a: seq<string>, b: seq<string>)
    ensures Entries(a + b) == Entries(a) + Entries(b)
    decreases |b|
  {
    if b == [] {
      assert a + b == a;
    } else {
      assert (a + b)[..|a + b| - 1] == a + b[..|b| - 1];
      EntriesConcat(a, b[..|b| - 1]);
    }
  }

  /** A table cut at a line end is read part by part. */
  lemma TableConcat(a: string, end: char, b: string)
    requires end == '\n' || end == '\r'
    ensures Entries(TableLines(a + [end] + b)) == Entries(TableLines(a)) + Entries(TableLines(b))
  {
    assert Newlines(a + [end] + b) == Newlines(a) + ['\n'] + Newlines(b);
    SplitConcat(Newlines(a), Newlines(b), '\n');
    EntriesConcat(TableLines(a), TableLines(b));
  }

  /** What the table promises of each entry. */
  ghost predicate GoodEntry(e: HostEntry) {
    && Dotted(e.ip, 4) && e.responsive && e.mac.Some?
    && NormalizeMac(e.mac.value) == e.mac
    && exists b: seq<nat> :: SixBytes(b) && b[0] % 2 == 0 && !Zero(b) && e.mac.value == Print(b)
  }

  /** Every entry has a canonical unicast address that is not all zero. */
  lemma {:induction false} EntriesGood(lines: seq<string>)
    ensures forall e :: e in Entries(lines) ==> GoodEntry(e)
  {
    if lines != [] {
      EntriesGood(lines[..|lines| - 1]);
      LineGood(lines[|lines| - 1]);
    }
  }

  lemma {:induction false} RowSound(line: string)
    requires ArpRow(line).Some?
    ensures var row := ArpRow(line).value;
            Dotted(row.ip, 4) && exists b: seq<nat> :: SixBytes(b) && row.mac == Print(b)
  {
    hide RowAt, Dotted, MacText, Bytes, Print;
    if RowAt(line).Some? {
      RowAtSound(line);
      var end: nat, at: nat, length: nat :|
        && RowStands(line, 0, end, at, length)
        && ArpRow(line).value.ip == line[..end] && SixBytes(Bytes(line[at..at + length]))
        && ArpRow(line).value.mac == Print(Bytes(line[at..at + length]));
      assert line[0..end] == line[..end];
    } else {
      RowSound(line[1..]);
    }
  }

  lemma LineGood(line: string)
    ensures forall e :: e in LineEntries(line) ==> GoodEntry(e)
  {
    hide ArpRow, IsUsableMac, NormalizeMac, Print, MacText, Bytes, Dotted;
    if ArpRow(line).Some? && IsUsableMac(ArpRow(line).value.mac) {
      RowSound(line);
      var row := ArpRow(line).value;
      var b: seq<nat> :| SixBytes(b) && row.mac == Print(b);
      UsableIff(b);
      PrintReads(b);
      NormalizeMeans(Print(b));
    }
  }

  /** One line of a table as some system prints it. */
  datatype Shown = Shown(prefix: string, ip: string, mid: string, mac: string, suffix: string)

  function Show(l: Shown): string {
    l.prefix + (l.ip + (l.mid + (l.mac + l.suffix)))
  }

  ghost predicate Readable(l: Shown) {
    && NoRowIn(l.prefix, l.ip + (l.mid + (l.mac + l.suffix)))
    && Dotted(l.ip, 4) && Between(l.mid) && MacText(l.mac, 6) && After(l.mac, l.suffix)
    && SixBytes(Bytes(l.mac)) && '\n' !in Show(l) && '\r' !in Show(l)
  }

  function Texts(lines: seq<Shown>): seq<string> {
    seq(|lines|, i requires 0 <= i < |lines| => Show(lines[i]))
  }

  /** The row shown, unless its address is multicast or zero. */
  ghost function ShownEntry(l: Shown): seq<HostEntry>
    requires Readable(l)
  {
    var b := Bytes(l.mac);
    if b[0] % 2 == 0 && !Zero(b) then [HostEntry(l.ip, Some(Print(b)), true)] else []
  }

  ghost predicate AllReadable(lines: seq<Shown>) {
    forall l :: l in lines ==> Readable(l)
  }

  ghost function Listed(lines: seq<Shown>): seq<HostEntry>
    requires AllReadable(lines)
  {
    if lines == [] then [] else Listed(lines[..|lines| - 1]) + ShownEntry(lines[|lines| - 1])
  }

  lemma EntryRead(l: Shown)
    requires Readable(l)
    ensures LineEntries(Show(l)) == ShownEntry(l)
  {
    hide NoRowIn, Dotted, MacText, After, Bytes, Print, ArpRow, IsUsableMac;
    RowReads(l.prefix, l.ip, l.mid, l.mac, l.suffix);
    UsableIff(Bytes(l.mac));
  }

  lemma {:induction false} ListedRead(lines: seq<Shown>)
    requires AllReadable(lines)
    ensures Entries(Texts(lines)) == Listed(lines)
  {
    hide Readable, LineEntries, ShownEntry, Show;
    if lines != [] {
      ListedRead(lines[..|lines| - 1]);
      assert Texts(lines)[..|lines| - 1] == Texts(lines[..|lines| - 1]);
      EntryRead(lines[|lines| - 1]);
    }
  }

  lemma OneLine(lines: seq<Shown>)
    requires AllReadable(lines)
    ensures forall i :: 0 <= i < |lines| ==> '\n' !in Texts(lines)[i] && '\r' !in Texts(lines)[i]
  {
    hide NoRowIn, Dotted, MacText, After, Bytes, Show;
    assert forall i :: 0 <= i < |lines| ==> lines[i] in lines;
  }

  /** A printed table is read back: its rows in order, brought to canonical form. */
  lemma TableReads(lines: seq<Shown>)
    requires lines != [] && AllReadable(lines)
    ensures Entries(TableLines(Join(Texts(lines), '\n'))) == Listed(lines)
  {
    hide Entries, Listed, Join, Split, Show;
    var texts := Texts(lines);
    OneLine(lines);
    JoinWithout(texts);
    assert Newlines(Join(texts, '\n')) == Join(texts, '\n');
    SplitJoin(texts, '\n');
    ListedRead(lines);
  }

  lemma {:induction false} JoinWithout(pieces: seq<string>)
    requires forall i :: 0 <= i < |pieces| ==> '\r' !in pieces[i]
    ensures '\r' !in Join(pieces, '\n')
  {
    if |pieces| > 1 {
      JoinWithout(pieces[1..]);
    }
  }
}
