/**
 The hand-written scanners of `packages/gateway-rust/src/network_scan.rs` for one row of an ARP
 table: a dotted address, a separator, and the first hardware address after it. Lines are sequences
 of characters; everything the scanners look for is ASCII.
 */
module ArpScan {
  import opened Prelude
  import opened Text

  predicate Hex(c: char) {
    IsDigit(c) || 'a' <= c <= 'f' || 'A' <= c <= 'F'
  }

  predicate MacSep(c: char) {
    c == ':' || c == '-'
  }

  predicate Blank(c: char) {
    c == ' ' || c == '\t' || c == '\n' || c == '\r' || c == '\U{000C}'
  }

  predicate RowSep(c: char) {
    c == ')' || Blank(c)
  }

  predicate AllHex(s: string) {
    forall i :: 0 <= i < |s| ==> Hex(s[i])
  }

  // ----- what the scanners look for -----

  /** `n` groups of one to three digits with dots between them. */
  predicate Dotted(t: string, n: nat) {
    var pieces := Split(t, '.');
    |pieces| == n && forall i :: 0 <= i < n ==> 1 <= |pieces[i]| <= 3 && AllDigits(pieces[i])
  }

  function Colons(t: string): string {
    seq(|t|, i requires 0 <= i < |t| => if t[i] == '-' then ':' else t[i])
  }

  /** `n` groups of one or two hex digits with ':' or '-' between them. */
  predicate MacText(t: string, n: nat) {
    var pieces := Split(Colons(t), ':');
    |pieces| == n && forall i :: 0 <= i < n ==> 1 <= |pieces[i]| <= 2 && AllHex(pieces[i])
  }

  // ----- the scanners as functions of the text from a position on -----

  /** The length of the dotted text of `n` groups that `s` starts with. */
  function DottedLength(s: string, n: nat): (r: Option<nat>)
    requires n >= 1
    ensures r.Some? ==> 1 <= r.value <= |s|
    decreases n
  {
    var k := |DigitRun(s)|;
    if k == 0 || k > 3 then None
    else if n == 1 then Some(k)
    else if k < |s| && s[k] == '.' then
      match DottedLength(s[k + 1..], n - 1)
      case None => None
      case Some(m) => Some(k + 1 + m)
    else None
  }

  /** At most two hex digits. */
  function HexPair(s: string): (k: nat)
    ensures k <= 2 && k <= |s| && AllHex(s[..k])
    ensures k < 2 && k < |s| ==> !Hex(s[k])
  {
    if s == "" || !Hex(s[0]) then 0
    else if |s| == 1 || !Hex(s[1]) then 1
    else 2
  }

  function MacLength(s: string, n: nat): (r: Option<nat>)
    requires n >= 1
    ensures r.Some? ==> 1 <= r.value <= |s|
    decreases n
  {
    var k := HexPair(s);
    if k == 0 then None
    else if n == 1 then Some(k)
    else if k < |s| && MacSep(s[k]) then
      match MacLength(s[k + 1..], n - 1)
      case None => None
      case Some(m) => Some(k + 1 + m)
    else None
  }

  datatype Found = Found(at: nat, length: nat)

  /** The first hardware address in `s`. */
  function FirstMac(s: string): (r: Option<Found>)
    ensures r.Some? ==> r.value.at + r.value.length <= |s|
  {
    if s == "" then None
    else if MacLength(s, 6).Some? then Some(Found(0, MacLength(s, 6).value))
    else
      match FirstMac(s[1..])
      case None => None
      case Some(f) => Some(f.(at := f.at + 1))
  }

  // ----- the canonical form -----

  function Lower(t: string): string {
    seq(|t|, i requires 0 <= i < |t| => LowerChar(t[i]))
  }

  function LowerChar(c: char): char {
    if 'A' <= c <= 'Z' then (c as int + 32) as char else c
  }

  function Pad2(g: string): string {
    if g == "" then "00" else if |g| == 1 then "0" + g else g
  }

  function PadAll(groups: seq<string>): seq<string> {
    seq(|groups|, i requires 0 <= i < |groups| => Pad2(groups[i]))
  }

  function NormalizeMac(raw: string): Option<string> {
    var groups := Split(Lower(Colons(raw)), ':');
    if |groups| != 6 || exists i :: 0 <= i < |groups| && !(1 <= |groups[i]| <= 2) then None
    else Some(Join(PadAll(groups), ':'))
  }

  datatype Row = Row(ip: string, mac: string)

  /** The row at the very start of `s`. */
  function RowAt(s: string): Option<Row> {
    match DottedLength(s, 4)
    case None => None
    case Some(n) =>
      if n < |s| && RowSep(s[n]) && FirstMac(s[n..]).Some? then
        var f := FirstMac(s[n..]).value;
        match NormalizeMac(s[n..][f.at..f.at + f.length])
        case None => None
        case Some(mac) => Some(Row(s[..n], mac))
      else None
  }

  function ArpRow(s: string): Option<Row> {
    if s == "" then None
    else if RowAt(s).Some? then RowAt(s)
    else ArpRow(s[1..])
  }

  // ----- the methods -----

  lemma {:induction false} RunAtLeast(s: string, k: nat)
    requires k <= |s| && AllDigits(s[..k])
    ensures |DigitRun(s)| >= k
  {
    if k > 0 {
      assert IsDigit(s[..k][0]);
      assert s[1..][..k - 1] == s[..k][1..];
      RunAtLeast(s[1..], k - 1);
    }
  }

  function Shift(r: Option<nat>, d: nat): Option<nat> {
    match r
    case None => None
    case Some(m) => Some(d + m)
  }

  /** One group of `DottedLength`, in terms of the rest of the line. */
  lemma DottedStep(line: string, at: nat, i: nat, n: nat)
    requires at <= i <= |line| && n >= 1
    requires i - at == if |DigitRun(line[at..])| < 4 then |DigitRun(line[at..])| else 4
    ensures i == at || i - at > 3 ==> DottedLength(line[at..], n) == None
    ensures 1 <= i - at <= 3 && n == 1 ==> DottedLength(line[at..], n) == Some(i - at)
    ensures 1 <= i - at <= 3 && n > 1 ==>
      DottedLength(line[at..], n) ==
      if i < |line| && line[i] == '.' then Shift(DottedLength(line[i + 1..], n - 1), i + 1 - at) else None
  {
    hide DigitRun;
    if i < |line| {
      assert line[at..][i - at + 1..] == line[i + 1..];
      assert line[at..][i - at] == line[i];
    }
  }

  /** One group of `MacLength`, in terms of the rest of the line. */
  lemma MacStep(line: string, at: nat, i: nat, n: nat)
    requires at <= i <= |line| && n >= 1 && i - at == HexPair(line[at..])
    ensures i == at ==> MacLength(line[at..], n) == None
    ensures i > at && n == 1 ==> MacLength(line[at..], n) == Some(i - at)
    ensures i > at && n > 1 ==>
      MacLength(line[at..], n) ==
      if i < |line| && MacSep(line[i]) then Shift(MacLength(line[i + 1..], n - 1), i + 1 - at) else None
  {
    if i < |line| {
      assert line[at..][i - at + 1..] == line[i + 1..];
    }
  }

  /** Read up to four digits: three are a group, four are too many. */
  method DigitGroup(haystack: string, start: nat) returns (i: nat)
    requires start <= |haystack|
    ensures i <= |haystack|
    ensures var run := |DigitRun(haystack[start..])|; i == start + if run < 4 then run else 4
  {
    i := start;
    ghost var rest := haystack[start..];
    while i < |haystack| && IsDigit(haystack[i]) && i - start < 4
      invariant start <= i <= |haystack| && i - start <= 4
      invariant AllDigits(rest[..i - start])
    {
      i := i + 1;
    }
    if i - start < 4 {
      RunIs(rest, i - start);
    } else {
      RunAtLeast(rest, 4);
    }
  }

  method ParseIpv4At(haystack: string, start: nat) returns (r: Option<(string, nat)>)
    requires start <= |haystack|
    ensures r == match DottedLength(haystack[start..], 4)
                 case None => None
                 case Some(n) => Some((haystack[start..start + n], start + n))
  {
    hide DottedLength;
    var i := start;
    ghost var all := DottedLength(haystack[start..], 4);
    for group := 0 to 4
      invariant start <= i <= |haystack|
      invariant group < 4 ==> all == Shift(DottedLength(haystack[i..], 4 - group), i - start)
      invariant group == 4 ==> all == Some(i - start)
    {
      var groupStart := i;
      i := DigitGroup(haystack, i);
      DottedStep(haystack, groupStart, i, 4 - group);
      if i == groupStart || i - groupStart > 3 {
        return None;
      }
      if group < 3 {
        if i >= |haystack| || haystack[i] != '.' {
          return None;
        }
        i := i + 1;
      }
    }
    return Some((haystack[start..i], i));
  }

  /** Read up to six groups greedily; `i` is the end when all six were there. */
  method MacGroups(line: string, start: nat) returns (groups: nat, i: nat)
    requires start <= |line|
    ensures groups <= 6 && start <= i <= |line|
    ensures MacLength(line[start..], 6) == if groups == 6 then Some(i - start) else None
  {
    hide MacLength;
    i := start;
    groups := 0;
    ghost var all := MacLength(line[start..], 6);
    while true
      invariant groups < 6 && start <= i <= |line|
      invariant all == Shift(MacLength(line[i..], 6 - groups), i - start)
      decreases 6 - groups
    {
      var groupStart := i;
      while i < |line| && Hex(line[i]) && i - groupStart < 2
        invariant groupStart <= i <= |line| && i - groupStart <= 2
        invariant forall k :: groupStart <= k < i ==> Hex(line[k])
      {
        i := i + 1;
      }
      MacStep(line, groupStart, i, 6 - groups);
      if i == groupStart {
        break;
      }
      groups := groups + 1;
      if groups == 6 {
        break;
      }
      if i < |line| && MacSep(line[i]) {
        i := i + 1;
      } else {
        break;
      }
    }
  }

  method ParseMacAt(line: string, from: nat) returns (r: Option<(string, nat)>)
    requires from <= |line|
    ensures FirstMac(line[from..]) == None ==> r == None
    ensures FirstMac(line[from..]).Some? ==>
      var f := FirstMac(line[from..]).value;
      var text := line[from + f.at..from + f.at + f.length];
      NormalizeMac(text).Some? && r == Some((NormalizeMac(text).value, from + f.at + f.length))
  {
    hide MacLength, FirstMac, NormalizeMac;
    var scan := from;
    ghost var all := FirstMac(line[from..]);
    while scan < |line|
      invariant from <= scan <= |line|
      invariant all == Later(FirstMac(line[scan..]), scan - from)
    {
      FirstMacStep(line, scan);
      if !Hex(line[scan]) {
        scan := scan + 1;
        continue;
      }
      var groups, i := MacGroups(line, scan);
      if groups == 6 {
        var mac := NormalizeMac(line[scan..i]);
        MacNormalizes(line[scan..], 6);
        assert line[scan..][..i - scan] == line[scan..i];
        assert all == Some(Found(scan - from, i - scan));
        if mac.Some? {
          return Some((mac.value, i));
        }
      }
      scan := scan + 1;
    }
    FirstMacStep(line, scan);
    return None;
  }

  function Later(r: Option<Found>, d: nat): Option<Found> {
    match r
    case None => None
    case Some(f) => Some(f.(at := f.at + d))
  }

  lemma FirstMacStep(line: string, scan: nat)
    requires scan <= |line|
    ensures scan == |line| ==> FirstMac(line[scan..]) == None
    ensures scan < |line| && !Hex(line[scan]) ==> MacLength(line[scan..], 6) == None
    ensures scan < |line| ==>
      FirstMac(line[scan..]) ==
      match MacLength(line[scan..], 6)
      case Some(n) => Some(Found(0, n))
      case None => Later(FirstMac(line[scan + 1..]), 1)
  {
    if scan < |line| {
      assert line[scan..][1..] == line[scan + 1..];
    }
  }

  /** The first position where a row can be read. After the separators an `at ` may stand, but the
      hardware address is searched from the first separator on anyway. */
  method ParseArpLine(line: string) returns (r: Option<Row>)
    ensures r == ArpRow(line)
  {
    hide ArpRow, RowAt, DottedLength, FirstMac, MacLength, NormalizeMac;
    assert line[0..] == line;
    for start := 0 to |line|
      invariant ArpRow(line) == ArpRow(line[start..])
    {
      RowStep(line, start);
      if !IsDigit(line[start]) {
        continue;
      }
      var address := ParseIpv4At(line, start);
      if address == None {
        continue;
      }
      var (ip, sepStart) := address.value;
      var i := sepStart;
      while i < |line| && RowSep(line[i])
        invariant sepStart <= i <= |line|
        invariant i > sepStart ==> RowSep(line[sepStart])
      {
        i := i + 1;
      }
      if i == sepStart {
        continue;
      }
      if i + 3 <= |line| && line[i..i + 3] == "at " {
        i := i + 3;
        while i < |line| && Blank(line[i])
          invariant i <= |line|
        {
          i := i + 1;
        }
      }
      var mac := ParseMacAt(line, sepStart);
      if mac.Some? {
        return Some(Row(ip, mac.value.0));
      }
    }
    RowStep(line, |line|);
    return None;
  }

  lemma RowStep(line: string, start: nat)
    requires start <= |line|
    ensures start == |line| ==> ArpRow(line[start..]) == None
    ensures start < |line| ==>
      ArpRow(line[start..]) == if RowAt(line[start..]).Some? then RowAt(line[start..]) else ArpRow(line[start + 1..])
    ensures start < |line| && !IsDigit(line[start]) ==> RowAt(line[start..]) == None
    ensures match DottedLength(line[start..], 4)
            case None => RowAt(line[start..]) == None
            case Some(n) =>
              var sep := start + n;
              if sep < |line| && RowSep(line[sep]) && FirstMac(line[sep..]).Some? then
                var f := FirstMac(line[sep..]).value;
                var mac := NormalizeMac(line[sep + f.at..sep + f.at + f.length]);
                RowAt(line[start..]) == if mac.Some? then Some(Row(line[start..sep], mac.value)) else None
              else RowAt(line[start..]) == None
  {
    hide DottedLength, FirstMac, MacLength, NormalizeMac;
    var s := line[start..];
    if start < |line| {
      assert s[1..] == line[start + 1..];
      if !IsDigit(s[0]) {
        DottedStep(line, start, start, 4);
      }
    }
    if DottedLength(s, 4).Some? {
      var n := DottedLength(s, 4).value;
      assert s[n..] == line[start + n..];
      assert s[..n] == line[start..start + n];
      if FirstMac(s[n..]).Some? {
        var f := FirstMac(s[n..]).value;
        assert s[n..][f.at..f.at + f.length] == line[start + n + f.at..start + n + f.at + f.length];
      }
    }
  }

  // ----- the scanners against the grammar -----

  /** A group before the rest of a hardware address. */
  lemma MacCons(run: string, c: char, tail: string, n: nat)
    requires 1 <= |run| <= 2 && AllHex(run) && MacSep(c)
    ensures MacText(run + [c] + tail, n + 1) <==> MacText(tail, n)
  {
    assert Colons(run) == run;
    SplitWhole(run, ':');
    assert Colons(run + [c] + tail) == run + [':'] + Colons(tail);
    SplitConcat(run, Colons(tail), ':');
    var rest := Split(Colons(tail), ':');
    assert forall i :: 0 <= i < |rest| ==> ([run] + rest)[i + 1] == rest[i];
  }

  lemma MacOne(run: string)
    requires 1 <= |run| <= 2 && AllHex(run)
    ensures MacText(run, 1)
  {
    assert Colons(run) == run;
    SplitWhole(run, ':');
  }

  lemma {:induction false} MacLengthReads(s: string, n: nat)
    requires n >= 1 && MacLength(s, n).Some?
    ensures MacText(s[..MacLength(s, n).value], n)
    decreases n
  {
    hide MacText, MacLength;
    var k, m := HexPair(s), MacLength(s, n).value;
    assert s[0..] == s;
    MacStep(s, 0, k, n);
    if n == 1 {
      MacOne(s[..k]);
    } else {
      var rest := s[k + 1..];
      MacLengthReads(rest, n - 1);
      var tail := rest[..m - k - 1];
      assert s[..m] == s[..k] + [s[k]] + tail;
      MacCons(s[..k], s[k], tail, n - 1);
    }
  }

  lemma MacNormalizes(s: string, n: nat)
    requires n == 6 && MacLength(s, n).Some?
    ensures NormalizeMac(s[..MacLength(s, n).value]).Some?
  {
    MacLengthReads(s, n);
    var t := s[..MacLength(s, n).value];
    LowerSplit(Colons(t));
  }

  function LowerAll(pieces: seq<string>): seq<string> {
    seq(|pieces|, i requires 0 <= i < |pieces| => Lower(pieces[i]))
  }

  lemma LowerAllCons(p: string, rest: seq<string>)
    ensures LowerAll([p] + rest) == [Lower(p)] + LowerAll(rest)
  {
  }

  lemma {:induction false} LowerSplit(t: string)
    ensures Split(Lower(t), ':') == LowerAll(Split(t, ':'))
    decreases |t|
  {
    if t == "" {
      assert Lower(t) == "";
      assert Split(t, ':') == [""] && LowerAll([""]) == [""];
    } else {
      LowerSplit(t[1..]);
      var c, rest := LowerChar(t[0]), Split(t[1..], ':');
      LowerTail(t);
      assert c == ':' <==> t[0] == ':';
      hide Lower, LowerChar, LowerAll;
      if t[0] == ':' {
        LowerAllCons("", rest);
        LowerEmpty();
      } else {
        LowerAllCons([t[0]] + rest[0], rest[1..]);
        LowerAllCons(rest[0], rest[1..]);
        LowerCons(t[0], rest[0]);
        assert [rest[0]] + rest[1..] == rest;
      }
    }
  }

  lemma LowerEmpty()
    ensures Lower("") == ""
  {
  }

  lemma LowerCons(c: char, t: string)
    ensures Lower([c] + t) == [LowerChar(c)] + Lower(t)
  {
  }

  lemma LowerTail(t: string)
    requires t != ""
    ensures Lower(t) != "" && Lower(t)[0] == LowerChar(t[0]) && Lower(t)[1..] == Lower(t[1..])
  {
  }
}
