/** What the scanners of `ArpScan` find, and which lines they read. */
module ArpRows {
  import opened Prelude
  import opened Text
  import opened ArpScan
  import opened MacForm

  // ----- the scanners against the grammar -----

  lemma DottedCons(run: string, tail: string, n: nat)
    requires '.' !in run
    ensures Dotted(run + ['.'] + tail, n + 1) <==> 1 <= |run| <= 3 && AllDigits(run) && Dotted(tail, n)
  {
    SplitWhole(run, '.');
    SplitConcat(run, tail, '.');
    var rest := Split(tail, '.');
    assert ([run] + rest)[0] == run;
    assert forall i :: 0 <= i < |rest| ==> ([run] + rest)[i + 1] == rest[i];
  }

  /** The first group and what follows it. */
  lemma DottedParts(t: string, n: nat) returns (k: nat)
    requires n >= 1 && Dotted(t, n)
    ensures 1 <= k <= 3 && k <= |t| && AllDigits(t[..k])
    ensures n == 1 ==> k == |t|
    ensures n > 1 ==> k < |t| && t[k] == '.' && Dotted(t[k + 1..], n - 1)
  {
    var pieces := Split(t, '.');
    JoinSplit(t, '.');
    k := |pieces[0]|;
    if n > 1 {
      var tail := Join(pieces[1..], '.');
      assert t == pieces[0] + ['.'] + tail;
      assert t[..k] == pieces[0] && t[k + 1..] == tail;
      DottedCons(pieces[0], tail, n - 1);
    }
  }

  lemma {:induction false} DottedLengthReads(s: string, n: nat)
    requires n >= 1 && DottedLength(s, n).Some?
    ensures var m := DottedLength(s, n).value; Dotted(s[..m], n) && (m < |s| ==> !IsDigit(s[m]))
    decreases n
  {
    hide Dotted, DottedLength, DigitRun;
    var k, m := |DigitRun(s)|, DottedLength(s, n).value;
    assert s[0..] == s;
    DottedStep(s, 0, if k < 4 then k else 4, n);
    if n == 1 {
      DottedOne(s[..k]);
    } else {
      var rest := s[k + 1..];
      DottedLengthReads(rest, n - 1);
      DottedJoined(s, k, m - k - 1, n - 1);
    }
  }

  lemma DottedJoined(s: string, k: nat, m: nat, n: nat)
    requires 1 <= k <= 3 && k < |s| && AllDigits(s[..k]) && s[k] == '.'
    requires m <= |s[k + 1..]| && Dotted(s[k + 1..][..m], n)
    ensures Dotted(s[..k + 1 + m], n + 1)
    ensures m < |s[k + 1..]| ==> s[k + 1..][m] == s[k + 1 + m]
  {
    hide Dotted;
    var tail := s[k + 1..][..m];
    assert s[..k + 1 + m] == s[..k] + ['.'] + tail;
    DottedCons(s[..k], tail, n);
  }

  lemma DottedOne(run: string)
    requires 1 <= |run| <= 3 && AllDigits(run)
    ensures Dotted(run, 1)
  {
    SplitWhole(run, '.');
  }

  lemma {:induction false} DottedIsRead(s: string, n: nat, m: nat)
    requires n >= 1 && m <= |s| && Dotted(s[..m], n) && (m < |s| ==> !IsDigit(s[m]))
    ensures DottedLength(s, n) == Some(m)
    decreases n
  {
    hide DottedLength, DigitRun, Dotted;
    var k := DottedParts(s[..m], n);
    assert s[..m][..k] == s[..k];
    assert k < m ==> s[k] == s[..m][k];
    RunIs(s, k);
    assert s[0..] == s;
    DottedStep(s, 0, k, n);
    if n > 1 {
      var rest := s[k + 1..];
      assert s[..m][k + 1..] == rest[..m - k - 1];
      assert m < |s| ==> s[m] == rest[m - k - 1];
      DottedIsRead(rest, n - 1, m - k - 1);
    }
  }

  /** The scanner accepts a dotted text exactly when no digit follows it. */
  lemma DottedLengthIff(s: string, n: nat, m: nat)
    requires n >= 1
    ensures DottedLength(s, n) == Some(m) <==> m <= |s| && Dotted(s[..m], n) && (m < |s| ==> !IsDigit(s[m]))
  {
    hide Dotted, DottedLength;
    if DottedLength(s, n) == Some(m) {
      DottedLengthReads(s, n);
    } else if m <= |s| && Dotted(s[..m], n) && (m < |s| ==> !IsDigit(s[m])) {
      DottedIsRead(s, n, m);
    }
  }

  /** The first group of a hardware address and what follows it. */
  lemma MacParts(t: string, n: nat) returns (k: nat)
    requires n >= 1 && MacText(t, n)
    ensures 1 <= k <= 2 && k <= |t| && AllHex(t[..k])
    ensures n == 1 ==> k == |t|
    ensures n > 1 ==> k < |t| && MacSep(t[k]) && MacText(t[k + 1..], n - 1)
  {
    var c := Colons(t);
    var pieces := Split(c, ':');
    JoinSplit(c, ':');
    k := |pieces[0]|;
    assert c[..k] == pieces[0];
    assert forall i :: 0 <= i < k ==> t[i] == c[..k][i];
    if n > 1 {
      assert c == pieces[0] + [':'] + Join(pieces[1..], ':');
      assert c[k] == ':';
      assert t == t[..k] + [t[k]] + t[k + 1..];
      MacCons(t[..k], t[k], t[k + 1..], n - 1);
    }
  }

  /** The scanner reads an address of `n` groups wherever one stands, and takes the longest. */
  lemma {:induction false} MacIsRead(s: string, n: nat, m: nat)
    requires n >= 1 && m <= |s| && MacText(s[..m], n)
    ensures 1 <= m && MacLength(s, n).Some? && m <= MacLength(s, n).value <= m + 1
    ensures m < MacLength(s, n).value ==> m < |s| && Hex(s[m]) && (m >= 2 ==> !Hex(s[m - 2]))
    decreases n
  {
    hide MacText, MacLength;
    var k := MacParts(s[..m], n);
    assert forall i :: 0 <= i < k ==> s[i] == s[..m][..k][i];
    assert Hex(s[0]) && (k == 2 ==> Hex(s[1]));
    assert s[0..] == s;
    if n > 1 {
      var rest := s[k + 1..];
      assert s[k] == s[..m][k];
      assert s[..m][k + 1..] == rest[..m - k - 1];
      MacStep(s, 0, k, n);
      MacIsRead(rest, n - 1, m - k - 1);
      ShiftedChars(s, k + 1, m - k - 1);
    } else {
      MacStep(s, 0, HexPair(s), n);
      assert HexPair(s) == 2 ==> Hex(s[..2][1]);
    }
  }

  lemma ShiftedChars(s: string, d: nat, m: nat)
    requires d <= |s| && m <= |s[d..]|
    ensures m < |s[d..]| ==> s[d..][m] == s[d + m]
    ensures m >= 2 ==> s[d..][m - 2] == s[d + m - 2]
  {
  }

  predicate MacAt(s: string, q: nat, m: nat) {
    q + m <= |s| && MacText(s[q..q + m], 6)
  }

  lemma {:induction false} FirstMacScans(s: string)
    ensures FirstMac(s) == None ==> forall q :: 0 <= q <= |s| ==> MacLength(s[q..], 6) == None
    ensures FirstMac(s).Some? ==>
      var f := FirstMac(s).value;
      && MacLength(s[f.at..], 6) == Some(f.length)
      && forall q :: 0 <= q < f.at ==> MacLength(s[q..], 6) == None
  {
    hide MacLength;
    assert s[0..] == s;
    FirstMacStep(s, 0);
    if s == "" {
      NoEmptyMac();
    } else if MacLength(s, 6).None? {
      var rest := s[1..];
      FirstMacScans(rest);
      forall q | 0 < q <= |s| ensures s[q..] == rest[q - 1..] {
      }
    }
  }

  lemma NoEmptyMac()
    ensures MacLength("", 6) == None
  {
  }

  /** `FirstMac` finds the first place where an address stands, and none only when there is none. */
  lemma FirstMacFirst(s: string)
    ensures FirstMac(s) == None ==> forall q: nat, m: nat :: !MacAt(s, q, m)
    ensures FirstMac(s).Some? ==>
      var f := FirstMac(s).value;
      MacAt(s, f.at, f.length) && forall q: nat, m: nat :: q < f.at ==> !MacAt(s, q, m)
  {
    hide MacText, MacLength, FirstMac;
    FirstMacScans(s);
    forall q: nat, m: nat | MacAt(s, q, m) ensures MacLength(s[q..], 6).Some? {
      assert s[q..][..m] == s[q..q + m];
      MacIsRead(s[q..], 6, m);
    }
    if FirstMac(s).Some? {
      var f := FirstMac(s).value;
      MacLengthReads(s[f.at..], 6);
      assert s[f.at..][..f.length] == s[f.at..f.at + f.length];
    }
  }

  // ----- reading a rendered row -----

  /** No row can be read from inside the text before. */
  ghost predicate NoRowIn(p: string, rest: string) {
    forall i :: 0 <= i < |p| ==> RowAt(p[i..] + rest) == None
  }

  /** Text between the two addresses: it opens with a separator and cannot be part of the second. */
  predicate Between(mid: string) {
    && mid != "" && RowSep(mid[0]) && !Hex(mid[|mid| - 1])
    && forall i :: 0 <= i < |mid| ==> !MacSep(mid[i])
  }

  /** Text after the second address that does not make it longer. */
  predicate After(mac: string, suffix: string) {
    suffix == "" || !Hex(suffix[0]) || (|mac| >= 2 && Hex(mac[|mac| - 2]))
  }

  /** A dotted text has nothing but dots and digits. */
  lemma {:induction false} DottedChars(s: string, n: nat)
    requires n >= 1 && DottedLength(s, n).Some?
    ensures forall i :: 0 <= i < DottedLength(s, n).value ==> IsDigit(s[i]) || s[i] == '.'
    decreases n
  {
    hide DottedLength, DigitRun;
    var run := DigitRun(s);
    var k := |run|;
    assert s[0..] == s;
    DottedStep(s, 0, if k < 4 then k else 4, n);
    assert forall i :: 0 <= i < k ==> IsDigit(run[i]) && s[i] == run[i];
    if n > 1 {
      var rest := s[k + 1..];
      DottedChars(rest, n - 1);
      forall i | k < i < DottedLength(s, n).value ensures s[i] == rest[i - k - 1] {
      }
    }
  }

  lemma NoRowTail(p: string, rest: string)
    requires p != "" && NoRowIn(p, rest)
    ensures RowAt(p + rest) == None && NoRowIn(p[1..], rest)
  {
    hide RowAt;
    assert p[0..] == p;
    forall i | 0 <= i < |p[1..]| ensures RowAt(p[1..][i..] + rest) == None {
      assert p[1..][i..] == p[i + 1..];
    }
  }

  lemma {:induction false} ReadAfter(p: string, rest: string)
    requires NoRowIn(p, rest)
    ensures ArpRow(p + rest) == ArpRow(rest)
  {
    hide RowAt, NoRowIn;
    if p == "" {
      assert p + rest == rest;
    } else {
      NoRowTail(p, rest);
      ReadAfter(p[1..], rest);
      assert (p + rest)[1..] == p[1..] + rest;
    }
  }

  /** No address starts in the text between. */
  lemma {:induction false} MacAfter(mid: string, rest: string)
    requires mid != "" ==> !Hex(mid[|mid| - 1])
    requires forall i :: 0 <= i < |mid| ==> !MacSep(mid[i])
    ensures FirstMac(mid + rest) == Later(FirstMac(rest), |mid|)
  {
    hide MacLength, FirstMac;
    var s := mid + rest;
    if mid == "" {
      assert s == rest;
    } else {
      assert s[0..] == s && s[1..] == mid[1..] + rest;
      FirstMacStep(s, 0);
      MacAfter(mid[1..], rest);
      var k := HexPair(s);
      assert s[|mid| - 1] == mid[|mid| - 1];
      assert forall i :: 0 <= i < k ==> Hex(s[..k][i]) && s[..k][i] == s[i];
      assert k < |mid| && s[k] == mid[k];
      MacStep(s, 0, k, 6);
    }
  }

  lemma MacRead(mac: string, suffix: string)
    requires MacText(mac, 6) && After(mac, suffix)
    ensures MacLength(mac + suffix, 6) == Some(|mac|)
  {
    hide MacText, MacLength;
    var s := mac + suffix;
    assert s[..|mac|] == mac;
    MacIsRead(s, 6, |mac|);
    assert |mac| >= 2 ==> s[|mac| - 2] == mac[|mac| - 2];
  }

  /** A row is read back from any line that shows it, however the address is spelled. */
  lemma RowReads(prefix: string, ip: string, mid: string, mac: string, suffix: string)
    requires NoRowIn(prefix, ip + (mid + (mac + suffix)))
    requires Dotted(ip, 4) && Between(mid) && MacText(mac, 6) && After(mac, suffix)
    ensures SixBytes(Bytes(mac)) && ArpRow(prefix + (ip + (mid + (mac + suffix)))) == Some(Row(ip, Print(Bytes(mac))))
  {
    hide NoRowIn, Dotted, MacText, MacLength, DottedLength, FirstMac, NormalizeMac, After, Bytes, Print;
    var tail := mac + suffix;
    var s := ip + (mid + tail);
    NormalizeMeans(mac);
    ReadAfter(prefix, s);
    assert s[..|ip|] == ip && s[|ip|..] == mid + tail && s[|ip|] == mid[0];
    DottedLengthIff(s, 4, |ip|);
    MacAfter(mid, tail);
    MacRead(mac, suffix);
    assert tail[0..] == tail;
    FirstMacStep(tail, 0);
    assert (mid + tail)[|mid|..|mid| + |mac|] == mac;
  }

  // ----- texts before which no row can be read from -----

  /** A whole address right before a separator. */
  predicate Decoy(p: string, start: nat, end: nat) {
    start < end < |p| && Dotted(p[start..end], 4) && RowSep(p[end])
  }

  /** No address ends inside the text before a separator, and none can begin in it and go on after. */
  ghost predicate Before(p: string) {
    && (forall start: nat, end: nat :: !Decoy(p, start, end))
    && (p != "" ==> !IsDigit(p[|p| - 1]) && p[|p| - 1] != '.')
  }

  lemma BeforeHoldsNoRow(p: string, rest: string)
    requires Before(p)
    ensures NoRowIn(p, rest)
  {
    hide DottedLength, FirstMac, MacLength, NormalizeMac, Dotted;
    forall i | 0 <= i < |p| ensures RowAt(p[i..] + rest) == None {
      var s := p[i..] + rest;
      if DottedLength(s, 4).Some? {
        var m := DottedLength(s, 4).value;
        DottedChars(s, 4);
        DottedLengthReads(s, 4);
        assert s[|p| - i - 1] == p[|p| - 1];
        if i + m < |p| {
          assert s[..m] == p[i..i + m] && s[m] == p[i + m];
          assert !Decoy(p, i, i + m);
        }
      }
    }
  }

  lemma NoDigitsNoRow(p: string, rest: string)
    requires forall i :: 0 <= i < |p| ==> !IsDigit(p[i])
    ensures NoRowIn(p, rest)
  {
    hide RowAt;
    forall i | 0 <= i < |p| ensures RowAt(p[i..] + rest) == None {
      var s := p[i..] + rest;
      assert s[0] == p[i] && s[0..] == s;
      RowStep(s, 0);
    }
  }

  // ----- what is read, and when nothing is -----

  /** At `start` stands an address, at its end a separator, and later a hardware address. */
  ghost predicate RowStands(line: string, start: nat, end: nat, at: nat, length: nat) {
    && start < end <= at && end < |line|
    && Dotted(line[start..end], 4) && RowSep(line[end])
    && MacAt(line, at, length)
  }

  /** The row at one position: the address there, and the first hardware address after it. */
  lemma RowAtSound(line: string)
    requires RowAt(line).Some?
    ensures var row := RowAt(line).value;
            exists end: nat, at: nat, length: nat ::
              && RowStands(line, 0, end, at, length)
              && row.ip == line[..end] && SixBytes(Bytes(line[at..at + length]))
              && row.mac == Print(Bytes(line[at..at + length]))
              && forall q: nat, m: nat :: q < at - end ==> !MacAt(line[end..], q, m)
  {
    hide Dotted, MacText, MacLength, DottedLength, FirstMac, NormalizeMac, Bytes, Print;
    var n := DottedLength(line, 4).value;
    DottedLengthIff(line, 4, n);
    var rest := line[n..];
    FirstMacFirst(rest);
    var f := FirstMac(rest).value;
    assert rest[f.at..f.at + f.length] == line[n + f.at..n + f.at + f.length];
    NormalizeMeans(rest[f.at..f.at + f.length]);
    assert line[0..n] == line[..n];
    assert RowStands(line, 0, n, n + f.at, f.length);
  }

  lemma RowAtComplete(line: string, end: nat, at: nat, length: nat)
    requires RowStands(line, 0, end, at, length)
    ensures RowAt(line).Some?
  {
    hide Dotted, MacText, MacLength, DottedLength, FirstMac, NormalizeMac, Bytes, Print;
    assert line[0..end] == line[..end];
    DottedLengthIff(line, 4, end);
    var rest := line[end..];
    assert rest[at - end..at - end + length] == line[at..at + length];
    FirstMacFirst(rest);
    assert MacAt(rest, at - end, length);
    var f := FirstMac(rest).value;
    NormalizeMeans(rest[f.at..f.at + f.length]);
  }

  /** A line gives a row exactly when a row stands somewhere in it. */
  lemma {:induction false} ArpRowIff(line: string)
    ensures ArpRow(line).Some? <==> exists start: nat, end: nat, at: nat, length: nat :: RowStands(line, start, end, at, length)
  {
    hide RowAt, Dotted, MacText;
    if line != "" {
      if RowAt(line).Some? {
        RowAtSound(line);
      } else {
        var rest := line[1..];
        ArpRowIff(rest);
        forall start: nat, end: nat, at: nat, length: nat
          ensures RowStands(rest, start, end, at, length) <==> RowStands(line, start + 1, end + 1, at + 1, length)
        {
          RowStandsLater(line, start, end, at, length);
        }
        if start: nat, end: nat, at: nat, length: nat :| RowStands(line, start, end, at, length) {
          if start == 0 {
            RowAtComplete(line, end, at, length);
          } else {
            assert RowStands(rest, start - 1, end - 1, at - 1, length);
          }
        }
      }
    }
  }

  lemma RowStandsLater(line: string, start: nat, end: nat, at: nat, length: nat)
    requires line != ""
    ensures RowStands(line[1..], start, end, at, length) <==> RowStands(line, start + 1, end + 1, at + 1, length)
  {
    hide Dotted, MacText;
    var rest := line[1..];
    assert start <= end <= |rest| ==> rest[start..end] == line[start + 1..end + 1];
    assert at + length <= |rest| ==> rest[at..at + length] == line[at + 1..at + 1 + length];
  }
}
