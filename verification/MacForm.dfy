/** Hardware addresses as six numbers: what `normalize_mac` and `is_usable_mac` make of them. */
module MacForm {
  import opened Prelude
  import opened Text
  import opened ArpScan

  function HexDigit(c: char): (d: nat)
    requires Hex(c)
    ensures d < 16
  {
    if IsDigit(c) then c as int - '0' as int
    else if 'a' <= c <= 'f' then c as int - 'a' as int + 10
    else c as int - 'A' as int + 10
  }

  function HexNumber(g: string): nat
    requires AllHex(g)
  {
    if g == "" then 0 else HexNumber(g[..|g| - 1]) * 16 + HexDigit(g[|g| - 1])
  }

  function LowHex(d: nat): (c: char)
    requires d < 16
    ensures Hex(c) && HexDigit(c) == d && c != '-' && c != ':'
  {
    if d < 10 then ('0' as int + d) as char else ('a' as int + d - 10) as char
  }

  /** Two lower-case digits. */
  function Hex2(b: nat): string
    requires b < 256
  {
    [LowHex(b / 16), LowHex(b % 16)]
  }

  predicate SixBytes(b: seq<nat>) {
    |b| == 6 && forall i :: 0 <= i < 6 ==> b[i] < 256
  }

  function Hexes(b: seq<nat>): seq<string>
    requires SixBytes(b)
  {
    seq(6, i requires 0 <= i < 6 => Hex2(b[i]))
  }

  /** The canonical text: two lower-case digits a group, with colons. */
  function Print(b: seq<nat>): string
    requires SixBytes(b)
  {
    Join(Hexes(b), ':')
  }

  /** The numbers an address is written with. */
  function Bytes(t: string): seq<nat>
    requires MacText(t, 6)
  {
    var pieces := Split(Colons(t), ':');
    seq(6, i requires 0 <= i < 6 => HexNumber(pieces[i]))
  }

  lemma LowerDigit(c: char)
    requires Hex(c)
    ensures LowerChar(c) == LowHex(HexDigit(c))
  {
  }

  lemma NumberOne(c: char)
    requires Hex(c)
    ensures HexNumber([c]) == HexDigit(c)
  {
    assert [c][..0] == "";
    assert HexNumber("") == 0;
  }

  lemma NumberTwo(c: char, d: char)
    requires Hex(c) && Hex(d)
    ensures HexNumber([c, d]) == HexDigit(c) * 16 + HexDigit(d)
  {
    NumberOne(c);
    assert [c, d][..1] == [c];
  }

  lemma GroupOne(c: char)
    requires Hex(c)
    ensures HexNumber([c]) < 256 && Pad2(Lower([c])) == Hex2(HexNumber([c]))
  {
    LowerDigit(c);
    NumberOne(c);
    ZeroDigit();
    hide HexDigit, LowHex, LowerChar, HexNumber;
    assert Lower([c]) == [LowerChar(c)];
  }

  lemma GroupTwo(c: char, d: char)
    requires Hex(c) && Hex(d)
    ensures HexNumber([c, d]) < 256 && Pad2(Lower([c, d])) == Hex2(HexNumber([c, d]))
  {
    LowerDigit(c);
    LowerDigit(d);
    NumberTwo(c, d);
    hide HexDigit, LowHex, LowerChar, HexNumber;
    assert Lower([c, d]) == [LowerChar(c), LowerChar(d)];
  }

  lemma GroupMeans(g: string)
    requires 1 <= |g| <= 2 && AllHex(g)
    ensures HexNumber(g) < 256 && Pad2(Lower(g)) == Hex2(HexNumber(g))
  {
    hide HexNumber, Pad2, Lower, Hex2;
    if |g| == 1 {
      assert g == [g[0]];
      GroupOne(g[0]);
    } else {
      assert g == [g[0], g[1]];
      GroupTwo(g[0], g[1]);
    }
  }

  lemma ZeroDigit()
    ensures LowHex(0) == '0'
  {
  }

  /** Any spelling of an address is brought to the canonical text of its six numbers. */
  lemma NormalizeMeans(t: string)
    requires MacText(t, 6)
    ensures SixBytes(Bytes(t)) && NormalizeMac(t) == Some(Print(Bytes(t)))
  {
    var pieces := Split(Colons(t), ':');
    LowerSplit(Colons(t));
    forall i | 0 <= i < 6 ensures HexNumber(pieces[i]) < 256 && Pad2(Lower(pieces[i])) == Hex2(HexNumber(pieces[i])) {
      GroupMeans(pieces[i]);
    }
    assert PadAll(LowerAll(pieces)) == Hexes(Bytes(t));
  }

  lemma {:induction false} JoinChars(pieces: seq<string>, c: char)
    requires c != ':' && forall i :: 0 <= i < |pieces| ==> c !in pieces[i]
    ensures c !in Join(pieces, ':')
  {
    if |pieces| > 1 {
      JoinChars(pieces[1..], c);
    }
  }

  /** The canonical text says its six numbers. */
  lemma PrintReads(b: seq<nat>)
    requires SixBytes(b)
    ensures MacText(Print(b), 6) && Bytes(Print(b)) == b
  {
    var pieces := Hexes(b);
    forall i | 0 <= i < 6
      ensures |pieces[i]| == 2 && AllHex(pieces[i]) && HexNumber(pieces[i]) == b[i]
      ensures '-' !in pieces[i] && ':' !in pieces[i]
    {
      Hex2Reads(b[i]);
    }
    hide Hex2, HexNumber, Hexes, Join, Split;
    JoinChars(pieces, '-');
    assert Colons(Print(b)) == Print(b);
    SplitJoin(pieces, ':');
  }

  lemma Hex2Reads(n: nat)
    requires n < 256
    ensures AllHex(Hex2(n)) && HexNumber(Hex2(n)) == n
  {
    var g := Hex2(n);
    assert g[..1] == [g[0]] && [g[0]][..0] == "";
    assert HexNumber("") == 0;
    assert HexNumber([g[0]]) == HexDigit(g[0]);
  }

  /** Normalising is done after one time. */
  lemma NormalizeIdempotent(t: string)
    requires MacText(t, 6)
    ensures NormalizeMac(t).Some? && NormalizeMac(NormalizeMac(t).value) == NormalizeMac(t)
  {
    NormalizeMeans(t);
    PrintReads(Bytes(t));
    NormalizeMeans(Print(Bytes(t)));
  }

  // ----- usable addresses -----

  /** `u8::from_str_radix(text, 16)`: a plus sign may stand in front. */
  function ReadByte(text: string): Option<nat> {
    var digits := if |text| > 1 && text[0] == '+' then text[1..] else text;
    if digits != "" && AllHex(digits) && HexNumber(digits) < 256 then Some(HexNumber(digits)) else None
  }

  predicate IsUsableMac(mac: string) {
    && mac != "ff:ff:ff:ff:ff:ff" && mac != "00:00:00:00:00:00"
    && match ReadByte(Split(mac, ':')[0])
       case None => false
       case Some(first) => first % 2 == 0
  }

  predicate Zero(b: seq<nat>) {
    forall i :: 0 <= i < |b| ==> b[i] == 0
  }

  function Same(n: nat): seq<nat> {
    [n, n, n, n, n, n]
  }

  lemma JoinCons(p: string, rest: seq<string>, c: char)
    requires rest != []
    ensures Join([p] + rest, c) == p + [c] + Join(rest, c)
  {
    assert ([p] + rest)[1..] == rest;
  }

  lemma PrintSame(n: nat, x: char)
    requires n < 256 && Hex2(n) == [x, x]
    ensures Print(Same(n)) == [x, x, ':', x, x, ':', x, x, ':', x, x, ':', x, x, ':', x, x]
  {
    hide Hex2, Join;
    var h := [x, x];
    JoinLast(h);
    JoinCons(h, [h], ':');
    JoinCons(h, [h, h], ':');
    JoinCons(h, [h, h, h], ':');
    JoinCons(h, [h, h, h, h], ':');
    JoinCons(h, [h, h, h, h, h], ':');
    assert [h] + [h] == [h, h];
    assert [h] + [h, h] == [h, h, h];
    assert [h] + [h, h, h] == [h, h, h, h];
    assert [h] + [h, h, h, h] == [h, h, h, h, h];
    assert [h] + [h, h, h, h, h] == Hexes(Same(n));
  }

  lemma JoinLast(h: string)
    ensures Join([h], ':') == h
  {
  }

  lemma Literals()
    ensures Print(Same(0)) == "00:00:00:00:00:00" && Print(Same(255)) == "ff:ff:ff:ff:ff:ff"
  {
    hide Print, Hexes;
    assert Hex2(0) == ['0', '0'] && Hex2(255) == ['f', 'f'];
    PrintSame(0, '0');
    PrintSame(255, 'f');
  }

  lemma PrintInjective(b: seq<nat>, c: seq<nat>)
    requires SixBytes(b) && SixBytes(c) && Print(b) == Print(c)
    ensures b == c
  {
    hide Print, Bytes, MacText;
    PrintReads(b);
    PrintReads(c);
  }

  lemma FirstByte(b: seq<nat>)
    requires SixBytes(b)
    ensures ReadByte(Split(Print(b), ':')[0]) == Some(b[0])
  {
    var pieces := Hexes(b);
    forall i | 0 <= i < 6 ensures ':' !in pieces[i] {
    }
    SplitJoin(pieces, ':');
    Hex2Reads(b[0]);
    assert LowHex(b[0] / 16) != '+';
  }

  /** A canonical address is kept exactly when it is unicast and not all zero. */
  lemma UsableIff(b: seq<nat>)
    requires SixBytes(b)
    ensures IsUsableMac(Print(b)) <==> b[0] % 2 == 0 && !Zero(b)
  {
    hide Print, Split, ReadByte;
    Literals();
    FirstByte(b);
    assert Zero(b) <==> b == Same(0);
    if Print(b) == Print(Same(0)) {
      PrintInjective(b, Same(0));
    }
    if Print(b) == Print(Same(255)) {
      PrintInjective(b, Same(255));
    }
  }

  /** A text is normalised exactly when its colons and dashes cut it into six groups of one or two. */
  lemma NormalizesExactly(raw: string)
    ensures NormalizeMac(raw).Some? <==>
            var p := Split(Colons(raw), ':'); |p| == 6 && forall i :: 0 <= i < 6 ==> 1 <= |p[i]| <= 2
  {
    LowerSplit(Colons(raw));
    var p := Split(Colons(raw), ':');
    assert forall i :: 0 <= i < |p| ==> |LowerAll(p)[i]| == |p[i]|;
  }

  /** A group is read as a byte exactly when it is a hex number up to 255, with or without a plus sign. */
  lemma BytesAreRead(g: string)
    requires AllHex(g)
    ensures ReadByte(g) == (if g != "" && HexNumber(g) <= 255 then Some(HexNumber(g)) else None)
    ensures ReadByte("+" + g) == ReadByte(g)
  {
    assert !Hex('+');
    assert ("+" + g)[1..] == g;
    assert g == "" ==> "+" + g == "+";
  }

  /** An address whose first group is no byte is not usable. */
  lemma UnreadableIsUnusable(mac: string)
    requires ReadByte(Split(mac, ':')[0]) == None
    ensures !IsUsableMac(mac)
  {
  }
}
