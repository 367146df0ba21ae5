/** `ip_sort_key` of `packages/gateway-rust/src/network_scan.rs`, and the order it makes. */
module SortKey {
  import opened Prelude
  import opened Text
  import opened ArpScan

  const U64: nat := 0x1_0000_0000_0000_0000

  /** `parse::<u64>`: a plus sign may stand in front; too large a number is an error. */
  function ParseU64(text: string): (r: Option<nat>)
    ensures r.Some? ==> r.value < U64
  {
    var digits := if |text| > 1 && text[0] == '+' then text[1..] else text;
    if digits != "" && AllDigits(digits) && Value(digits) < U64 then Some(Value(digits)) else None
  }

  function FoldKey(parts: seq<string>): nat {
    if parts == [] then 0
    else
      var n := ParseU64(parts[|parts| - 1]);
      (FoldKey(parts[..|parts| - 1]) * 256 % U64 + if n.Some? then n.value else 0) % U64
  }

  function IpSortKey(ip: string): nat {
    var parts := Split(ip, '.');
    FoldKey(if |parts| > 4 then parts[..4] else parts)
  }

  // ----- the key as a number of four parts -----

  datatype Quad = Quad(a: nat, b: nat, c: nat, d: nat)

  function Octets(ip: string): Quad
    requires Dotted(ip, 4)
  {
    var p := Split(ip, '.');
    Quad(Value(p[0]), Value(p[1]), Value(p[2]), Value(p[3]))
  }

  function Key(q: Quad): nat {
    ((q.a * 256 + q.b) * 256 + q.c) * 256 + q.d
  }

  predicate Less(x: Quad, y: Quad) {
    x.a < y.a || (x.a == y.a && (x.b < y.b || (x.b == y.b && (x.c < y.c || (x.c == y.c && x.d < y.d)))))
  }

  /** Every number after the first fits a byte. */
  predicate Bytewise(q: Quad) {
    q.b < 256 && q.c < 256 && q.d < 256
  }

  lemma ShortValue(s: string)
    requires 1 <= |s| <= 3 && AllDigits(s)
    ensures Value(s) < 1000 && ParseU64(s) == Some(Value(s))
  {
    var front := s[..|s| - 1];
    assert Value(front) < 100 by {
      if front != "" {
        var head := front[..|front| - 1];
        assert Value(head) < 10 by {
          if head != "" {
            assert Value(head[..|head| - 1]) == 0;
          }
        }
      }
    }
    assert s[0] != '+';
  }

  /** On dotted text the key is the number of the four groups, to base 256. */
  lemma KeyOfDotted(ip: string)
    requires Dotted(ip, 4)
    ensures IpSortKey(ip) == Key(Octets(ip))
  {
    var p := Split(ip, '.');
    FoldFour(p[0], p[1], p[2], p[3]);
    assert p == [p[0], p[1], p[2], p[3]];
  }

  predicate Group(s: string) {
    1 <= |s| <= 3 && AllDigits(s)
  }

  lemma FoldSnoc(parts: seq<string>, part: string, k: nat)
    requires Group(part) && FoldKey(parts) == k && k < 0x1_0000_0000_0000
    ensures FoldKey(parts + [part]) == k * 256 + Value(part)
    ensures Value(part) < 1000
  {
    assert (parts + [part])[..|parts|] == parts;
    ShortValue(part);
  }

  lemma FoldFour(a: string, b: string, c: string, d: string)
    requires Group(a) && Group(b) && Group(c) && Group(d)
    ensures FoldKey([a, b, c, d]) == Key(Quad(Value(a), Value(b), Value(c), Value(d)))
  {
    assert FoldKey([]) == 0;
    hide FoldKey;
    FoldSnoc([], a, 0);
    assert [] + [a] == [a];
    var k1 := Value(a);
    FoldSnoc([a], b, k1);
    assert [a] + [b] == [a, b];
    var k2 := k1 * 256 + Value(b);
    FoldSnoc([a, b], c, k2);
    assert [a, b] + [c] == [a, b, c];
    var k3 := k2 * 256 + Value(c);
    FoldSnoc([a, b, c], d, k3);
    assert [a, b, c] + [d] == [a, b, c, d];
  }

  /** Among addresses of bytes, key order is the order of the octets from the left. */
  lemma KeyOrder(x: Quad, y: Quad)
    requires Bytewise(x) && Bytewise(y)
    ensures Key(x) < Key(y) <==> Less(x, y)
  {
  }

  /** Numbers of at most three digits. */
  predicate ThreeDigits(q: Quad) {
    q.a < 1000 && q.b < 1000 && q.c < 1000 && q.d < 1000
  }

  /** Past every address of three-digit numbers whose later ones fit a byte. */
  predicate AboveAll(q: Quad) {
    q.a == 999 && (q.b > 255 || (q.b == 255 && (q.c > 255 || (q.c == 255 && q.d > 255))))
  }

  /** The next address whose later numbers all fit, past one that does not. */
  function Past(x: Quad): Quad {
    if x.b >= 256 || (x.b == 255 && (x.c >= 256 || (x.c == 255 && x.d >= 256))) then Quad(x.a + 1, 0, 0, 0)
    else if x.c >= 256 || (x.c == 255 && x.d >= 256) then Quad(x.a, x.b + 1, 0, 0)
    else Quad(x.a, x.b, x.c + 1, 0)
  }

  lemma PastOvertakes(x: Quad)
    requires ThreeDigits(x) && !Bytewise(x) && !AboveAll(x)
    ensures ThreeDigits(Past(x)) && Bytewise(Past(x)) && Less(x, Past(x)) && Key(x) >= Key(Past(x))
  {
  }

  lemma NothingAbove(x: Quad, y: Quad)
    requires AboveAll(x) && ThreeDigits(y) && Bytewise(y)
    ensures !Less(x, y) && Key(x) >= Key(y)
  {
  }

  // ----- the same on text -----

  function ShowQuad(q: Quad): string {
    Join([Padded(q.a, 1), Padded(q.b, 1), Padded(q.c, 1), Padded(q.d, 1)], '.')
  }

  lemma PaddedShort(n: nat)
    requires n < 1000
    ensures Group(Padded(n, 1)) && '.' !in Padded(n, 1)
  {
    var a, b := Padded(n / 10, 0), Padded(n / 10 / 10, 0);
    if n >= 10 {
      if n >= 100 {
        assert Padded(n / 10 / 10 / 10, 0) == "";
        assert |b| == 1;
      }
      assert |a| <= 2;
    }
  }

  lemma ShowReads(q: Quad)
    requires ThreeDigits(q)
    ensures Dotted(ShowQuad(q), 4) && Octets(ShowQuad(q)) == q
  {
    PaddedShort(q.a);
    PaddedShort(q.b);
    PaddedShort(q.c);
    PaddedShort(q.d);
    hide Padded;
    SplitJoin([Padded(q.a, 1), Padded(q.b, 1), Padded(q.c, 1), Padded(q.d, 1)], '.');
  }

  lemma DottedIsShort(ip: string)
    requires Dotted(ip, 4)
    ensures ThreeDigits(Octets(ip))
  {
    var p := Split(ip, '.');
    ShortValue(p[0]);
    ShortValue(p[1]);
    ShortValue(p[2]);
    ShortValue(p[3]);
  }

  /** An address the scanner lets through, with later numbers of a byte. */
  predicate ByteAddress(ip: string) {
    Dotted(ip, 4) && Bytewise(Octets(ip))
  }

  /** The key places `ip` against `other` as the octets do. */
  predicate PlacedAlike(ip: string, other: string)
    requires Dotted(ip, 4) && Dotted(other, 4)
  {
    IpSortKey(ip) < IpSortKey(other) <==> Less(Octets(ip), Octets(other))
  }

  /** The scanner lets groups up to 999 through. The key places such an address among the byte
      addresses as its octets do exactly when it is one of them, or above them all. */
  lemma KeyOrderIff(ip: string)
    requires Dotted(ip, 4)
    ensures ByteAddress(ip) || AboveAll(Octets(ip))
            <==> forall other :: ByteAddress(other) ==> PlacedAlike(ip, other)
  {
    hide IpSortKey, Dotted, Octets, Key, Less, Bytewise, AboveAll, ThreeDigits;
    var x := Octets(ip);
    KeyOfDotted(ip);
    DottedIsShort(ip);
    if ByteAddress(ip) || AboveAll(x) {
      forall other | ByteAddress(other) ensures PlacedAlike(ip, other) {
        KeyOfDotted(other);
        DottedIsShort(other);
        if ByteAddress(ip) {
          KeyOrder(x, Octets(other));
        } else {
          NothingAbove(x, Octets(other));
        }
      }
    } else {
      PastOvertakes(x);
      var other := ShowQuad(Past(x));
      ShowReads(Past(x));
      KeyOfDotted(other);
      assert ByteAddress(other) && !PlacedAlike(ip, other);
    }
  }
}
