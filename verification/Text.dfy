/** Character-level vocabulary: decimal digits, lexicographic order, splitting and joining. */
module Text {
  // ----- decimal digits -----

  predicate IsDigit(c: char) {
    '0' <= c <= '9'
  }

  function DigitChar(d: nat): (c: char)
    requires d < 10
    ensures IsDigit(c) && DigitValue(c) == d
  {
    ('0' as int + d) as char
  }

  function DigitValue(c: char): (d: nat)
    requires IsDigit(c)
    ensures d < 10
  {
    c as int - '0' as int
  }

  predicate AllDigits(s: string) {
    forall i :: 0 <= i < |s| ==> IsDigit(s[i])
  }

  /** The number a digit run denotes, unbounded; the empty run denotes 0. */
  function Value(s: string): nat
    requires AllDigits(s)
  {
    if s == "" then 0 else Value(s[..|s| - 1]) * 10 + DigitValue(s[|s| - 1])
  }

  function Pow10(w: nat): (p: nat)
    ensures p > 0
  {
    if w == 0 then 1 else 10 * Pow10(w - 1)
  }

  /** Decimal text of `n`, zero-padded on the left to at least `w` digits. */
  function Padded(n: nat, w: nat): (s: string)
    ensures AllDigits(s) && Value(s) == n
    ensures |s| >= w && (w > 0 ==> s != "")
  {
    if n == 0 && w == 0 then "" else
      var front := Padded(n / 10, if w == 0 then 0 else w - 1);
      var s := front + [DigitChar(n % 10)];
      assert s[..|s| - 1] == front;
      s
  }

  lemma {:induction false} PaddedWidth(n: nat, w: nat)
    requires n < Pow10(w)
    ensures |Padded(n, w)| == w
  {
    if w > 0 {
      PaddedWidth(n / 10, w - 1);
    }
  }

  /** The longest digit prefix. */
  function DigitRun(s: string): (run: string)
    ensures AllDigits(run) && |run| <= |s| && run == s[..|run|]
    ensures |run| < |s| ==> !IsDigit(s[|run|])
  {
    if s == "" || !IsDigit(s[0]) then "" else [s[0]] + DigitRun(s[1..])
  }

  lemma {:induction false} RunIs(s: string, i: nat)
    requires i <= |s| && AllDigits(s[..i]) && (i < |s| ==> !IsDigit(s[i]))
    ensures DigitRun(s) == s[..i]
  {
    if i > 0 {
      assert IsDigit(s[..i][0]);
      assert s[1..][..i - 1] == s[..i][1..];
      RunIs(s[1..], i - 1);
    }
  }

  // ----- lexicographic order by character code -----

  predicate LexLess(a: string, b: string) {
    if b == "" then false
    else if a == "" then true
    else a[0] < b[0] || (a[0] == b[0] && LexLess(a[1..], b[1..]))
  }

  lemma {:induction false} LexIrreflexive(a: string)
    ensures !LexLess(a, a)
  {
    if a != "" {
      LexIrreflexive(a[1..]);
    }
  }

  lemma {:induction false} LexAsymmetric(a: string, b: string)
    requires LexLess(a, b)
    ensures !LexLess(b, a)
  {
    if a != "" && a[0] == b[0] {
      LexAsymmetric(a[1..], b[1..]);
    }
  }

  /** With first fields of equal width, order is decided by the fields in turn. */
  lemma {:induction false} LexConcat(a: string, a': string, b: string, b': string)
    requires |a| == |a'|
    ensures LexLess(a, a') ==> LexLess(a + b, a' + b')
    ensures a == a' && LexLess(b, b') ==> LexLess(a + b, a' + b')
  {
    if a == "" {
      assert a + b == b && a' + b' == b';
    } else {
      assert (a + b)[1..] == a[1..] + b && (a' + b')[1..] == a'[1..] + b';
      LexConcat(a[1..], a'[1..], b, b');
    }
  }

  lemma {:induction false} LexSnoc(a: string, a': string, c: char, c': char)
    requires |a| == |a'|
    requires LexLess(a, a') || (a == a' && c < c')
    ensures LexLess(a + [c], a' + [c'])
  {
    LexConcat(a, a', [c], [c']);
  }

  /** On zero-padded numbers of one width, text order is number order. */
  lemma {:induction false} PaddedOrder(m: nat, n: nat, w: nat)
    requires m < n < Pow10(w)
    ensures LexLess(Padded(m, w), Padded(n, w))
  {
    PaddedWidth(m, w);
    PaddedWidth(n, w);
    PaddedWidth(m / 10, w - 1);
    PaddedWidth(n / 10, w - 1);
    if m / 10 < n / 10 {
      PaddedOrder(m / 10, n / 10, w - 1);
    }
    LexSnoc(Padded(m / 10, w - 1), Padded(n / 10, w - 1), DigitChar(m % 10), DigitChar(n % 10));
  }

  // ----- splitting on one separator -----

  /** `text.split(sep)`: always at least one piece. */
  function Split(text: string, sep: char): (pieces: seq<string>)
    ensures |pieces| >= 1
    ensures forall i :: 0 <= i < |pieces| ==> sep !in pieces[i]
    decreases |text|
  {
    if text == "" then [""]
    else
      var rest := Split(text[1..], sep);
      if text[0] == sep then [""] + rest
      else [[text[0]] + rest[0]] + rest[1..]
  }

  function Join(pieces: seq<string>, sep: char): string {
    if pieces == [] then ""
    else if |pieces| == 1 then pieces[0]
    else pieces[0] + [sep] + Join(pieces[1..], sep)
  }

  lemma {:induction false} JoinSplit(text: string, sep: char)
    ensures Join(Split(text, sep), sep) == text
    decreases |text|
  {
    if text != "" {
      JoinSplit(text[1..], sep);
      var rest := Split(text[1..], sep);
      if text[0] == sep {
        assert ([""] + rest)[1..] == rest;
      } else {
        var all := [[text[0]] + rest[0]] + rest[1..];
        assert all[1..] == rest[1..];
        if |rest| > 1 {
          assert Join(all, sep) == [text[0]] + Join(rest, sep);
        }
      }
    }
  }

  /** A separator-free text is its own only piece. */
  lemma {:induction false} SplitWhole(text: string, sep: char)
    requires sep !in text
    ensures Split(text, sep) == [text]
    decreases |text|
  {
    if text != "" {
      assert text[0] in text && forall c :: c in text[1..] ==> c in text;
      SplitWhole(text[1..], sep);
      assert [text[0]] + text[1..] == text;
    }
  }

  /** Splitting at a separator character splits the two sides independently. */
  lemma {:induction false} SplitConcat(a: string, b: string, sep: char)
    ensures Split(a + [sep] + b, sep) == Split(a, sep) + Split(b, sep)
    decreases |a|
  {
    if a == "" {
      assert a + [sep] + b == [sep] + b;
      assert ([sep] + b)[1..] == b;
    } else {
      assert (a + [sep] + b)[1..] == a[1..] + [sep] + b;
      SplitConcat(a[1..], b, sep);
    }
  }

  /** Splitting back what was joined from separator-free pieces. */
  lemma {:induction false} SplitJoin(pieces: seq<string>, sep: char)
    requires pieces != []
    requires forall i :: 0 <= i < |pieces| ==> sep !in pieces[i]
    ensures Split(Join(pieces, sep), sep) == pieces
    decreases |pieces|
  {
    SplitWhole(pieces[0], sep);
    if |pieces| > 1 {
      SplitConcat(pieces[0], Join(pieces[1..], sep), sep);
      SplitJoin(pieces[1..], sep);
    }
  }
}
