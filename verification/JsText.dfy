/** White space and trimming, as the gateway's text helpers define them. */
module JsText {
  const NEL := '\U{0085}'
  const BOM := '\U{FEFF}'

  /** The white space of ECMAScript (`text.rs`). */
  predicate EcmaSpace(c: char) {
    '\U{0009}' <= c <= '\U{000D}' || c == ' ' || c == '\U{00A0}' || c == '\U{1680}'
    || '\U{2000}' <= c <= '\U{200A}' || c == '\U{2028}' || c == '\U{2029}' || c == '\U{202F}'
    || c == '\U{205F}' || c == '\U{3000}' || c == BOM
  }

  /** Rust's `char::is_whitespace`, the Unicode White_Space property. */
  predicate RustSpace(c: char) {
    (EcmaSpace(c) && c != BOM) || c == NEL
  }

  /** The white space `app_config.rs` trims: Rust's, and the byte order mark. */
  predicate AppSpace(c: char) {
    RustSpace(c) || c == BOM
  }

  function TrimStart(s: string, space: char -> bool): string {
    if s != "" && space(s[0]) then TrimStart(s[1..], space) else s
  }

  function TrimEnd(s: string, space: char -> bool): string {
    if s != "" && space(s[|s| - 1]) then TrimEnd(s[..|s| - 1], space) else s
  }

  function Trim(s: string, space: char -> bool): string {
    TrimEnd(TrimStart(s, space), space)
  }

  /** Nothing to trim at either end. */
  predicate Trimmed(s: string, space: char -> bool) {
    s != "" ==> !space(s[0]) && !space(s[|s| - 1])
  }

  lemma TrimmedStays(s: string, space: char -> bool)
    requires Trimmed(s, space)
    ensures Trim(s, space) == s
  {
  }

  lemma {:induction false} TrimStartEnds(s: string, space: char -> bool)
    ensures var t := TrimStart(s, space);
            && |t| <= |s| && t == s[|s| - |t|..]
            && (t != "" ==> !space(t[0]))
            && (s != "" && space(s[0]) ==> |t| < |s|)
  {
    if s != "" && space(s[0]) {
      TrimStartEnds(s[1..], space);
    }
  }

  lemma {:induction false} TrimEndStarts(s: string, space: char -> bool)
    ensures var t := TrimEnd(s, space);
            && |t| <= |s| && t == s[..|t|]
            && (t != "" ==> !space(t[|t| - 1]))
            && (s != "" && !space(s[0]) ==> t != "" && t[0] == s[0])
  {
    if s != "" && space(s[|s| - 1]) {
      TrimEndStarts(s[..|s| - 1], space);
    }
  }

  predicate SliceAt(t: string, s: string, i: nat) {
    i + |t| <= |s| && t == s[i..i + |t|]
  }

  /** Trimming leaves a middle part with nothing more to trim. */
  lemma TrimResult(s: string, space: char -> bool)
    ensures var t := Trim(s, space);
            && |t| <= |s|
            && Trimmed(t, space)
            && exists i: nat :: SliceAt(t, s, i)
  {
    var a := TrimStart(s, space);
    TrimStartEnds(s, space);
    TrimEndStarts(a, space);
    var t := Trim(s, space);
    var i: nat := |s| - |a|;
    assert SliceAt(t, s, i);
  }

  /** Trimming takes away white space only. */
  lemma TrimTakesSpace(s: string, space: char -> bool) returns (a: string, b: string)
    ensures s == a + Trim(s, space) + b
    ensures forall i :: 0 <= i < |a| ==> space(a[i])
    ensures forall i :: 0 <= i < |b| ==> space(b[i])
  {
    a := SpaceBefore(s, space);
    b := SpaceAfter(TrimStart(s, space), space);
  }

  lemma {:induction false} SpaceBefore(s: string, space: char -> bool) returns (a: string)
    ensures s == a + TrimStart(s, space) && forall i :: 0 <= i < |a| ==> space(a[i])
  {
    if s != "" && space(s[0]) {
      var rest := SpaceBefore(s[1..], space);
      a := [s[0]] + rest;
    } else {
      a := "";
    }
  }

  lemma {:induction false} SpaceAfter(s: string, space: char -> bool) returns (b: string)
    ensures s == TrimEnd(s, space) + b && forall i :: 0 <= i < |b| ==> space(b[i])
  {
    if s != "" && space(s[|s| - 1]) {
      var rest := SpaceAfter(s[..|s| - 1], space);
      b := rest + [s[|s| - 1]];
    } else {
      b := "";
    }
  }
}
