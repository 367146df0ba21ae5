/**
 Numbers out of text: `parse_js_int` and its consumers in `packages/gateway-rust/src/app_config.rs`,
 and `decimal_prefix` with `parse_port` in `packages/gateway-rust/src/cli_doctor.rs`. The reference
 is `parseInt` of ECMA-262, section 19.2.5, in base ten and over unbounded integers.
 */
module JsInt {
  import opened Prelude
  import opened Text
  import opened JsText

  const U64_MAX := 0xFFFF_FFFF_FFFF_FFFF
  const I64_MAX := 0x7FFF_FFFF_FFFF_FFFF
  const I64_MIN := -0x8000_0000_0000_0000
  const U32_MAX := 0xFFFF_FFFF
  const U16_MAX := 0xFFFF

  // ----- the reference -----

  predicate Negative(s: string) {
    s != "" && s[0] == '-'
  }

  function Unsigned(s: string): string {
    if s != "" && (s[0] == '-' || s[0] == '+') then s[1..] else s
  }

  /** The integer at the front of `s`, if there is a digit after the optional sign. */
  function SignedRun(s: string): Option<int> {
    var run := DigitRun(Unsigned(s));
    var magnitude: int := Value(run);
    if run == "" then None else Some(if Negative(s) then -magnitude else magnitude)
  }

  /** `parseInt(raw, 10)`, with None for NaN. */
  function ParseInt(raw: string): Option<int> {
    SignedRun(TrimStart(raw, EcmaSpace))
  }

  /** The nearest 64-bit signed integer. */
  function Clamp(n: int): int {
    if n > I64_MAX then I64_MAX else if n < I64_MIN then I64_MIN else n
  }

  function ClampAll(n: Option<int>): Option<int> {
    match n case None => None case Some(v) => Some(Clamp(v))
  }

  // ----- the source -----

  /** Parse to an unsigned 64-bit integer digit by digit, giving up on overflow. */
  function ParseU64(s: string): Option<nat>
    requires AllDigits(s)
  {
    if s == "" then Some(0)
    else
      match ParseU64(s[..|s| - 1])
      case None => None
      case Some(n) =>
        var next := n * 10 + DigitValue(s[|s| - 1]);
        if n * 10 > U64_MAX || next > U64_MAX then None else Some(next)
  }

  function ParseJsInt(raw: string): Option<int> {
    var s := TrimStart(raw, AppSpace);
    var run := DigitRun(Unsigned(s));
    if run == "" then None
    else
      var parsed := ParseU64(run);
      var magnitude := if parsed.Some? then parsed.value else U64_MAX;
      if Negative(s) then Some(if magnitude > I64_MAX then I64_MIN else -magnitude)
      else Some(if magnitude > I64_MAX then I64_MAX else magnitude)
  }

  /** A setting that is not there parses as `"0"`. */
  function ParsedEnv(setting: Option<string>): Option<int> {
    match setting case Some(raw) => ParseJsInt(raw) case None => Some(0)
  }

  function ParsedU32Or(setting: Option<string>, fallback: int): int {
    match ParsedEnv(setting)
    case Some(v) => if v != 0 && 0 <= v <= U32_MAX then v else fallback
    case None => fallback
  }

  function ParsedU64Or(setting: Option<string>, fallback: int): int {
    match ParsedEnv(setting)
    case Some(v) => if v != 0 && 0 <= v <= U64_MAX then v else fallback
    case None => fallback
  }

  function PortOr(setting: Option<string>, default: int): int {
    match setting
    case None => default
    case Some(raw) =>
      match ParseJsInt(raw)
      case Some(v) => if 0 <= v <= U16_MAX then v else default
      case None => default
  }

  // ----- saturation -----

  /** The unbounded number at the front of a setting, after the white space the settings skip. */
  function SettingInt(raw: string): Option<int> {
    SignedRun(TrimStart(raw, AppSpace))
  }

  lemma {:induction false} ParseU64Exact(s: string)
    requires AllDigits(s)
    ensures ParseU64(s) == if Value(s) <= U64_MAX then Some(Value(s)) else None
  {
    if s != "" {
      ParseU64Exact(s[..|s| - 1]);
    }
  }

  lemma ParseJsIntSaturates(raw: string)
    ensures ParseJsInt(raw) == ClampAll(SettingInt(raw))
  {
    ParseU64Exact(DigitRun(Unsigned(TrimStart(raw, AppSpace))));
  }

  // ----- U+0085, the one character the two notions of white space differ on -----

  /** After the ECMAScript white space the text goes on with U+0085. */
  predicate NelFirst(raw: string) {
    var s := TrimStart(raw, EcmaSpace);
    s != "" && s[0] == NEL
  }

  lemma {:induction false} TrimsAgree(raw: string)
    ensures !NelFirst(raw) ==> TrimStart(raw, AppSpace) == TrimStart(raw, EcmaSpace)
    ensures NelFirst(raw) ==> ParseInt(raw) == None
  {
    if raw != "" && EcmaSpace(raw[0]) {
      TrimsAgree(raw[1..]);
    }
  }

  /** The number of a setting is `parseInt` of it, exactly unless a U+0085 is skipped before one. */
  lemma SettingIntIsParseInt(raw: string)
    ensures SettingInt(raw) == ParseInt(raw) <==> !NelFirst(raw) || SettingInt(raw) == None
  {
    TrimsAgree(raw);
  }

  /** `parse_js_int` is `parseInt` clamped to 64 bits, exactly unless it skips a U+0085 before a number. */
  lemma ParseJsIntIsParseInt(raw: string)
    ensures ParseJsInt(raw) == ClampAll(ParseInt(raw))
            <==> !NelFirst(raw) || DigitRun(Unsigned(TrimStart(raw, AppSpace))) == ""
  {
    ParseJsIntSaturates(raw);
    TrimsAgree(raw);
  }

  /** Such a text: `parseInt` finds no number in it, the settings find 80. */
  lemma NelBeforeNumber()
    ensures NelFirst([NEL] + "80") && ParseInt([NEL] + "80") == None && ParseJsInt([NEL] + "80") == Some(80)
  {
    var raw := [NEL] + "80";
    assert raw[1..] == "80";
    assert TrimStart("80", AppSpace) == "80";
    RunIs("80", 2);
    assert "80"[..2] == "80" && "80"[..1] == "8" && "8"[..0] == "";
    assert Value("") == 0;
    assert Value("8") == 8;
    assert Value("80") == 80;
    ParseJsIntSaturates(raw);
    TrimsAgree(raw);
  }

  // ----- the consumers -----

  /** Ports and 32-bit settings take the true number exactly when it fits their type. */
  lemma SettingsTakeWhatFits(raw: string, fallback: int)
    ensures PortOr(Some(raw), fallback) ==
            match SettingInt(raw) case Some(v) => (if 0 <= v <= U16_MAX then v else fallback) case None => fallback
    ensures ParsedU32Or(Some(raw), fallback) ==
            match SettingInt(raw) case Some(v) => (if 1 <= v <= U32_MAX then v else fallback) case None => fallback
  {
    ParseJsIntSaturates(raw);
  }

  /** 64-bit settings do not reject a number that is too large: they stop at 2^63 - 1. */
  lemma BudgetsSaturate(raw: string, fallback: int)
    ensures ParsedU64Or(Some(raw), fallback) ==
            match SettingInt(raw)
            case Some(v) => (if v < 1 then fallback else if v <= I64_MAX then v else I64_MAX)
            case None => fallback
  {
    ParseJsIntSaturates(raw);
  }

  /** So a budget of 2^63 is accepted, as one less, against the comment on `parse_js_int`. */
  lemma OversizeBudgetAccepted()
    ensures ParsedU64Or(Some(Padded(0x8000_0000_0000_0000, 1)), 0) == I64_MAX
  {
    PrintedNumber(0x8000_0000_0000_0000);
    BudgetsSaturate(Padded(0x8000_0000_0000_0000, 1), 0);
    SettingIntIsParseInt(Padded(0x8000_0000_0000_0000, 1));
  }

  lemma PrintedNumber(n: nat)
    ensures !NelFirst(Padded(n, 1)) && ParseInt(Padded(n, 1)) == Some(n)
  {
    var s := Padded(n, 1);
    assert IsDigit(s[0]);
    RunIs(s, |s|);
    assert s[..|s|] == s;
  }

  /** A setting that is not there takes its default. */
  lemma AbsentSettings(fallback: int)
    ensures PortOr(None, fallback) == fallback && ParsedU32Or(None, fallback) == fallback && ParsedU64Or(None, fallback) == fallback
  {
  }

  // ----- numbers as they are written -----

  lemma {:induction false} SkipsSpace(pre: string, s: string, space: char -> bool)
    requires forall i :: 0 <= i < |pre| ==> space(pre[i])
    requires s != "" ==> !space(s[0])
    ensures TrimStart(pre + s, space) == s
  {
    if pre == "" {
      assert pre + s == s;
    } else {
      assert (pre + s)[1..] == pre[1..] + s;
      SkipsSpace(pre[1..], s, space);
    }
  }

  lemma RunOfPadded(n: nat, w: nat, rest: string)
    requires w > 0 && (rest != "" ==> !IsDigit(rest[0]))
    ensures DigitRun(Padded(n, w) + rest) == Padded(n, w)
  {
    var s := Padded(n, w) + rest;
    assert s[..|Padded(n, w)|] == Padded(n, w);
    RunIs(s, |Padded(n, w)|);
  }

  lemma SignAndTail(sign: string, tail: string)
    requires sign in {"", "+", "-"} && tail != "" && IsDigit(tail[0])
    ensures Unsigned(sign + tail) == tail && (Negative(sign + tail) <==> sign == "-")
    ensures sign + tail != "" && (IsDigit((sign + tail)[0]) || (sign + tail)[0] == '+' || (sign + tail)[0] == '-')
  {
    if sign == "" {
      assert sign + tail == tail;
    } else {
      assert (sign + tail)[0] == sign[0] && (sign + tail)[1..] == tail;
    }
  }

  lemma SignedBody(sign: string, n: nat, w: nat, rest: string)
    requires sign in {"", "+", "-"} && w > 0 && (rest != "" ==> !IsDigit(rest[0]))
    ensures var m: int := n;
            var body := sign + (Padded(n, w) + rest);
            && SignedRun(body) == Some(if sign == "-" then -m else m)
            && body != "" && (IsDigit(body[0]) || body[0] == '+' || body[0] == '-')
  {
    hide DigitRun, Unsigned, Negative;
    var digits := Padded(n, w);
    hide Padded;
    assert digits != "" && IsDigit(digits[0]) && Value(digits) == n;
    RunOfPadded(n, w, rest);
    hide Value;
    assert (digits + rest)[0] == digits[0];
    SignAndTail(sign, digits + rest);
  }

  /** White space, a sign or none, digits with or without leading zeros, and anything that does not begin
      with a digit: `parseInt` gives the number, negative exactly after a minus sign, and the settings
      give it clamped to 64 bits. */
  lemma WrittenNumber(pre: string, sign: string, n: nat, w: nat, rest: string)
    requires forall i :: 0 <= i < |pre| ==> EcmaSpace(pre[i])
    requires sign in {"", "+", "-"} && w > 0 && (rest != "" ==> !IsDigit(rest[0]))
    ensures var m: int := n;
            var text := pre + (sign + (Padded(n, w) + rest));
            && ParseInt(text) == Some(if sign == "-" then -m else m)
            && ParseJsInt(text) == Some(if sign == "-" then (if m > I64_MAX then I64_MIN else -m) else if m > I64_MAX then I64_MAX else m)
  {
    SignedBody(sign, n, w, rest);
    hide Padded, SignedRun, TrimStart, ParseJsInt, EcmaSpace;
    var body := sign + (Padded(n, w) + rest);
    NoNel(body);
    SkipsSpace(pre, body, EcmaSpace);
    ParseJsIntIsParseInt(pre + body);
  }

  lemma NoNel(body: string)
    requires body != "" && (IsDigit(body[0]) || body[0] == '+' || body[0] == '-')
    ensures body[0] != NEL && !EcmaSpace(body[0])
  {
  }

  // ----- the doctor's port -----

  /** Rounding to a 64-bit float: exact to 2^53, and never back below it. */
  ghost predicate IsRounding(round: nat -> nat) {
    && (forall n :: n <= 0x20_0000_0000_0000 ==> round(n) == n)
    && (forall n :: n >= 0x20_0000_0000_0000 ==> round(n) >= 0x20_0000_0000_0000)
  }

  /** The accumulated prefix, rounded after each multiplication and each addition. */
  function Accumulate(run: string, round: nat -> nat): nat
    requires AllDigits(run)
  {
    if run == "" then 0
    else round(round(Accumulate(run[..|run| - 1], round) * 10) + DigitValue(run[|run| - 1]))
  }

  /** The loop of `decimal_prefix`, after the sign. */
  method DecimalPrefix(rest: string, round: nat -> nat) returns (n: nat)
    ensures n == Accumulate(DigitRun(rest), round)
  {
    n := 0;
    var i := 0;
    while i < |rest| && IsDigit(rest[i])
      invariant i <= |rest| && AllDigits(rest[..i])
      invariant n == Accumulate(rest[..i], round)
    {
      assert rest[..i + 1][..i] == rest[..i];
      n := round(round(n * 10) + DigitValue(rest[i]));
      i := i + 1;
    }
    RunIs(rest, i);
  }

  function ParsePort(text: string, round: nat -> nat): Option<int> {
    var s := Trim(text, EcmaSpace);
    var n: int := Accumulate(DigitRun(Unsigned(s)), round);
    var signed := if Negative(s) then -n else n;
    if 1 <= signed <= U16_MAX then Some(signed) else None
  }

  lemma {:induction false} AccumulateExact(run: string, round: nat -> nat)
    requires AllDigits(run) && IsRounding(round)
    ensures Value(run) < 0x20_0000_0000_0000 ==> Accumulate(run, round) == Value(run)
    ensures Value(run) >= 0x20_0000_0000_0000 ==> Accumulate(run, round) >= 0x20_0000_0000_0000
  {
    if run != "" {
      AccumulateExact(run[..|run| - 1], round);
    }
  }

  lemma {:induction false} RunOfFront(s: string)
    requires s != "" && !IsDigit(s[|s| - 1])
    ensures DigitRun(s[..|s| - 1]) == DigitRun(s)
  {
    if |s| > 1 && IsDigit(s[0]) {
      assert s[1..][..|s| - 2] == s[..|s| - 1][1..];
      RunOfFront(s[1..]);
    }
  }

  lemma SpaceIsNoNumber(c: char)
    requires EcmaSpace(c)
    ensures !IsDigit(c) && c != '-' && c != '+'
  {
  }

  /** Trimming the end does not touch the number. */
  lemma {:induction false} TrimEndKeepsRun(s: string)
    requires s != "" ==> !EcmaSpace(s[0])
    ensures Negative(TrimEnd(s, EcmaSpace)) == Negative(s)
    ensures DigitRun(Unsigned(TrimEnd(s, EcmaSpace))) == DigitRun(Unsigned(s))
  {
    hide EcmaSpace, DigitRun;
    if s != "" && EcmaSpace(s[|s| - 1]) {
      var t := s[..|s| - 1];
      SpaceIsNoNumber(s[|s| - 1]);
      TrimEndKeepsRun(t);
      var u := Unsigned(s);
      assert u != "" && u[|u| - 1] == s[|s| - 1];
      assert Unsigned(t) == u[..|u| - 1];
      RunOfFront(u);
    }
  }

  /** The doctor takes a port exactly when `parseInt` gives a number from 1 to 65535, and takes that. */
  lemma ParsePortIsParseInt(text: string, round: nat -> nat, p: int)
    requires IsRounding(round)
    ensures ParsePort(text, round) == Some(p) <==> ParseInt(text) == Some(p) && 1 <= p <= U16_MAX
  {
    var s := TrimStart(text, EcmaSpace);
    TrimStartEnds(text, EcmaSpace);
    TrimEndKeepsRun(s);
    AccumulateExact(DigitRun(Unsigned(s)), round);
  }

  /** The control characters of Unicode, which the doctor's configuration may not hold. */
  predicate Control(c: char) {
    c < ' ' || '\U{007F}' <= c <= '\U{009F}'
  }

  /** `valid_text`, which run_doctor asks of its ports before anything else. */
  predicate ValidText(text: string, limit: nat) {
    |text| <= limit && forall i :: 0 <= i < |text| ==> !Control(text[i])
  }

  lemma {:induction false} TrimStartSlices(s: string, space: char -> bool)
    ensures forall c :: c in TrimStart(s, space) ==> c in s
  {
    if s != "" && space(s[0]) {
      TrimStartSlices(s[1..], space);
    }
  }

  /** On every port text that passes the doctor's validation the two parsers agree. */
  lemma ParsersAgreeOnValidText(text: string, limit: nat, round: nat -> nat, p: int)
    requires IsRounding(round) && ValidText(text, limit)
    ensures ParsePort(text, round) == Some(p) <==> ParseJsInt(text) == Some(p) && 1 <= p <= U16_MAX
  {
    ParsePortIsParseInt(text, round, p);
    TrimStartSlices(text, EcmaSpace);
    var s := TrimStart(text, EcmaSpace);
    assert s != "" ==> s[0] in text;
    assert NEL !in text;
    ParseJsIntIsParseInt(text);
  }

  predicate IsPort(n: Option<int>) {
    n.Some? && 1 <= n.value <= U16_MAX
  }

  /** Over all texts they agree exactly unless a U+0085 comes before a port. */
  lemma ParsersAgreeOnPorts(text: string, round: nat -> nat)
    requires IsRounding(round)
    ensures (forall p :: ParsePort(text, round) == Some(p) <==> ParseJsInt(text) == Some(p) && 1 <= p <= U16_MAX)
            <==> !NelFirst(text) || !IsPort(SettingInt(text))
  {
    TrimsAgree(text);
    ParseJsIntSaturates(text);
    var n := SettingInt(text);
    if NelFirst(text) && IsPort(n) {
      ParsePortIsParseInt(text, round, n.value);
      assert ParseJsInt(text) == Some(n.value) && ParsePort(text, round) != Some(n.value);
    } else {
      forall p ensures ParsePort(text, round) == Some(p) <==> ParseJsInt(text) == Some(p) && 1 <= p <= U16_MAX {
        ParsePortIsParseInt(text, round, p);
      }
    }
  }

  /** Such a text, which only a caller that skips the validation could pass. */
  lemma ParsersDisagree(round: nat -> nat)
    requires IsRounding(round)
    ensures ParsePort([NEL] + "80", round) == None && ParseJsInt([NEL] + "80") == Some(80)
    ensures forall limit: nat :: !ValidText([NEL] + "80", limit)
  {
    var raw := [NEL] + "80";
    NelBeforeNumber();
    assert Control(raw[0]);
    if ParsePort(raw, round).Some? {
      ParsePortIsParseInt(raw, round, ParsePort(raw, round).value);
    }
  }
}
