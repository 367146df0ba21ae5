/**
 `iso` of `packages/gateway-rust/src/time.rs`: millisecond instants as ECMAScript date-time text.
 The reader is the Date Time String Format of ECMA-262, section 21.4.1.32, in the full form with
 milliseconds and `Z`; the range is TimeClip, section 21.4.1.31.
 */
module Timestamp {
  import opened Prelude
  import opened Text
  import opened Calendar

  const MAX_TIME := 8_640_000_000_000_000
  const DAY_MS := 86_400_000

  // ----- printing -----

  function YearText(year: int): string {
    if 0 <= year <= 9999 then Padded(year, 4)
    else if year < 0 then "-" + Padded(-year, 6)
    else "+" + Padded(year, 6)
  }

  function DateText(d: Date): string
    requires d.month >= 0 && d.day >= 0
  {
    YearText(d.year) + "-" + Padded(d.month, 2) + "-" + Padded(d.day, 2)
  }

  function TimeText(time: nat): string {
    "T" + Padded(time / 3_600_000, 2)
    + ":" + Padded(time / 60_000 % 60, 2)
    + ":" + Padded(time / 1000 % 60, 2)
    + "." + Padded(time % 1000, 3) + "Z"
  }

  function Iso(ms: int): Result<string, string> {
    if ms > MAX_TIME || -ms > MAX_TIME then Err("Invalid time value")
    else
      var days := ms / DAY_MS;
      var time := ms % DAY_MS;
      CivilFromDaysCorrect(days);
      Ok(DateText(CivilFromDays(days)) + TimeText(time))
  }

  // ----- reading -----

  /** A four-digit year, or a sign and six digits that are not `-000000`; with the text left. */
  function ReadYear(s: string): Option<(int, string)> {
    if |s| >= 4 && AllDigits(s[..4]) then Some((Value(s[..4]), s[4..]))
    else if |s| >= 7 && s[0] in {'+', '-'} && AllDigits(s[1..7]) then
      var n: int := Value(s[1..7]);
      if s[0] == '+' then Some((n, s[7..]))
      else if n == 0 then None
      else Some((-n, s[7..]))
    else None
  }

  /** The 20 characters `-MM-DDTHH:mm:ss.sssZ` after the year. */
  predicate TailShape(r: string) {
    && |r| == 20
    && r[0] == '-' && r[3] == '-' && r[6] == 'T' && r[9] == ':' && r[12] == ':'
    && r[15] == '.' && r[19] == 'Z'
    && AllDigits(r[1..3]) && AllDigits(r[4..6]) && AllDigits(r[7..9])
    && AllDigits(r[10..12]) && AllDigits(r[13..15]) && AllDigits(r[16..19])
  }

  function ReadIso(s: string): Option<int> {
    match ReadYear(s)
    case None => None
    case Some((year, r)) =>
      if !TailShape(r) then None else
        var d := Date(year, Value(r[1..3]), Value(r[4..6]));
        var hour, minute := Value(r[7..9]), Value(r[10..12]);
        var second, milli := Value(r[13..15]), Value(r[16..19]);
        if !ValidDate(d) || hour > 24 || minute > 59 || second > 59
           || (hour == 24 && (minute != 0 || second != 0 || milli != 0)) then None
        else
          var ms := DayNumber(d) * DAY_MS + hour * 3_600_000 + minute * 60_000 + second * 1000 + milli;
          if ms > MAX_TIME || -ms > MAX_TIME then None else Some(ms)
  }

  // ----- the year's range -----

  lemma YearInRange(days: int)
    requires -100_000_000 <= days <= 100_000_000
    ensures -271_821 <= CivilFromDays(days).year <= 275_760
  {
    CivilFromDaysCorrect(days);
    var d := CivilFromDays(days);
    WithinYear(d);
    if d.year < -271_821 {
      DaysBeforeYearClosed(-271_821);
      if d.year < -271_822 { YearsGrow(d.year, -271_822); }
      LeapStep(-271_822);
      DaysBeforeYearClosed(-271_822);
      FirstInstant(d);
    }
    if d.year > 275_760 {
      DaysBeforeYearClosed(275_761);
      if d.year > 275_761 { YearsGrow(275_761, d.year); }
    }
  }

  /** No date before year -271821 is within a hundred million days of the epoch. */
  lemma FirstInstant(d: Date)
    requires ValidDate(d) && d.year < -271_821
    ensures DayNumber(d) < -100_000_000
  {
    DayNumberMonotone(d, Date(-271_821, 1, 1));
    DaysBeforeYearClosed(-271_821);
  }

  lemma DayInRange(ms: int)
    requires -MAX_TIME <= ms <= MAX_TIME
    ensures -100_000_000 <= ms / DAY_MS <= 100_000_000
  {
  }

  // ----- the round trip -----

  lemma PowersOfTen()
    ensures Pow10(2) == 100 && Pow10(3) == 1000 && Pow10(4) == 10_000 && Pow10(6) == 1_000_000
  {
    assert Pow10(1) == 10;
    assert Pow10(5) == 10 * Pow10(4);
  }

  lemma ReadYearText(year: int, rest: string)
    requires -999_999 <= year <= 999_999
    ensures |YearText(year)| == (if 0 <= year <= 9999 then 4 else 7)
    ensures ReadYear(YearText(year) + rest) == Some((year, rest))
  {
    PowersOfTen();
    var t := YearText(year);
    if 0 <= year <= 9999 {
      PaddedWidth(year, 4);
      assert (t + rest)[..4] == t && (t + rest)[4..] == rest;
    } else {
      var n := if year < 0 then -year else year;
      PaddedWidth(n, 6);
      assert (t + rest)[1..7] == Padded(n, 6) && (t + rest)[7..] == rest;
      assert !IsDigit((t + rest)[..4][0]);
    }
  }

  function Tail(d: Date, time: nat): string
    requires d.month >= 0 && d.day >= 0
  {
    "-" + Padded(d.month, 2) + "-" + Padded(d.day, 2) + TimeText(time)
  }

  lemma TimeSlices(h: string, m: string, s: string, z: string)
    requires |h| == |m| == |s| == 2 && |z| == 3
    ensures var t := "T" + h + ":" + m + ":" + s + "." + z + "Z";
            && |t| == 14 && t[0] == 'T' && t[3] == ':' && t[6] == ':' && t[9] == '.' && t[13] == 'Z'
            && t[1..3] == h && t[4..6] == m && t[7..9] == s && t[10..13] == z
  {
  }

  lemma TailSlices(mo: string, da: string, t: string)
    requires |mo| == |da| == 2 && |t| == 14
    ensures var r := "-" + mo + "-" + da + t;
            && |r| == 20 && r[0] == '-' && r[3] == '-' && r[1..3] == mo && r[4..6] == da
            && r[6..] == t
  {
  }

  lemma TailFields(d: Date, time: nat)
    requires ValidDate(d) && time < DAY_MS
    ensures var r := Tail(d, time);
            TailShape(r)
            && Value(r[1..3]) == d.month && Value(r[4..6]) == d.day
            && Value(r[7..9]) == time / 3_600_000 && Value(r[10..12]) == time / 60_000 % 60
            && Value(r[13..15]) == time / 1000 % 60 && Value(r[16..19]) == time % 1000
  {
    PowersOfTen();
    hide Padded, Value, Pow10;
    PaddedWidth(d.month, 2);
    PaddedWidth(d.day, 2);
    PaddedWidth(time / 3_600_000, 2);
    PaddedWidth(time / 60_000 % 60, 2);
    PaddedWidth(time / 1000 % 60, 2);
    PaddedWidth(time % 1000, 3);
    var t := TimeText(time);
    TimeSlices(Padded(time / 3_600_000, 2), Padded(time / 60_000 % 60, 2),
               Padded(time / 1000 % 60, 2), Padded(time % 1000, 3));
    TailSlices(Padded(d.month, 2), Padded(d.day, 2), t);
    var r := Tail(d, time);
    assert forall k :: 0 <= k < 14 ==> r[6 + k] == r[6..][k];
    assert r[7..9] == t[1..3] && r[10..12] == t[4..6] && r[13..15] == t[7..9];
    assert r[16..19] == t[10..13];
  }

  lemma TimeParts(time: nat)
    requires time < DAY_MS
    ensures time == time / 3_600_000 * 3_600_000 + time / 60_000 % 60 * 60_000
                    + time / 1000 % 60 * 1000 + time % 1000
    ensures time / 3_600_000 < 24
  {
    assert time / 60_000 == time / 1000 / 60;
    assert time / 3_600_000 == time / 60_000 / 60;
  }

  lemma ReadPrinted(d: Date, time: nat)
    requires ValidDate(d) && -999_999 <= d.year <= 999_999 && time < DAY_MS
    requires -MAX_TIME <= DayNumber(d) * DAY_MS + time <= MAX_TIME
    ensures var t := YearText(d.year) + Tail(d, time);
            |t| == (if 0 <= d.year <= 9999 then 24 else 27)
            && ReadIso(t) == Some(DayNumber(d) * DAY_MS + time)
  {
    hide Padded, Value, TimeText, YearText, ReadYear, DaysBeforeYear, DaysBeforeMonth;
    ReadYearText(d.year, Tail(d, time));
    TailFields(d, time);
    TimeParts(time);
    assert DayNumber(Date(d.year, d.month, d.day)) == DayNumber(d);
  }

  /** Instants in range print to 24 characters, or 27 outside years 0 to 9999, and read back. */
  lemma IsoRoundTrip(ms: int)
    ensures Iso(ms).Err? <==> ms < -MAX_TIME || ms > MAX_TIME
    ensures Iso(ms).Err? ==> Iso(ms).error == "Invalid time value"
    ensures Iso(ms).Ok? ==>
              |Iso(ms).value| == (if 0 <= CivilFromDays(ms / DAY_MS).year <= 9999 then 24 else 27)
              && ReadIso(Iso(ms).value) == Some(ms)
  {
    hide ReadIso, CivilFromDays, DateText, TimeText;
    if -MAX_TIME <= ms <= MAX_TIME {
      IsoParts(ms);
      DayInRange(ms);
      YearInRange(ms / DAY_MS);
      ReadStamp(CivilFromDays(ms / DAY_MS), ms);
    }
  }

  lemma ReadStamp(d: Date, ms: int)
    requires -MAX_TIME <= ms <= MAX_TIME
    requires ValidDate(d) && DayNumber(d) == ms / DAY_MS && -999_999 <= d.year <= 999_999
    ensures var t := DateText(d) + TimeText(ms % DAY_MS);
            |t| == (if 0 <= d.year <= 9999 then 24 else 27) && ReadIso(t) == Some(ms)
  {
    hide ReadIso, DateText, TimeText, YearText, Tail, DayNumber;
    assert ms == ms / DAY_MS * DAY_MS + ms % DAY_MS;
    PrintedParts(d, ms % DAY_MS);
    ReadPrinted(d, ms % DAY_MS);
  }

  lemma IsoParts(ms: int)
    requires -MAX_TIME <= ms <= MAX_TIME
    ensures ValidDate(CivilFromDays(ms / DAY_MS))
    ensures DayNumber(CivilFromDays(ms / DAY_MS)) == ms / DAY_MS
    ensures Iso(ms) == Ok(DateText(CivilFromDays(ms / DAY_MS)) + TimeText(ms % DAY_MS))
  {
    hide CivilFromDays, DateText, TimeText, DayNumber;
    CivilFromDaysCorrect(ms / DAY_MS);
  }

  lemma PrintedParts(d: Date, time: nat)
    requires d.month >= 0 && d.day >= 0
    ensures DateText(d) + TimeText(time) == YearText(d.year) + Tail(d, time)
  {
    var m, a := Padded(d.month, 2), Padded(d.day, 2);
    assert (YearText(d.year) + "-" + m + "-" + a) + TimeText(time)
        == YearText(d.year) + ("-" + m + "-" + a + TimeText(time));
  }

  /** Two instants with one text are one instant. */
  lemma IsoInjective(a: int, b: int)
    requires Iso(a).Ok? && Iso(a) == Iso(b)
    ensures a == b
  {
    IsoRoundTrip(a);
    IsoRoundTrip(b);
  }

  // ----- text order is time order -----

  /** `a` is before `b`, or is `b`; `strict` says which. */
  predicate LexAtMost(a: string, b: string, strict: bool) {
    |a| == |b| && (if strict then LexLess(a, b) else a == b)
  }

  lemma LexAppend(a: string, a': string, b: string, b': string, s: bool, t: bool)
    requires LexAtMost(a, a', s)
    requires |b| == |b'| && (!s ==> LexAtMost(b, b', t))
    ensures LexAtMost(a + b, a' + b', s || t)
    ensures s ==> LexAtMost(a + b, a' + b', true)
  {
    LexConcat(a, a', b, b');
  }

  lemma PaddedAtMost(m: nat, n: nat, w: nat)
    requires m < Pow10(w) && n < Pow10(w)
    ensures |Padded(m, w)| == |Padded(n, w)| == w
    ensures m <= n ==> LexAtMost(Padded(m, w), Padded(n, w), m < n)
  {
    PaddedWidth(m, w);
    PaddedWidth(n, w);
    if m < n {
      PaddedOrder(m, n, w);
    }
  }

  /** The three ways a year is printed, in the order of their first characters: '+', '-', a digit. */
  function YearClass(y: int): nat {
    if y > 9999 then 0 else if y < 0 then 1 else 2
  }

  lemma YearTextOrder(y: int, z: int)
    requires -999_999 <= y < z <= 999_999 && YearClass(y) == YearClass(z)
    ensures |YearText(y)| == |YearText(z)|
    ensures y >= 0 ==> LexLess(YearText(y), YearText(z))
    ensures y < 0 ==> LexLess(YearText(z), YearText(y))
  {
    PowersOfTen();
    hide Padded, Pow10, LexLess;
    if y > 9999 {
      PaddedAtMost(y, z, 6);
      LexAppend("+", "+", Padded(y, 6), Padded(z, 6), false, true);
    } else if y >= 0 {
      PaddedAtMost(y, z, 4);
    } else {
      PaddedAtMost(-z, -y, 6);
      LexAppend("-", "-", Padded(-z, 6), Padded(-y, 6), false, true);
    }
  }

  /** Dates whose years print alike in length compare by the year's text first. */
  lemma DateTextFields(a: Date, b: Date, y: bool)
    requires ValidDate(a) && ValidDate(b)
    requires LexAtMost(YearText(a.year), YearText(b.year), y)
    requires !y ==> a.month < b.month || (a.month == b.month && a.day < b.day)
    ensures |DateText(a)| == |DateText(b)| && LexLess(DateText(a), DateText(b))
  {
    PowersOfTen();
    hide Padded, Pow10, LexLess, YearText;
    PaddedAtMost(a.month, b.month, 2);
    PaddedAtMost(a.day, b.day, 2);
    var m, d := a.month < b.month, a.day < b.day;
    var ya, yb := YearText(a.year), YearText(b.year);
    var ma, mb := Padded(a.month, 2), Padded(b.month, 2);
    LexAppend(ya, yb, "-", "-", y, false);
    LexAppend(ya + "-", yb + "-", ma, mb, y, m);
    LexAppend(ya + "-" + ma, yb + "-" + mb, "-", "-", y || m, false);
    LexAppend(ya + "-" + ma + "-", yb + "-" + mb + "-", Padded(a.day, 2), Padded(b.day, 2), y || m, d);
  }

  /** Two dates in years of one class: their texts are ordered as they are, or, in different years
      before year 0, the other way round. */
  lemma DateTextOrder(a: Date, b: Date)
    requires ValidDate(a) && ValidDate(b) && DateBefore(a, b)
    requires -999_999 <= a.year && b.year <= 999_999 && YearClass(a.year) == YearClass(b.year)
    ensures |DateText(a)| == |DateText(b)|
    ensures if a.year >= 0 || a.year == b.year then LexLess(DateText(a), DateText(b)) else LexLess(DateText(b), DateText(a))
  {
    hide LexLess, DateText, YearText, ValidDate;
    if a.year == b.year {
      DateTextFields(a, b, false);
    } else {
      YearTextOrder(a.year, b.year);
      if a.year >= 0 {
        DateTextFields(a, b, true);
      } else {
        DateTextFields(b, a, true);
      }
    }
  }

  lemma TimeTextOrder(t: nat, u: nat)
    requires t < u < DAY_MS
    ensures LexLess(TimeText(t), TimeText(u))
  {
    TimeParts(t);
    TimeParts(u);
    PowersOfTen();
    var th, tm, ts, tz := t / 3_600_000, t / 60_000 % 60, t / 1000 % 60, t % 1000;
    var uh, um, us, uz := u / 3_600_000, u / 60_000 % 60, u / 1000 % 60, u % 1000;
    ClockOrder(th, tm, ts, tz, uh, um, us, uz);
  }

  predicate ClockBefore(th: nat, tm: nat, ts: nat, tz: nat, uh: nat, um: nat, us: nat, uz: nat) {
    th < uh || (th == uh && (tm < um || (tm == um && (ts < us || (ts == us && tz < uz)))))
  }

  /** The same on the four clock fields. */
  lemma ClockOrder(th: nat, tm: nat, ts: nat, tz: nat, uh: nat, um: nat, us: nat, uz: nat)
    requires th < 24 && tm < 60 && ts < 60 && tz < 1000
    requires uh < 24 && um < 60 && us < 60 && uz < 1000
    requires ClockBefore(th, tm, ts, tz, uh, um, us, uz)
    ensures LexLess(
              "T" + Padded(th, 2) + ":" + Padded(tm, 2) + ":" + Padded(ts, 2) + "." + Padded(tz, 3) + "Z",
              "T" + Padded(uh, 2) + ":" + Padded(um, 2) + ":" + Padded(us, 2) + "." + Padded(uz, 3) + "Z")
  {
    PowersOfTen();
    PaddedAtMost(th, uh, 2);
    PaddedAtMost(tm, um, 2);
    PaddedAtMost(ts, us, 2);
    PaddedAtMost(tz, uz, 3);
    var h, m, s, z := th < uh, tm < um, ts < us, tz < uz;
    var a, b := "T" + Padded(th, 2), "T" + Padded(uh, 2);
    LexAppend("T", "T", Padded(th, 2), Padded(uh, 2), false, h);
    LexAppend(a, b, ":", ":", h, false);
    a, b := a + ":", b + ":";
    LexAppend(a, b, Padded(tm, 2), Padded(um, 2), h, m);
    a, b := a + Padded(tm, 2), b + Padded(um, 2);
    LexAppend(a, b, ":", ":", h || m, false);
    a, b := a + ":", b + ":";
    LexAppend(a, b, Padded(ts, 2), Padded(us, 2), h || m, s);
    a, b := a + Padded(ts, 2), b + Padded(us, 2);
    LexAppend(a, b, ".", ".", h || m || s, false);
    a, b := a + ".", b + ".";
    LexAppend(a, b, Padded(tz, 3), Padded(uz, 3), h || m || s, z);
    a, b := a + Padded(tz, 3), b + Padded(uz, 3);
    LexAppend(a, b, "Z", "Z", h || m || s || z, false);
  }

  /** The first character decides between years of different classes. */
  lemma FirstCharacters(a: Date, b: Date, s: string, t: string)
    requires ValidDate(a) && ValidDate(b) && YearClass(a.year) < YearClass(b.year)
    ensures LexLess(DateText(a) + s, DateText(b) + t)
  {
    YearStarts(a.year);
    YearStarts(b.year);
    hide YearText;
    assert (DateText(a) + s)[0] == YearText(a.year)[0];
    assert (DateText(b) + t)[0] == YearText(b.year)[0];
  }

  lemma YearStarts(y: int)
    ensures YearText(y) != ""
    ensures match YearClass(y)
            case 0 => YearText(y)[0] == '+'
            case 1 => YearText(y)[0] == '-'
            case _ => IsDigit(YearText(y)[0])
  {
    hide Padded;
  }

  /** The years for which the earlier of two instants has the smaller text: one above 9999, or a
      later one that is printed without a sign, or one negative year for both. */
  predicate SortsInTime(year: int, laterYear: int) {
    year > 9999 || (laterYear <= 9999 && (laterYear >= 0 || year == laterYear))
  }

  lemma DateTextsSort(a: Date, b: Date, s: string, t: string)
    requires ValidDate(a) && ValidDate(b) && DateBefore(a, b)
    requires -999_999 <= a.year && b.year <= 999_999
    ensures if SortsInTime(a.year, b.year) then LexLess(DateText(a) + s, DateText(b) + t)
            else LexLess(DateText(b) + t, DateText(a) + s)
  {
    hide LexLess, DateText;
    if YearClass(a.year) == YearClass(b.year) {
      DateTextOrder(a, b);
      LexConcat(DateText(a), DateText(b), s, t);
      LexConcat(DateText(b), DateText(a), t, s);
    } else if YearClass(a.year) < YearClass(b.year) {
      FirstCharacters(a, b, s, t);
    } else {
      FirstCharacters(b, a, t, s);
    }
  }

  /** Text order is time order exactly for those years; for all others it is the reverse. */
  lemma IsoOrderIff(a: int, b: int)
    requires a < b && Iso(a).Ok? && Iso(b).Ok?
    ensures var ya, yb := CivilFromDays(a / DAY_MS).year, CivilFromDays(b / DAY_MS).year;
            && (LexLess(Iso(a).value, Iso(b).value) <==> SortsInTime(ya, yb))
            && (LexLess(Iso(b).value, Iso(a).value) <==> !SortsInTime(ya, yb))
  {
    IsoParts(a);
    IsoParts(b);
    DayInRange(a);
    DayInRange(b);
    YearInRange(a / DAY_MS);
    YearInRange(b / DAY_MS);
    var da, db := CivilFromDays(a / DAY_MS), CivilFromDays(b / DAY_MS);
    assert da.month >= 0 && da.day >= 0 && db.month >= 0 && db.day >= 0;
    hide CivilFromDays, Iso, DateText, TimeText, LexLess, ValidDate, DayNumber;
    var s, t := TimeText(a % DAY_MS), TimeText(b % DAY_MS);
    if a / DAY_MS == b / DAY_MS {
      TimeTextOrder(a % DAY_MS, b % DAY_MS);
      LexConcat(DateText(da), DateText(db), s, t);
    } else {
      DayNumberOrder(da, db);
      DateTextsSort(da, db, s, t);
    }
    LexBothWays(Iso(a).value, Iso(b).value);
  }

  lemma LexBothWays(a: string, b: string)
    ensures !(LexLess(a, b) && LexLess(b, a))
  {
    if LexLess(a, b) {
      LexAsymmetric(a, b);
    }
  }

  /** For years 0 to 9999, texts compare as the instants do. */
  lemma IsoOrder(a: int, b: int)
    requires Iso(a).Ok? && Iso(b).Ok?
    requires 0 <= CivilFromDays(a / DAY_MS).year <= 9999
    requires 0 <= CivilFromDays(b / DAY_MS).year <= 9999
    ensures LexLess(Iso(a).value, Iso(b).value) <==> a < b
  {
    hide Iso, CivilFromDays, LexLess;
    if a < b {
      IsoOrderIff(a, b);
    } else if b < a {
      IsoOrderIff(b, a);
    } else {
      LexIrreflexive(Iso(a).value);
    }
  }

  /** An instant of year 10000, printed with a sign, sorts before an earlier one of year 0. */
  lemma IsoOrderBreaks()
    ensures var a, b := -719_528 * DAY_MS, 2_932_897 * DAY_MS;
            a < b && Iso(a).Ok? && Iso(b).Ok? && LexLess(Iso(b).value, Iso(a).value)
  {
    hide Iso, TimeText, DateText;
    IsoFirstOfYear(-719_528, 0);
    IsoFirstOfYear(2_932_897, 10_000);
    FirstCharacters(Date(10_000, 1, 1), Date(0, 1, 1), TimeText(0), TimeText(0));
  }

  lemma IsoFirstOfYear(days: int, y: int)
    requires -100_000_000 <= days <= 100_000_000
    requires days == 365 * (y - 1970) + LeapsBefore(y) - 477
    ensures Iso(days * DAY_MS) == Ok(DateText(Date(y, 1, 1)) + TimeText(0))
  {
    FirstOfYear(days, y);
    hide CivilFromDays, DateText, TimeText, Iso;
    IsoParts(days * DAY_MS);
    DivMod(days * DAY_MS, DAY_MS, days, 0);
  }

  lemma FirstOfYear(days: int, y: int)
    requires days == 365 * (y - 1970) + LeapsBefore(y) - 477
    ensures CivilFromDays(days) == Date(y, 1, 1)
  {
    DaysBeforeYearClosed(y);
    CivilFromDaysUnique(days, Date(y, 1, 1));
  }
}
