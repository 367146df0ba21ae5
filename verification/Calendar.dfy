/**
 Calendar arithmetic of `packages/gateway-rust/src/time.rs`: the closed form from a day number
 to a proleptic Gregorian date, against a calendar that counts days by the leap-year rules.
 */
module Calendar {

  datatype Date = Date(year: int, month: int, day: int)

  // ----- the calendar, by its rules -----

  predicate IsLeap(y: int) {
    y % 4 == 0 && (y % 100 != 0 || y % 400 == 0)
  }

  function YearLength(y: int): int {
    if IsLeap(y) then 366 else 365
  }

  function MonthLength(y: int, m: int): int
    requires 1 <= m <= 12
  {
    if m == 2 then (if IsLeap(y) then 29 else 28)
    else if m in {4, 6, 9, 11} then 30
    else 31
  }

  predicate ValidDate(d: Date) {
    1 <= d.month <= 12 && 1 <= d.day <= MonthLength(d.year, d.month)
  }

  /** Days from 1 January 1970 to 1 January of year `y`, one year at a time. */
  function DaysBeforeYear(y: int): int
    decreases if y < 1970 then 1970 - y else y - 1970
  {
    if y == 1970 then 0
    else if y > 1970 then DaysBeforeYear(y - 1) + YearLength(y - 1)
    else DaysBeforeYear(y + 1) - YearLength(y)
  }

  /** Days of year `y` before its month `m`, one month at a time. */
  function DaysBeforeMonth(y: int, m: int): int
    requires 1 <= m <= 12
  {
    if m == 1 then 0 else DaysBeforeMonth(y, m - 1) + MonthLength(y, m - 1)
  }

  /** Days from 1 January 1970 to `d`. */
  function DayNumber(d: Date): int
    requires ValidDate(d)
  {
    DaysBeforeYear(d.year) + DaysBeforeMonth(d.year, d.month) + d.day - 1
  }

  predicate DateBefore(a: Date, b: Date) {
    a.year < b.year
    || (a.year == b.year && a.month < b.month)
    || (a.year == b.year && a.month == b.month && a.day < b.day)
  }

  // ----- the closed form of the source -----

  function YearOfEra(dayOfEra: int): int {
    (dayOfEra - dayOfEra / 1460 + dayOfEra / 36524 - dayOfEra / 146096) / 365
  }

  function CivilFromDays(days: int): Date {
    var z := days + 719468;
    var era := z / 146097;
    CivilFromEra(era, z - era * 146097)
  }

  function CivilFromEra(era: int, dayOfEra: int): Date {
    var yearOfEra := YearOfEra(dayOfEra);
    DateOfMarchYear(
      yearOfEra + era * 400,
      dayOfEra - (365 * yearOfEra + yearOfEra / 4 - yearOfEra / 100))
  }

  /** The date of a day of the year that starts on 1 March of `marchYear`. */
  function DateOfMarchYear(marchYear: int, dayOfYear: int): Date {
    var monthIndex := (5 * dayOfYear + 2) / 153;
    var day := dayOfYear - (153 * monthIndex + 2) / 5 + 1;
    var month := monthIndex + (if monthIndex < 10 then 3 else -9);
    Date(if month <= 2 then marchYear + 1 else marchYear, month, day)
  }

  // ----- the calendar's own closed form -----

  /** Leap years among the years before `y`, up to a constant. */
  function LeapsBefore(y: int): int {
    (y - 1) / 4 - (y - 1) / 100 + (y - 1) / 400
  }

  lemma DivMod(n: int, d: int, q: int, r: int)
    requires n == d * q + r && 0 <= r < d
    ensures n / d == q && n % d == r
  {
    var e := n / d - q;
    assert n == d * (n / d) + n % d && 0 <= n % d < d;
    assert d * e == r - n % d;
    assert e >= 1 ==> d * e >= d;
    assert e <= -1 ==> d * e <= -d;
  }

  /** One step of a floor quotient: it grows by one at each multiple of `d`. */
  lemma FloorStep(y: int, d: int)
    requires d > 1
    ensures y / d == (y - 1) / d + (if y % d == 0 then 1 else 0)
  {
    var q, r := (y - 1) / d, (y - 1) % d;
    if r == d - 1 {
      assert y == d * (q + 1) by { assert d * (q + 1) == d * q + d; }
      DivMod(y, d, q + 1, 0);
    } else {
      DivMod(y, d, q, r + 1);
    }
  }

  lemma LeapStep(y: int)
    ensures LeapsBefore(y + 1) == LeapsBefore(y) + (if IsLeap(y) then 1 else 0)
  {
    FloorStep(y, 4);
    FloorStep(y, 100);
    FloorStep(y, 400);
    if y % 100 == 0 {
      DivMod(y, 4, 25 * (y / 100), 0);
    }
    if y % 400 == 0 {
      DivMod(y, 100, 4 * (y / 400), 0);
    }
  }

  /** The leap-year rules repeat every 400 years. */
  lemma LeapPeriod(era: int, k: int)
    requires 0 <= k <= 400
    ensures IsLeap(400 * era + k) <==> IsLeap(k)
    ensures LeapsBefore(400 * era + k + 1) == 97 * era + k / 4 - k / 100 + k / 400
  {
    var y := 400 * era + k;
    DivMod(y, 4, 100 * era + k / 4, k % 4);
    DivMod(y, 100, 4 * era + k / 100, k % 100);
    DivMod(y, 400, era + k / 400, k % 400);
  }

  lemma {:induction false} DaysBeforeYearClosed(y: int)
    ensures DaysBeforeYear(y) == 365 * (y - 1970) + LeapsBefore(y) - 477
    decreases if y < 1970 then 1970 - y else y - 1970
  {
    if y > 1970 {
      DaysBeforeYearClosed(y - 1);
      LeapStep(y - 1);
    } else if y < 1970 {
      DaysBeforeYearClosed(y + 1);
      LeapStep(y);
    }
  }

  lemma DaysBeforeMonthTable(y: int, m: int)
    requires 1 <= m <= 12
    ensures DaysBeforeMonth(y, m) ==
            [0, 31, 59, 90, 120, 151, 181, 212, 243, 273, 304, 334][m - 1]
            + (if m > 2 && IsLeap(y) then 1 else 0)
  {
    if m > 1 {
      DaysBeforeMonthTable(y, m - 1);
    }
  }

  // ----- years counted from March -----

  /** Days of an era before its March-based year `k`. */
  function EraDays(k: int): int {
    365 * k + k / 4 - k / 100
  }

  /** Length of the March-based year `k` of an era; its leap day, if any, comes last. */
  function MarchYearLength(k: int): int {
    if k == 399 || (k % 4 == 3 && k % 100 != 99) then 366 else 365
  }

  lemma YearOfEraInRange(n: int)
    requires 0 <= n < 146097
    ensures 0 <= YearOfEra(n) < 400
    ensures 0 <= n - EraDays(YearOfEra(n)) < MarchYearLength(YearOfEra(n))
  {
    var c := if n == 146096 then 3 else n / 36524;
    var r := n - 36524 * c;
    var q := if r == 36524 then 24 else r / 1461;
    var s := r - 1461 * q;
    var k := if s == 1460 then 3 else s / 365;
    assert 0 <= c <= 3 && 0 <= r <= 36524 && 0 <= q <= 24 && 0 <= s <= 1460 && 0 <= k <= 3;
    YearOfEraSplit(c, q, s);
  }

  /** The same with the day split into century, four-year cycle and day of the cycle. */
  lemma YearOfEraSplit(c: int, q: int, s: int)
    requires 0 <= c <= 3 && 0 <= q <= 24 && 0 <= s <= 1460
    requires q == 24 && c < 3 ==> s < 1460
    ensures var n := 36524 * c + 1461 * q + s;
            var k := if s == 1460 then 3 else s / 365;
            YearOfEra(n) == 100 * c + 4 * q + k
            && n - EraDays(100 * c + 4 * q + k) == s - 365 * k
            && s - 365 * k < MarchYearLength(100 * c + 4 * q + k)
  {
    var n := 36524 * c + 1461 * q + s;
    var k := if s == 1460 then 3 else s / 365;
    var y := 100 * c + 4 * q + k;
    var carry := if 24 * c + q + s >= 1460 then 1 else 0;
    var last := if n == 146096 then 1 else 0;
    DivMod(n, 1460, 25 * c + q + carry, 24 * c + q + s - 1460 * carry);
    DivMod(n, 36524, c + last, 1461 * q + s - 36524 * last);
    DivMod(n, 146096, last, n - 146096 * last);
    DivMod(36500 * c + 1460 * q + s - carry, 365, y, s - carry - 365 * k);
    DivMod(y, 4, 25 * c + q, k);
    DivMod(y, 100, c, 4 * q + k);
  }

  /** The month of a March-based day of year, and the day within it. */
  lemma MonthFromMarch(dayOfYear: int)
    requires 0 <= dayOfYear <= 365
    ensures var mi := (5 * dayOfYear + 2) / 153;
            0 <= mi <= 11
            && (153 * mi + 2) / 5 == [0, 31, 61, 92, 122, 153, 184, 214, 245, 275, 306, 337][mi]
            && 0 <= dayOfYear - (153 * mi + 2) / 5
               < [31, 30, 31, 30, 31, 31, 30, 31, 30, 31, 31, 29][mi]
  {
    var mi := (5 * dayOfYear + 2) / 153;
    assert 0 <= mi <= 11;
  }

  /** The day number of 1 March of year `400 * era + k`. */
  lemma MarchFirst(era: int, k: int)
    requires 0 <= k < 400
    ensures DaysBeforeYear(400 * era + k) + 59 + (if IsLeap(400 * era + k) then 1 else 0)
            == 146097 * era + EraDays(k) - 719468
    ensures MarchYearLength(k) == YearLength(400 * era + k + 1)
  {
    DaysBeforeYearClosed(400 * era + k);
    LeapStep(400 * era + k);
    LeapPeriod(era, k);
    LeapPeriod(era, k + 1);
    MarchLeap(k);
    hide LeapsBefore, IsLeap;
    assert k / 400 == 0;
  }

  /** The March-based year that holds the leap day of calendar year `k + 1`. */
  lemma MarchLeap(k: int)
    requires 0 <= k < 400
    ensures MarchYearLength(k) == YearLength(k + 1)
  {
    SuccessorMultiple(k, 4);
    SuccessorMultiple(k, 100);
    SuccessorMultiple(k, 400);
  }

  lemma SuccessorMultiple(k: int, d: int)
    requires d > 1
    ensures (k + 1) % d == 0 <==> k % d == d - 1
  {
    var q, r := k / d, k % d;
    if r == d - 1 {
      assert k + 1 == d * (q + 1) by { assert d * (q + 1) == d * q + d; }
      DivMod(k + 1, d, q + 1, 0);
    } else {
      DivMod(k + 1, d, q, r + 1);
    }
  }

  lemma DateOfMarchYearCorrect(y: int, dayOfYear: int)
    requires 0 <= dayOfYear < YearLength(y + 1)
    ensures var d := DateOfMarchYear(y, dayOfYear);
            ValidDate(d)
            && DayNumber(d) == DaysBeforeYear(y) + 59 + (if IsLeap(y) then 1 else 0) + dayOfYear
  {
    MonthFromMarch(dayOfYear);
    YearStep(y);
    hide IsLeap, DaysBeforeYear, DaysBeforeMonth;
    var d := DateOfMarchYear(y, dayOfYear);
    DaysBeforeMonthTable(d.year, d.month);
  }

  lemma YearStep(y: int)
    ensures DaysBeforeYear(y + 1) == DaysBeforeYear(y) + YearLength(y)
  {
    hide DaysBeforeYear, LeapsBefore, IsLeap;
    DaysBeforeYearClosed(y);
    DaysBeforeYearClosed(y + 1);
    LeapStep(y);
  }

  lemma CivilFromEraCorrect(era: int, n: int)
    requires 0 <= n < 146097
    ensures ValidDate(CivilFromEra(era, n))
    ensures DayNumber(CivilFromEra(era, n)) == 146097 * era + n - 719468
  {
    YearOfEraInRange(n);
    EraYear(era, n);
    hide YearOfEra, DateOfMarchYear, DayNumber, ValidDate, IsLeap, MarchYearLength, YearLength, EraDays, CivilFromEra;
    var k := YearOfEra(n);
    MarchFirst(era, k);
    DateOfMarchYearCorrect(400 * era + k, n - EraDays(k));
  }

  lemma EraYear(era: int, n: int)
    ensures CivilFromEra(era, n) == DateOfMarchYear(400 * era + YearOfEra(n), n - EraDays(YearOfEra(n)))
  {
    hide YearOfEra, DateOfMarchYear;
  }

  /** The closed form names a real date, and that date's day number is the argument. */
  lemma CivilFromDaysCorrect(days: int)
    ensures ValidDate(CivilFromDays(days))
    ensures DayNumber(CivilFromDays(days)) == days
  {
    hide CivilFromEra, DayNumber, ValidDate;
    var z := days + 719468;
    assert z - z / 146097 * 146097 == z % 146097;
    CivilFromEraCorrect(z / 146097, z % 146097);
  }

  // ----- day numbers order dates -----

  lemma {:induction false} YearsGrow(a: int, b: int)
    requires a < b
    ensures DaysBeforeYear(a) + YearLength(a) <= DaysBeforeYear(b)
    decreases b - a
  {
    YearStep(a);
    if a + 1 < b {
      YearsGrow(a + 1, b);
    }
  }

  lemma WithinYear(d: Date)
    requires ValidDate(d)
    ensures 0 <= DaysBeforeMonth(d.year, d.month)
    ensures DaysBeforeMonth(d.year, d.month) + d.day <= YearLength(d.year)
  {
    DaysBeforeMonthTable(d.year, d.month);
  }

  lemma DayNumberMonotone(a: Date, b: Date)
    requires ValidDate(a) && ValidDate(b) && DateBefore(a, b)
    ensures DayNumber(a) < DayNumber(b)
  {
    if a.year < b.year {
      YearsGrow(a.year, b.year);
      WithinYear(a);
      WithinYear(b);
    } else {
      DaysBeforeMonthTable(a.year, a.month);
      DaysBeforeMonthTable(b.year, b.month);
    }
  }

  /** Day numbers decide dates: earlier exactly when smaller, so equal exactly when equal. */
  lemma DayNumberOrder(a: Date, b: Date)
    requires ValidDate(a) && ValidDate(b)
    ensures DayNumber(a) < DayNumber(b) <==> DateBefore(a, b)
    ensures DayNumber(a) == DayNumber(b) <==> a == b
  {
    if DateBefore(a, b) {
      DayNumberMonotone(a, b);
    } else if DateBefore(b, a) {
      DayNumberMonotone(b, a);
    }
  }

  /** `CivilFromDays` is the one valid date with the given day number. */
  lemma CivilFromDaysUnique(days: int, d: Date)
    requires ValidDate(d)
    ensures DayNumber(d) == days <==> d == CivilFromDays(days)
  {
    CivilFromDaysCorrect(days);
    DayNumberOrder(d, CivilFromDays(days));
  }
}
