/** Proleptic Gregorian calendar dates, as java.time.LocalDate treats them:
    the leap-year rule, month lengths, the chronological order, month
    arithmetic that clamps the day to the target month's length
    (`plusMonths`, `plusYears`) and the epoch-day count that
    `ChronoUnit.DAYS.between` subtracts. Years are unbounded here; the
    source's range limit of +/-999999999 is not modelled. */
module Calendar {

  datatype Date = Date(year: int, month: int, day: int)

  /** The proleptic Gregorian leap-year rule. */
  predicate IsLeapYear(y: int) {
    y % 4 == 0 && (y % 100 != 0 || y % 400 == 0)
  }

  function YearLength(y: int): int {
    if IsLeapYear(y) then 366 else 365
  }

  function Min(a: int, b: int): int {
    if a <= b then a else b
  }

  /** `Month.length(leapYear)`. */
  function DaysInMonth(y: int, m: int): (n: int)
    requires 1 <= m <= 12
    ensures 28 <= n <= 31
  {
    if m == 2 then (if IsLeapYear(y) then 29 else 28)
    else if m == 4 || m == 6 || m == 9 || m == 11 then 30
    else 31
  }

  /** The dates a LocalDate can hold. */
  predicate ValidDate(d: Date) {
    1 <= d.month <= 12 && 1 <= d.day <= DaysInMonth(d.year, d.month)
  }

  /** `isBefore`: the order on (year, month, day). */
  predicate Before(a: Date, b: Date) {
    a.year < b.year
    || (a.year == b.year && (a.month < b.month || (a.month == b.month && a.day < b.day)))
  }

  /** `isAfter`. */
  predicate After(a: Date, b: Date) {
    Before(b, a)
  }

  /** Months since January of year 0: the index that month arithmetic moves. */
  function MonthIndex(y: int, m: int): int {
    y * 12 + (m - 1)
  }

  function MonthIndexOf(d: Date): int {
    MonthIndex(d.year, d.month)
  }

  /** `YearMonth.atDay(1)`. */
  function StartOfMonth(y: int, m: int): (d: Date)
    requires 1 <= m <= 12
    ensures ValidDate(d) && MonthIndexOf(d) == MonthIndex(y, m)
    ensures forall e: Date :: ValidDate(e) && MonthIndexOf(e) == MonthIndex(y, m) ==> !Before(e, d)
  {
    Date(y, m, 1)
  }

  /** `YearMonth.atEndOfMonth()`. */
  function EndOfMonth(y: int, m: int): (d: Date)
    requires 1 <= m <= 12
    ensures ValidDate(d) && MonthIndexOf(d) == MonthIndex(y, m)
    ensures forall e: Date :: ValidDate(e) && MonthIndexOf(e) == MonthIndex(y, m) ==> !After(e, d)
  {
    Date(y, m, DaysInMonth(y, m))
  }

  /** The source's `clampToMonthEnd`: a day past the month's length becomes
      its last day. It is stated here on any date with a month in range and
      a positive day; on a LocalDate, which is always valid, it is the
      identity. */
  function ClampToMonthEnd(d: Date): (r: Date)
    requires 1 <= d.month <= 12 && 1 <= d.day
    ensures ValidDate(r)
    ensures r.year == d.year && r.month == d.month
    ensures r.day == Min(d.day, DaysInMonth(d.year, d.month))
    ensures ValidDate(d) ==> r == d
  {
    var lastDayOfMonth := DaysInMonth(d.year, d.month);
    if d.day > lastDayOfMonth then d.(day := lastDayOfMonth) else d
  }

  lemma ClampIdempotent(d: Date)
    requires 1 <= d.month <= 12 && 1 <= d.day
    ensures ClampToMonthEnd(ClampToMonthEnd(d)) == ClampToMonthEnd(d)
  {
  }

  /** `LocalDate.plusMonths(n)`: move the month index by `n`, keep the day,
      and fall back to the last day of the target month when it is shorter
      (`resolvePreviousValid`). */
  function PlusMonths(d: Date, n: int): (r: Date)
    requires ValidDate(d)
    ensures ValidDate(r)
    ensures MonthIndexOf(r) == MonthIndexOf(d) + n
    ensures r.day == Min(d.day, DaysInMonth(r.year, r.month))
  {
    if n == 0 then d
    else
      var calcMonths := d.year * 12 + (d.month - 1) + n;
      var newYear := calcMonths / 12;
      var newMonth := calcMonths % 12 + 1;
      Date(newYear, newMonth, Min(d.day, DaysInMonth(newYear, newMonth)))
  }

  /** `LocalDate.plusYears(n)`: only February 29 can need the fall-back. */
  function PlusYears(d: Date, n: int): (r: Date)
    requires ValidDate(d)
    ensures ValidDate(r)
    ensures r.year == d.year + n && r.month == d.month
    ensures r.day == Min(d.day, DaysInMonth(r.year, r.month))
  {
    if n == 0 then d
    else Date(d.year + n, d.month, Min(d.day, DaysInMonth(d.year + n, d.month)))
  }

  /** Adding twelve months and adding one year give the same date. */
  lemma PlusYearIsTwelveMonths(d: Date)
    requires ValidDate(d)
    ensures PlusYears(d, 1) == PlusMonths(d, 12)
  {
    var calcMonths := d.year * 12 + (d.month - 1) + 12;
    SplitMonthIndex(d.year + 1, d.month);
    assert calcMonths == MonthIndex(d.year + 1, d.month);
  }

  /** A month index splits back into its year and month. */
  lemma SplitMonthIndex(y: int, m: int)
    requires 1 <= m <= 12
    ensures MonthIndex(y, m) / 12 == y && MonthIndex(y, m) % 12 + 1 == m
  {
  }

  /** A valid date lies in an earlier month than a second one exactly when
      it comes before the first day of that second month. */
  lemma BeforeStartOfMonth(d: Date, y: int, m: int)
    requires ValidDate(d) && 1 <= m <= 12
    ensures Before(d, StartOfMonth(y, m)) <==> MonthIndexOf(d) < MonthIndex(y, m)
  {
  }

  /** A valid date lies in a later month than a second one exactly when it
      comes after the last day of that second month. */
  lemma AfterEndOfMonth(d: Date, y: int, m: int)
    requires ValidDate(d) && 1 <= m <= 12
    ensures After(d, EndOfMonth(y, m)) <==> MonthIndexOf(d) > MonthIndex(y, m)
  {
  }

  /** Dates in different months are ordered as their months are; a date
      not after another lies in the same month or an earlier one. */
  lemma MonthIndexOrder(a: Date, b: Date)
    requires ValidDate(a) && ValidDate(b)
    ensures MonthIndexOf(a) < MonthIndexOf(b) ==> Before(a, b)
    ensures !After(a, b) ==> MonthIndexOf(a) <= MonthIndexOf(b)
  {
  }

  // ---------------------------------------------------------------------
  // Epoch days (`LocalDate.toEpochDay`)
  // ---------------------------------------------------------------------

  /** Days from 0000-01-01 to January 1 of year `y`: the year part of
      `toEpochDay`. With floor division the one formula covers negative
      years too, where the source negates the year and divides. */
  function DaysBeforeYear(y: int): int {
    365 * y + (y + 3) / 4 - (y + 99) / 100 + (y + 399) / 400
  }

  /** Days from January 1 to the first of month `m` (`m == 13` is the next
      January 1): the month part of `toEpochDay`. */
  function DaysBeforeMonth(y: int, m: int): int
    requires 1 <= m <= 13
  {
    (367 * m - 362) / 12 + (if m > 2 then (if IsLeapYear(y) then -1 else -2) else 0)
  }

  const DaysFrom0000To1970: int := 719528

  /** `LocalDate.toEpochDay()`: 1970-01-01 is day 0. */
  function EpochDay(d: Date): int
    requires ValidDate(d)
  {
    DaysBeforeYear(d.year) + DaysBeforeMonth(d.year, d.month) + d.day - 1 - DaysFrom0000To1970
  }

  /** `ChronoUnit.DAYS.between(from, to)`. */
  function DaysBetween(from: Date, to: Date): int
    requires ValidDate(from) && ValidDate(to)
  {
    EpochDay(to) - EpochDay(from)
  }

  /** `(y + k) / k - (y + k - 1) / k` counts whether `k` divides `y`. */
  lemma MultipleStep(y: int, k: int)
    requires k == 4 || k == 100 || k == 400
    ensures (y + k) / k - (y + k - 1) / k == (if y % k == 0 then 1 else 0)
  {
    if k == 4 {
      assert (y + 4) / 4 == y / 4 + 1 && (y + 3) / 4 == (if y % 4 == 0 then y / 4 else y / 4 + 1);
    } else if k == 100 {
      assert (y + 100) / 100 == y / 100 + 1 && (y + 99) / 100 == (if y % 100 == 0 then y / 100 else y / 100 + 1);
    } else {
      assert (y + 400) / 400 == y / 400 + 1 && (y + 399) / 400 == (if y % 400 == 0 then y / 400 else y / 400 + 1);
    }
  }

  lemma DaysBeforeNextYear(y: int)
    ensures DaysBeforeYear(y + 1) == DaysBeforeYear(y) + YearLength(y)
  {
    MultipleStep(y, 4);
    MultipleStep(y, 100);
    MultipleStep(y, 400);
    MultipleOfMultiple(y);
    var a := (y + 4) / 4 - (y + 3) / 4;
    var b := (y + 100) / 100 - (y + 99) / 100;
    var c := (y + 400) / 400 - (y + 399) / 400;
    assert DaysBeforeYear(y + 1) - DaysBeforeYear(y) == 365 + a - b + c;
  }

  /** A multiple of 400 is one of 100, and a multiple of 100 one of 4. */
  lemma MultipleOfMultiple(y: int)
    ensures y % 400 == 0 ==> y % 100 == 0
    ensures y % 100 == 0 ==> y % 4 == 0
  {
    if y % 400 == 0 {
      MultipleOf400(y);
    }
    if y % 100 == 0 {
      MultipleOf100(y);
    }
  }

  lemma MultipleOf400(y: int)
    requires y % 400 == 0
    ensures y % 100 == 0
  {
    assert y == 100 * (4 * (y / 400));
  }

  lemma MultipleOf100(y: int)
    requires y % 100 == 0
    ensures y % 4 == 0
  {
    assert y == 4 * (25 * (y / 100));
  }

  /** The closed month formula adds up the month lengths. */
  lemma DaysBeforeNextMonth(y: int, m: int)
    requires 1 <= m <= 12
    ensures DaysBeforeMonth(y, m + 1) == DaysBeforeMonth(y, m) + DaysInMonth(y, m)
  {
  }

  lemma DaysBeforeYearEnd(y: int)
    ensures DaysBeforeMonth(y, 13) == YearLength(y)
    ensures DaysBeforeMonth(y, 1) == 0
  {
  }

  lemma {:induction false} DaysBeforeMonthMono(y: int, m1: int, m2: int)
    requires 1 <= m1 < m2 <= 13
    ensures DaysBeforeMonth(y, m1) + DaysInMonth(y, m1) <= DaysBeforeMonth(y, m2)
    decreases m2 - m1
  {
    DaysBeforeNextMonth(y, m1);
    if m1 + 1 < m2 {
      DaysBeforeMonthMono(y, m1 + 1, m2);
    }
  }

  lemma {:induction false} DaysBeforeYearMono(y1: int, y2: int)
    requires y1 < y2
    ensures DaysBeforeYear(y1) + YearLength(y1) <= DaysBeforeYear(y2)
    decreases y2 - y1
  {
    DaysBeforeNextYear(y1);
    if y1 + 1 < y2 {
      DaysBeforeYearMono(y1 + 1, y2);
    }
  }

  /** The day of the year of a valid date is less than the year's length. */
  lemma DayOfYearBound(d: Date)
    requires ValidDate(d)
    ensures DaysBeforeMonth(d.year, d.month) + d.day - 1 < YearLength(d.year)
  {
    DaysBeforeYearEnd(d.year);
    if d.month < 12 {
      DaysBeforeMonthMono(d.year, d.month, 13);
    } else {
      DaysBeforeNextMonth(d.year, 12);
    }
  }

  /** The epoch-day count orders valid dates as `isBefore` does, and tells
      different dates apart. */
  lemma EpochDayOrder(a: Date, b: Date)
    requires ValidDate(a) && ValidDate(b)
    ensures Before(a, b) <==> EpochDay(a) < EpochDay(b)
    ensures a == b <==> EpochDay(a) == EpochDay(b)
  {
    if Before(a, b) {
      EpochDayBefore(a, b);
    } else if Before(b, a) {
      EpochDayBefore(b, a);
    }
  }

  lemma EpochDayBefore(a: Date, b: Date)
    requires ValidDate(a) && ValidDate(b) && Before(a, b)
    ensures EpochDay(a) < EpochDay(b)
  {
    if a.year < b.year {
      DayOfYearBound(a);
      DaysBeforeYearMono(a.year, b.year);
    } else if a.month < b.month {
      DaysBeforeMonthMono(a.year, a.month, b.month);
    }
  }

  /** Spot checks against `toEpochDay`. */
  lemma EpochDayExamples()
    ensures EpochDay(Date(1970, 1, 1)) == 0
    ensures EpochDay(Date(2000, 3, 1)) == 11017
    ensures DaysBetween(Date(2024, 2, 1), Date(2024, 2, 29)) == 28
  {
  }
}
