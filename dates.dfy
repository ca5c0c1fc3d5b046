/** Local calendar dates, the month ranges the expense summary builds with
    `new Date(y, m - 1, 1)` / `new Date(y, m, 1)`, and `getDay`'s weekday. */
module Dates {

  /** A local calendar day; `month` is 1-based, as in the `YYYY-MM-DD` strings the pages use. */
  datatype Date = Date(year: int, month: int, day: int)

  /** A `YYYY-MM` value of a month picker, 1-based month. */
  datatype YearMonth = YearMonth(year: int, month: int)

  predicate IsLeapYear(y: int) {
    (y % 4 == 0 && y % 100 != 0) || y % 400 == 0
  }

  function DaysInMonth(y: int, m: int): (n: int)
    requires 1 <= m <= 12
    ensures 28 <= n <= 31
  {
    if m == 2 then (if IsLeapYear(y) then 29 else 28)
    else if m == 4 || m == 6 || m == 9 || m == 11 then 30
    else 31
  }

  /** A date that exists on the proleptic Gregorian calendar. */
  predicate ValidDate(d: Date) {
    1 <= d.month <= 12 && 1 <= d.day <= DaysInMonth(d.year, d.month)
  }

  predicate ValidMonth(ym: YearMonth) {
    1 <= ym.month <= 12
  }

  /** Chronological order of days (lexicographic on year, month, day). */
  predicate Before(a: Date, b: Date) {
    a.year < b.year
    || (a.year == b.year && a.month < b.month)
    || (a.year == b.year && a.month == b.month && a.day < b.day)
  }

  /** The year the `Date` constructor uses: a year argument from 0 to 99 means 1900 to 1999. */
  function ConstructorYear(y: int): (r: int)
    ensures 0 <= y <= 99 ==> r == 1900 + y
    ensures !(0 <= y <= 99) ==> r == y
  {
    if 0 <= y <= 99 then 1900 + y else y
  }

  /** `new Date(y, m - 1, 1)`: the first day of the picked month. */
  function MonthStart(ym: YearMonth): Date {
    Date(ConstructorYear(ym.year), ym.month, 1)
  }

  /** `new Date(y, m, 1)`: JavaScript rolls month index 12 over into January of the next year
      (after reading the year, so year 99 rolls over into 2000). */
  function NextMonthStart(ym: YearMonth): (r: Date)
    requires ValidMonth(ym)
    ensures ValidDate(r) && r.day == 1
    ensures Before(MonthStart(ym), r)
    ensures ym.month == 12 ==> r == Date(ConstructorYear(ym.year) + 1, 1, 1)
    ensures forall d :: ValidDate(d) && Before(MonthStart(ym), d) && d.month != ym.month ==> !Before(d, r)
  {
    var y := ConstructorYear(ym.year);
    if ym.month == 12 then Date(y + 1, 1, 1) else Date(y, ym.month + 1, 1)
  }

  /** The half-open range `[start, end)` of the summary: `d >= start && d < end`. */
  predicate InMonth(d: Date, ym: YearMonth)
    requires ValidMonth(ym)
  {
    !Before(d, MonthStart(ym)) && Before(d, NextMonthStart(ym))
  }

  /** For an existing date, lying in the range of a month is having that month and the year the
      constructor reads, December included (its range closes on January 1 of the next year). */
  lemma InMonthIff(d: Date, ym: YearMonth)
    requires ValidDate(d) && ValidMonth(ym)
    ensures InMonth(d, ym) <==> d.year == ConstructorYear(ym.year) && d.month == ym.month
  {
    var y := ConstructorYear(ym.year);
    if ym.month == 12 {
      assert NextMonthStart(ym) == Date(y + 1, 1, 1);
    } else {
      assert NextMonthStart(ym) == Date(y, ym.month + 1, 1);
    }
  }

  /** A picked month with a two-digit year counts the dates of the twentieth century: the
      range of year 24's June holds 1924-06-10 and not 0024-06-10. */
  lemma TwoDigitYearMonth()
    ensures InMonth(Date(1924, 6, 10), YearMonth(24, 6))
    ensures !InMonth(Date(24, 6, 10), YearMonth(24, 6))
  {
  }

  /** Days in the first `yoe` March-based years of a 400-year era. */
  function EraDays(yoe: int): int {
    yoe * 365 + yoe / 4 - yoe / 100
  }

  /** Days from 0000-03-01 to March 1 of year `y`, counted in 400-year eras of 146097 days
      (the March-based year `y` runs from March of `y` to February of `y + 1`). */
  function MarchYearDays(y: int): int {
    var era := y / 400;
    era * 146097 + EraDays(y - era * 400)
  }

  /** Days since 1970-01-01 of the day before the first of a month (a March-based era count). */
  function MonthBase(year: int, month: int): int
    requires 1 <= month <= 12
  {
    var y := if month <= 2 then year - 1 else year;
    var mp := if month > 2 then month - 3 else month + 9;
    MarchYearDays(y) + (153 * mp + 2) / 5 - 719469
  }

  lemma EraDaysStep(k: int)
    requires 0 <= k
    ensures EraDays(k + 1) - EraDays(k) == 365 + (if (k + 1) % 4 == 0 then 1 else 0) - (if (k + 1) % 100 == 0 then 1 else 0)
  {
    var q4, r4 := k / 4, k % 4;
    var q100, r100 := k / 100, k % 100;
    if r4 == 3 { assert (k + 1) / 4 == q4 + 1; } else { assert (k + 1) / 4 == q4; }
    if r100 == 99 { assert (k + 1) / 100 == q100 + 1; } else { assert (k + 1) / 100 == q100; }
  }

  lemma Mod4Shift(c: int, k: int)
    ensures (4 * c + k) % 4 == k % 4
  {
  }

  lemma Mod100Shift(c: int, k: int)
    ensures (100 * c + k) % 100 == k % 100
  {
  }

  lemma Mod400Shift(c: int, k: int)
    ensures (400 * c + k) % 400 == k % 400
  {
  }

  /** Leap-year tests depend only on the year within its 400-year era. */
  lemma LeapInEra(y: int, era: int, k: int)
    requires y == era * 400 + k
    ensures IsLeapYear(y) <==> (k % 4 == 0 && k % 100 != 0) || k % 400 == 0
  {
    Mod4Shift(100 * era, k);
    Mod100Shift(4 * era, k);
    Mod400Shift(era, k);
  }

  /** A March-based year is 366 days long when the February it ends with has a 29th day. */
  lemma MarchYearLength(y: int)
    ensures MarchYearDays(y + 1) - MarchYearDays(y) == if IsLeapYear(y + 1) then 366 else 365
  {
    var era := y / 400;
    var yoe := y - era * 400;
    assert 0 <= yoe < 400;
    if yoe < 399 {
      assert (y + 1) / 400 == era;
      EraDaysStep(yoe);
      LeapInEra(y + 1, era, yoe + 1);
    } else {
      assert (y + 1) / 400 == era + 1;
      assert EraDays(399) == 146097 - 366;
      LeapInEra(y + 1, era + 1, 0);
    }
  }

  /** The first of the next month lies as many days after the first of a month as the month has. */
  lemma MonthBaseStep(year: int, month: int)
    requires 1 <= month < 12
    ensures MonthBase(year, month + 1) == MonthBase(year, month) + DaysInMonth(year, month)
  {
    if month == 2 {
      MarchYearLength(year - 1);
    }
  }

  /** Days since 1970-01-01 of a proleptic Gregorian date. */
  function DayNumber(d: Date): int
    requires ValidDate(d)
  {
    MonthBase(d.year, d.month) + d.day
  }

  /** `getDay(date)`: 0 is Sunday, 6 is Saturday (1970-01-01 was a Thursday). */
  function Weekday(d: Date): (w: int)
    requires ValidDate(d)
    ensures 0 <= w < 7
  {
    (DayNumber(d) + 4) % 7
  }

  lemma SuccessorMod7(k: int)
    ensures (k + 1) % 7 == (k % 7 + 1) % 7
  {
    var q, r := k / 7, k % 7;
    assert k == 7 * q + r && 0 <= r < 7;
    if r < 6 {
      assert k + 1 == 7 * q + (r + 1);
    } else {
      assert k + 1 == 7 * (q + 1) + 0;
    }
  }

  /** The calendar day after `d`, rolling over at month and year ends. */
  function NextDay(d: Date): (r: Date)
    requires ValidDate(d)
    ensures ValidDate(r) && Before(d, r)
    ensures forall e :: ValidDate(e) && Before(d, e) ==> !Before(e, r)
  {
    if d.day < DaysInMonth(d.year, d.month) then d.(day := d.day + 1)
    else if d.month < 12 then Date(d.year, d.month + 1, 1)
    else Date(d.year + 1, 1, 1)
  }

  /** The day count advances by exactly one from a day to the next, across month and year ends. */
  lemma DayNumberOfNextDay(d: Date)
    requires ValidDate(d)
    ensures DayNumber(NextDay(d)) == DayNumber(d) + 1
  {
    if d.day == DaysInMonth(d.year, d.month) && d.month < 12 {
      MonthBaseStep(d.year, d.month);
    }
  }

  /** The next day is the next weekday, so with 1970-01-01 a Thursday every date's weekday follows. */
  lemma WeekdayOfNextDay(d: Date)
    requires ValidDate(d)
    ensures Weekday(NextDay(d)) == (Weekday(d) + 1) % 7
  {
    DayNumberOfNextDay(d);
    SuccessorMod7(DayNumber(d) + 4);
  }

  /** Three fixed points of the weekday count. */
  lemma KnownWeekdays()
    ensures Weekday(Date(1970, 1, 1)) == 4
    ensures Weekday(Date(2024, 6, 1)) == 6
    ensures Weekday(Date(2024, 6, 3)) == 1
  {
    KnownMonthBases();
  }

  lemma KnownMonthBases()
    ensures MonthBase(1970, 1) == -1 && MonthBase(2024, 6) == 19874
  {
  }
}
