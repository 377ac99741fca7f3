/**
 * Calendar dates as integer day numbers. Day 0 is 1970-01-01, a Thursday.
 * Weeks start on Sunday, as date-fns `startOfWeek` does by default.
 */
module Calendar {

  /** A proleptic Gregorian calendar date, as written "yyyy-MM-dd". */
  datatype CivilDate = CivilDate(year: nat, month: nat, day: nat)

  predicate IsLeapYear(y: int) {
    (y % 4 == 0 && y % 100 != 0) || y % 400 == 0
  }

  function DaysInMonth(y: int, m: int): (n: nat)
    ensures 28 <= n <= 31
  {
    if m == 2 then (if IsLeapYear(y) then 29 else 28)
    else if m == 4 || m == 6 || m == 9 || m == 11 then 30
    else 31
  }

  predicate ValidDate(d: CivilDate) {
    1 <= d.month <= 12 && 1 <= d.day <= DaysInMonth(d.year, d.month)
  }

  /** Days since 1970-01-01 (the days-from-civil construction over 400-year eras). */
  function DayNumber(d: CivilDate): int {
    var y := if d.month <= 2 then d.year - 1 else d.year;
    var era := y / 400;
    var yoe := y - era * 400;
    var mp := (d.month + 9) % 12;
    var doy := (153 * mp + 2) / 5 + d.day - 1;
    var doe := yoe * 365 + yoe / 4 - yoe / 100 + doy;
    era * 146097 + doe - 719468
  }

  /** 0 = Sunday, 1 = Monday, ..., 6 = Saturday. */
  function Weekday(n: int): (w: nat)
    ensures w < 7
  {
    (n + 4) % 7
  }

  /** date-fns `startOfWeek` with its default Sunday start. */
  function StartOfWeek(n: int): (s: int)
    ensures s <= n < s + 7
    ensures Weekday(s) == 0
  {
    n - Weekday(n)
  }

  /** date-fns `startOfMonth`: the day number of the first of `d`'s month. */
  function StartOfMonth(d: CivilDate): int {
    DayNumber(CivilDate(d.year, d.month, 1))
  }

  /** The day number of the last day of `d`'s month (date-fns `endOfMonth`, taken to the day). */
  function EndOfMonth(d: CivilDate): int {
    DayNumber(CivilDate(d.year, d.month, DaysInMonth(d.year, d.month)))
  }

  /** Within one month, the day number grows by one per day. */
  lemma DayNumberWithinMonth(d: CivilDate)
    ensures DayNumber(d) == StartOfMonth(d) + d.day - 1
  {
  }

  /** The first of the month never lies after the day itself. */
  lemma StartOfMonthNotAfter(d: CivilDate)
    requires ValidDate(d)
    ensures StartOfMonth(d) <= DayNumber(d) <= EndOfMonth(d)
    ensures EndOfMonth(d) - StartOfMonth(d) + 1 == DaysInMonth(d.year, d.month)
  {
    DayNumberWithinMonth(d);
    DayNumberWithinMonth(CivilDate(d.year, d.month, DaysInMonth(d.year, d.month)));
  }

  /**
   * Months follow one another without gap or overlap: the day after a month's
   * last day is the first of the next month. With `StartOfMonthNotAfter` this
   * says the month lengths, February's 29 days in leap years included, are
   * those of the calendar the day numbers count.
   */
  lemma MonthsAdjoin(d: CivilDate)
    requires 1 <= d.month <= 12
    ensures var next := if d.month == 12 then CivilDate(d.year + 1, 1, 1) else CivilDate(d.year, d.month + 1, 1);
      EndOfMonth(d) + 1 == StartOfMonth(next)
  {
    var last := CivilDate(d.year, d.month, DaysInMonth(d.year, d.month));
    var next := if d.month == 12 then CivilDate(d.year + 1, 1, 1) else CivilDate(d.year, d.month + 1, 1);
    if d.month == 2 {
      FebruaryLength(d.year);
    } else {
      SameMarchYear(last, next);
      MonthOffsets(d.month, d.year);
    }
  }

  /** The offset of the first of each month in the March-to-February year, month after month. */
  lemma MonthOffsets(m: nat, y: int)
    requires 1 <= m <= 12 && m != 2
    ensures var next := if m == 12 then 1 else m + 1;
      (153 * ((next + 9) % 12) + 2) / 5 == (153 * ((m + 9) % 12) + 2) / 5 + DaysInMonth(y, m)
  {
    if m == 1 {
    } else if m == 3 {
    } else if m == 4 {
    } else if m == 5 {
    } else if m == 6 {
    } else if m == 7 {
    } else if m == 8 {
    } else if m == 9 {
    } else if m == 10 {
    } else if m == 11 {
    }
  }

  /** Two dates of the same March-to-February year are as many days apart as their offsets in it. */
  lemma SameMarchYear(a: CivilDate, b: CivilDate)
    requires (if a.month <= 2 then a.year - 1 else a.year) == (if b.month <= 2 then b.year - 1 else b.year)
    ensures DayNumber(b) - DayNumber(a)
      == ((153 * ((b.month + 9) % 12) + 2) / 5 + b.day) - ((153 * ((a.month + 9) % 12) + 2) / 5 + a.day)
  {
  }

  /** From the first of February to the first of March is 29 days in a leap year and 28 otherwise. */
  lemma FebruaryLength(y: nat)
    ensures DayNumber(CivilDate(y, 3, 1)) - DayNumber(CivilDate(y, 2, 1)) == DaysInMonth(y, 2)
  {
    assert DayNumber(CivilDate(y, 3, 1)) == MarchYearStart(y);
    assert DayNumber(CivilDate(y, 2, 1)) == MarchYearStart(y - 1) + 337;
    MarchYearLength(y);
  }

  /** The day number of the first of March of year `p`. */
  function MarchYearStart(p: int): int {
    var era := p / 400;
    var yoe := p - era * 400;
    era * 146097 + yoe * 365 + yoe / 4 - yoe / 100 - 719468
  }

  /** The year from March of `y - 1` to February of `y` has 366 days when `y` is a leap year, else 365. */
  lemma MarchYearLength(y: int)
    ensures MarchYearStart(y) - MarchYearStart(y - 1) == if IsLeapYear(y) then 366 else 365
  {
    var p := y - 1;
    var era := p / 400;
    var yoe := p - era * 400;
    if yoe == 399 {
      assert y == (era + 1) * 400;
      assert y / 400 == era + 1 && y % 400 == 0;
    } else {
      assert y == era * 400 + (yoe + 1);
      assert y / 400 == era;
      LeapStep(yoe + 1);
      EraResidue(era, yoe + 1);
    }
  }

  /** Within an era, year `k` adds a fourth-year day when 4 divides it and drops one when 100 does. */
  lemma LeapStep(k: int)
    requires 1 <= k < 400
    ensures k / 4 - (k - 1) / 4 == (if k % 4 == 0 then 1 else 0)
    ensures k / 100 - (k - 1) / 100 == (if k % 100 == 0 then 1 else 0)
  {
  }

  lemma EraResidue(e: int, k: int)
    requires 0 <= k < 400
    ensures (e * 400 + k) % 4 == k % 4 && (e * 400 + k) % 100 == k % 100 && (e * 400 + k) % 400 == k
  {
    var n := e * 400 + k;
    assert n == 4 * (e * 100 + k / 4) + k % 4;
    assert n == 100 * (e * 4 + k / 100) + k % 100;
  }

  /** startOfWeek is idempotent: a week start is its own week start. */
  lemma StartOfWeekIdempotent(n: int)
    ensures StartOfWeek(StartOfWeek(n)) == StartOfWeek(n)
  {
  }

  lemma StartOfWeekMonotone(m: int, n: int)
    requires m <= n
    ensures StartOfWeek(m) <= StartOfWeek(n)
  {
  }

  lemma EpochIsThursday()
    ensures DayNumber(CivilDate(1970, 1, 1)) == 0
    ensures Weekday(0) == 4
  {
  }
}
