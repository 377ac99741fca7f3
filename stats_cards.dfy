/**
 * The three dashboard cards: spending and transaction count for today,
 * this week and this month. Each period keeps the expenses dated on or
 * after its first day, with no upper bound.
 */
module StatsCards {
  import opened Calendar
  import opened Records
  import Text

  /** One card: the summed amount and the number of expenses. */
  datatype PeriodStat = PeriodStat(total: int, count: nat)

  datatype Stats = Stats(today: PeriodStat, week: PeriodStat, month: PeriodStat)

  /** `filter(e => date >= lower)` followed by its sum and its length. */
  function Period(es: seq<Expense>, lower: int): PeriodStat {
    var kept := OnOrAfter(es, lower);
    PeriodStat(Total(kept), |kept|)
  }

  /** `startOfDay(now)`, `startOfWeek(now)` and `startOfMonth(now)` as day numbers. */
  function TodayStart(now: CivilDate): int { DayNumber(now) }

  function WeekStart(now: CivilDate): int { StartOfWeek(DayNumber(now)) }

  function MonthStart(now: CivilDate): int { StartOfMonth(now) }

  /** Lines 11-30. */
  function ComputeStats(es: seq<Expense>, now: CivilDate): (s: Stats)
    ensures es == [] ==> s == Stats(PeriodStat(0, 0), PeriodStat(0, 0), PeriodStat(0, 0))
  {
    Stats(Period(es, TodayStart(now)), Period(es, WeekStart(now)), Period(es, MonthStart(now)))
  }

  /** Line 70: "1 transaction", otherwise "n transactions". */
  function CountLabel(n: nat): (caption: string)
    ensures caption == Text.NatToString(n) + " transaction" <==> n == 1
    ensures caption == Text.NatToString(n) + " transactions" <==> n != 1
  {
    Text.NatToString(n) + " transaction" + (if n != 1 then "s" else "")
  }

  /** A later lower bound keeps a sub-list: no larger count, and no larger total when amounts are non-negative. */
  lemma {:induction false} PeriodMonotone(es: seq<Expense>, lower: int, higher: int)
    requires lower <= higher
    ensures |OnOrAfter(es, higher)| <= |OnOrAfter(es, lower)|
    ensures (forall i :: 0 <= i < |es| ==> es[i].amount >= 0) ==>
      Total(OnOrAfter(es, higher)) <= Total(OnOrAfter(es, lower))
  {
    if es != [] {
      var p, e := es[..|es| - 1], es[|es| - 1];
      PeriodMonotone(p, lower, higher);
      TotalAppend(OnOrAfter(p, lower), [e]);
      TotalAppend(OnOrAfter(p, higher), [e]);
      assert [e][..0] == [];
    }
  }

  /** The day, the week and the month all begin no later than the current day. */
  lemma PeriodStartsNotAfterToday(now: CivilDate)
    requires now.day >= 1
    ensures WeekStart(now) <= TodayStart(now)
    ensures MonthStart(now) <= TodayStart(now)
  {
    DayNumberWithinMonth(now);
  }

  /**
   * Every expense counted for Today is counted for This Week and This Month,
   * including any dated in the future.
   */
  lemma TodayCountedInWeekAndMonth(es: seq<Expense>, now: CivilDate, e: Expense)
    requires now.day >= 1
    requires e in es && DayNumber(e.date) >= DayNumber(now)
    ensures e in OnOrAfter(es, TodayStart(now))
    ensures e in OnOrAfter(es, WeekStart(now)) && e in OnOrAfter(es, MonthStart(now))
  {
    PeriodStartsNotAfterToday(now);
  }

  /** Today's count is at most the week's and the month's, and so is its total when no amount is negative. */
  lemma TodayBoundedByWeekAndMonth(es: seq<Expense>, now: CivilDate)
    requires now.day >= 1
    ensures var s := ComputeStats(es, now);
      s.today.count <= s.week.count && s.today.count <= s.month.count
    ensures var s := ComputeStats(es, now);
      (forall i :: 0 <= i < |es| ==> es[i].amount >= 0) ==>
        s.today.total <= s.week.total && s.today.total <= s.month.total
  {
    PeriodStartsNotAfterToday(now);
    PeriodMonotone(es, WeekStart(now), TodayStart(now));
    PeriodMonotone(es, MonthStart(now), TodayStart(now));
  }
}
