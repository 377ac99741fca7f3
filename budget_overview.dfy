/**
 * The budget card on the dashboard: this month's spending against the
 * stored monthly limit, the over-budget and near-limit alerts, the progress
 * bar, and the small editor that saves a new limit through the budget hook.
 */
module BudgetOverview {
  import opened Wrappers
  import opened Calendar
  import opened Records
  import StatsCards
  import opened BudgetHook

  /** Spending of the month: expenses dated on or after the first of the month of `now`. */
  function MonthlySpent(es: seq<Expense>, now: CivilDate): int {
    Total(OnOrAfter(es, StartOfMonth(now)))
  }

  /** `budget?.monthly_limit || 0`. */
  function BudgetLimit(budget: Option<Budget>): (limit: int)
    ensures budget.None? ==> limit == 0
    ensures budget.Some? ==> limit == budget.value.monthlyLimit
  {
    if budget.Some? then budget.value.monthlyLimit else 0
  }

  /** The figures the card derives from spending and limit. */
  datatype Status = Status(remaining: int, percentageUsed: real, isOverBudget: bool, isNearLimit: bool)

  function PercentageUsed(spent: int, limit: int): real {
    if limit > 0 then (spent as real / limit as real) * 100.0 else 0.0
  }

  function ComputeStatus(spent: int, limit: int): (st: Status)
    ensures st.remaining + spent == limit
    ensures limit <= 0 ==> st.percentageUsed == 0.0
    ensures st.isOverBudget <==> spent > limit
    ensures st.isNearLimit <==> st.percentageUsed > 80.0 && spent <= limit
  {
    var remaining := limit - spent;
    var pct := PercentageUsed(spent, limit);
    var over := remaining < 0;
    Status(remaining, pct, over, pct > 80.0 && !over)
  }

  /** The width of the progress bar, `Math.min(percentageUsed, 100)`. */
  function ProgressWidth(st: Status): (w: real)
    ensures w <= 100.0
    ensures w == st.percentageUsed || w == 100.0
    ensures st.percentageUsed <= 100.0 ==> w == st.percentageUsed
  {
    if st.percentageUsed < 100.0 then st.percentageUsed else 100.0
  }

  /** The status the card shows for a list of expenses and the stored budget. */
  function CardStatus(es: seq<Expense>, budget: Option<Budget>, now: CivilDate): Status {
    ComputeStatus(MonthlySpent(es, now), BudgetLimit(budget))
  }

  /**
   * What the card shows: the remaining amount is the limit, 0 without a
   * budget, less this month's spending as the stats cards count it; the
   * over-budget alert shows exactly when that spending exceeds the limit; and
   * without a budget the percentage is 0 and the near-limit alert never shows.
   */
  lemma CardStatusMeaning(es: seq<Expense>, budget: Option<Budget>, now: CivilDate)
    ensures var st := CardStatus(es, budget, now);
      var spent := StatsCards.ComputeStats(es, now).month.total;
      var limit := if budget.Some? then budget.value.monthlyLimit else 0;
      st.remaining == limit - spent
      && (st.isOverBudget <==> spent > limit)
      && (budget.None? ==> st.percentageUsed == 0.0 && !st.isNearLimit)
  {
    MonthlySpentIsMonthStat(es, now);
  }

  /** The card's monthly spending is the month figure of the stats cards. */
  lemma MonthlySpentIsMonthStat(es: seq<Expense>, now: CivilDate)
    ensures MonthlySpent(es, now) == StatsCards.ComputeStats(es, now).month.total
  {
  }

  /** The two alerts are never shown together. */
  lemma AlertsExclusive(spent: int, limit: int)
    ensures !(ComputeStatus(spent, limit).isOverBudget && ComputeStatus(spent, limit).isNearLimit)
  {
  }

  lemma CancelPositive(x: real, y: real)
    requires y > 0.0
    ensures (x / y) * y == x
  {
  }

  /** Multiplying by a positive factor keeps a strict comparison. */
  lemma ScaleCompare(a: real, b: real, y: real)
    requires y > 0.0
    ensures a > b <==> a * y > b * y
  {
    assert a * y - b * y == (a - b) * y;
  }

  /** `spent / limit * 100 > bound` compared without division. */
  lemma PercentageAbove(spent: int, limit: int, bound: real)
    requires limit > 0
    ensures PercentageUsed(spent, limit) > bound <==> (spent as real) * 100.0 > bound * (limit as real)
  {
    var s := spent as real;
    var l := limit as real;
    var p := (s / l) * 100.0;
    CancelPositive(s, l);
    assert p * l == s * 100.0;
    ScaleCompare(p, bound, l);
  }

  /**
   * With a positive limit the percentage compares with 100 exactly as
   * spending compares with the limit, so being over budget is using more
   * than 100 percent, and the near-limit alert means using more than 80
   * and at most 100 percent.
   */
  lemma PercentageMeaning(spent: int, limit: int)
    requires limit > 0
    ensures PercentageUsed(spent, limit) > 100.0 <==> spent > limit
    ensures PercentageUsed(spent, limit) > 80.0 <==> 5 * spent > 4 * limit
    ensures ComputeStatus(spent, limit).isNearLimit <==> 4 * limit < 5 * spent <= 5 * limit
  {
    PercentageAbove(spent, limit, 100.0);
    PercentageAbove(spent, limit, 80.0);
  }

  /** With no limit (no budget, or a zero limit) any positive spending is over budget and never near. */
  lemma NoLimitCases(spent: int)
    ensures ComputeStatus(spent, 0).percentageUsed == 0.0
    ensures ComputeStatus(spent, 0).isOverBudget <==> spent > 0
    ensures !ComputeStatus(spent, 0).isNearLimit
  {
  }

  /** Limit 100.00 with 90.00 spent is near the limit at 90 percent. */
  lemma NearExample()
    ensures ComputeStatus(9000, 10000) == Status(1000, 90.0, false, true)
  {
  }

  /** Limit 100.00 with 110.00 spent is over budget by 10.00. */
  lemma OverExample()
    ensures ComputeStatus(11000, 10000) == Status(-1000, 110.0, true, false)
  {
  }

  /** Limit 100.00 with 50.00 spent raises no alert. */
  lemma NormalExample()
    ensures ComputeStatus(5000, 10000) == Status(5000, 50.0, false, false)
  {
  }

  /** The editor's own state: whether it is open and the text typed. */
  datatype EditorState = EditorState(isEditing: bool, newLimit: string)

  /**
   * `handleSaveBudget`. `parsed` is `parseFloat(newLimit)` in cents, `None`
   * for NaN. Empty text, an unparsable or a negative limit do nothing; the
   * editor closes and clears only when the hook reports success.
   */
  function SaveSpec(ed: EditorState, b: BudgetState, user: Option<User>, parsed: Option<int>,
                    now: string, freshId: string, writeOk: bool): (EditorState, BudgetState)
  {
    if ed.newLimit == "" || parsed.None? || parsed.value < 0 then (ed, b)
    else
      var (b', result) := SetSpec(b, user, parsed.value, now, freshId, writeOk);
      (if result == Saved then EditorState(false, "") else ed, b')
  }

  /** `handleCancelEdit`. */
  function CancelSpec(ed: EditorState): EditorState {
    EditorState(false, "")
  }

  /** Which of the card's views is shown: the "Set Budget" prompt, the editor, or the status. */
  datatype View = SetBudgetPrompt | Editor | StatusView

  function ViewOf(ed: EditorState, budget: Option<Budget>): (v: View)
    ensures v == SetBudgetPrompt <==> budget.None? && !ed.isEditing
    ensures v == Editor <==> ed.isEditing
  {
    if budget.None? && !ed.isEditing then SetBudgetPrompt
    else if ed.isEditing then Editor
    else StatusView
  }

  class BudgetEditor {
    var isEditing: bool
    var newLimit: string

    function State(): EditorState
      reads this
    {
      EditorState(isEditing, newLimit)
    }

    constructor ()
      ensures State() == EditorState(false, "")
    {
      isEditing := false;
      newLimit := "";
    }

    /** The "Set Budget" button of the prompt. */
    method OpenFromPrompt()
      modifies this
      ensures State() == old(State()).(isEditing := true)
    {
      isEditing := true;
    }

    /** The edit button of the status view; `limitText` is `budgetLimit.toString()`. */
    method OpenWithLimit(limitText: string)
      modifies this
      ensures State() == EditorState(true, limitText)
    {
      isEditing := true;
      newLimit := limitText;
    }

    /** The input's `onChange`. */
    method Type(text: string)
      modifies this
      ensures State() == old(State()).(newLimit := text)
    {
      newLimit := text;
    }

    method Cancel()
      modifies this
      ensures State() == CancelSpec(old(State()))
    {
      isEditing := false;
      newLimit := "";
    }

    method Save(store: BudgetStore, user: Option<User>, parsed: Option<int>, now: string, freshId: string, writeOk: bool)
      modifies this, store
      ensures (State(), store.State()) == SaveSpec(old(State()), old(store.State()), user, parsed, now, freshId, writeOk)
    {
      if newLimit == "" || parsed.None? || parsed.value < 0 {
        return;
      }
      var result := store.SetBudgetLimit(user, parsed.value, now, freshId, writeOk);
      if result == Saved {
        isEditing := false;
        newLimit := "";
      }
    }
  }

  /** Empty text, an unparsable number or a negative limit leave both the editor and the budget as they were. */
  lemma SaveGuard(ed: EditorState, b: BudgetState, user: Option<User>, parsed: Option<int>, now: string, freshId: string, writeOk: bool)
    requires ed.newLimit == "" || parsed.None? || (parsed.Some? && parsed.value < 0)
    ensures SaveSpec(ed, b, user, parsed, now, freshId, writeOk) == (ed, b)
  {
  }

  /**
   * The editor closes exactly when a non-negative limit was saved for a
   * signed-in user with a working storage; the stored limit is then the
   * value `parseFloat` returned for the text.
   */
  lemma SaveClosesOnlyOnSuccess(ed: EditorState, b: BudgetState, user: Option<User>, parsed: Option<int>, now: string, freshId: string, writeOk: bool)
    requires ed.isEditing
    ensures var (ed', b') := SaveSpec(ed, b, user, parsed, now, freshId, writeOk);
      !ed'.isEditing <==> ed.newLimit != "" && parsed.Some? && parsed.value >= 0 && user.Some? && writeOk
    ensures var (ed', b') := SaveSpec(ed, b, user, parsed, now, freshId, writeOk);
      !ed'.isEditing ==> (ed'.newLimit == "" && BudgetLimit(b'.budget) == parsed.value
        && StorageKey(user.value.id) in b'.storage
        && b'.storage[StorageKey(user.value.id)].monthlyLimit == parsed.value)
  {
  }

  /** A zero limit is accepted by the card (the settings page instead requires a positive one). */
  lemma SaveAcceptsZero(ed: EditorState, b: BudgetState, user: User, now: string, freshId: string)
    requires ed.newLimit != ""
    ensures SaveSpec(ed, b, Some(user), Some(0), now, freshId, true).0 == EditorState(false, "")
  {
  }
}
