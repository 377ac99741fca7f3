/**
 * The shared records: an expense row, a budget row, the signed-in user,
 * and the seven expense categories offered by the expense form.
 * Money is held in integer cents.
 */
module Records {
  import opened Calendar

  /** The fixed category list of the expense form. */
  datatype Category = Food | Transport | Entertainment | Shopping | Bills | Healthcare | Other

  /** The display name of a category, as stored in an expense's `category` field. */
  function CategoryName(c: Category): string {
    match c
    case Food => "Food"
    case Transport => "Transport"
    case Entertainment => "Entertainment"
    case Shopping => "Shopping"
    case Bills => "Bills"
    case Healthcare => "Healthcare"
    case Other => "Other"
  }

  /** The seven names in the form's order. */
  const CategoryNames: seq<string> :=
    ["Food", "Transport", "Entertainment", "Shopping", "Bills", "Healthcare", "Other"]

  /** No name appears twice: their initials already differ. */
  lemma CategoryNamesDistinct()
    ensures forall j, k :: 0 <= j < k < |CategoryNames| ==> CategoryNames[j] != CategoryNames[k]
  {
    assert forall k :: 0 <= k < |CategoryNames| ==> CategoryNames[k][0] == "FTESBHO"[k];
  }

  /** Names and categories correspond one to one. */
  lemma CategoryNameBijective(c: Category, name: string)
    ensures CategoryName(c) in CategoryNames
    ensures name in CategoryNames ==> exists k :: CategoryName(k) == name
    ensures forall k :: CategoryName(k) == CategoryName(c) ==> k == c
  {
    if name in CategoryNames {
      var i :| 0 <= i < |CategoryNames| && CategoryNames[i] == name;
      assert CategoryName([Food, Transport, Entertainment, Shopping, Bills, Healthcare, Other][i]) == name;
    }
  }

  /** An expense row. `category` is free text, as in the row store. */
  datatype Expense = Expense(
    id: string,
    userId: string,
    amount: int,
    category: string,
    description: string,
    date: CivilDate,
    createdAt: string)

  /** A budget row: one per user. */
  datatype Budget = Budget(
    id: string,
    userId: string,
    monthlyLimit: int,
    createdAt: string,
    updatedAt: string)

  /** The session user. */
  datatype User = User(id: string, email: string)

  /** `reduce((sum, e) => sum + e.amount, 0)`. */
  function Total(es: seq<Expense>): int {
    if es == [] then 0 else Total(es[..|es| - 1]) + es[|es| - 1].amount
  }

  lemma {:induction false} TotalAppend(a: seq<Expense>, b: seq<Expense>)
    ensures Total(a + b) == Total(a) + Total(b)
    decreases |b|
  {
    if b == [] {
      assert a + b == a;
    } else {
      assert (a + b)[..|a + b| - 1] == a + b[..|b| - 1];
      TotalAppend(a, b[..|b| - 1]);
    }
  }

  lemma {:induction false} TotalNonNegative(es: seq<Expense>)
    requires forall i :: 0 <= i < |es| ==> es[i].amount >= 0
    ensures Total(es) >= 0
  {
    if es != [] {
      TotalNonNegative(es[..|es| - 1]);
    }
  }

  /** All expenses dated on or after day `lower`, in input order (`filter(e => date >= lower)`). */
  function OnOrAfter(es: seq<Expense>, lower: int): (r: seq<Expense>)
    ensures |r| <= |es|
    ensures forall e :: e in r <==> e in es && DayNumber(e.date) >= lower
  {
    if es == [] then []
    else
      var rest := OnOrAfter(es[..|es| - 1], lower);
      var e := es[|es| - 1];
      assert es == es[..|es| - 1] + [e];
      if DayNumber(e.date) >= lower then rest + [e] else rest
  }

  /** The filter keeps every qualifying expense as often as the input holds it, and no other. */
  lemma {:induction false} OnOrAfterCounts(es: seq<Expense>, lower: int)
    ensures forall e :: multiset(OnOrAfter(es, lower))[e] == if DayNumber(e.date) >= lower then multiset(es)[e] else 0
  {
    if es != [] {
      assert es == es[..|es| - 1] + [es[|es| - 1]];
      OnOrAfterCounts(es[..|es| - 1], lower);
    }
  }

  /** A single expense is kept exactly when it is dated on or after the bound. */
  lemma OnOrAfterSingle(e: Expense, lower: int)
    ensures OnOrAfter([e], lower) == if DayNumber(e.date) >= lower then [e] else []
  {
    assert [e][..0] == [];
  }

  /** Filtering a joined list filters each part, keeping the order. */
  lemma {:induction false} OnOrAfterAppend(a: seq<Expense>, b: seq<Expense>, lower: int)
    ensures OnOrAfter(a + b, lower) == OnOrAfter(a, lower) + OnOrAfter(b, lower)
    decreases |b|
  {
    if b == [] {
      assert a + b == a;
    } else {
      var init := b[..|b| - 1];
      assert (a + b)[..|a + b| - 1] == a + init;
      OnOrAfterAppend(a, init, lower);
    }
  }
}
