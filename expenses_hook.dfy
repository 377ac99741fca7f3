/**
 * The expenses hook: the signed-in user's expenses held in memory and kept
 * in step with the remote table. The remote calls are not modelled; each
 * operation takes the response the table gave as a parameter.
 */
module ExpensesHook {
  import opened Wrappers
  import opened Calendar
  import opened Records

  /** What `addExpense` is given: an expense without id, owner and creation time. */
  datatype NewExpense = NewExpense(amount: int, category: string, description: string, date: CivilDate)

  /** The row sent to the table: the input together with the owner's id. */
  datatype InsertPayload = InsertPayload(expense: NewExpense, userId: string)

  /** The table's answer to a select: rows (possibly `null`), or an error. */
  datatype SelectResponse = Rows(data: Option<seq<Expense>>) | SelectError

  /** The table's answer to an insert with `.select().single()`: the stored row, or an error. */
  datatype InsertResponse = Inserted(row: Expense) | InsertError

  /** `{ success }`, or nothing at all when there was no user. */
  datatype OpResult = NoResult | Succeeded | Failed

  datatype ExpensesState = ExpensesState(expenses: seq<Expense>, loading: bool)

  /** The list with every expense of the given id removed, order kept. */
  function Without(es: seq<Expense>, id: string): seq<Expense> {
    if es == [] then []
    else (if es[0].id == id then [] else [es[0]]) + Without(es[1..], id)
  }

  /** Lines 10-27: without a user nothing happens; rows, or `[]` for `null`, replace the list; an error keeps it. */
  function FetchSpec(s: ExpensesState, user: Option<User>, response: SelectResponse): ExpensesState {
    if user.None? then s
    else if response.SelectError? then s.(loading := false)
    else ExpensesState(response.data.GetOr([]), false)
  }

  /** The payload of line 35. */
  function Payload(input: NewExpense, user: User): (p: InsertPayload)
    ensures p.expense == input && p.userId == user.id
  {
    InsertPayload(input, user.id)
  }

  /** Lines 29-46: the stored row is put in front of the list on success. */
  function AddSpec(s: ExpensesState, user: Option<User>, response: InsertResponse): (ExpensesState, OpResult) {
    if user.None? then (s, NoResult)
    else if response.InsertError? then (s, Failed)
    else (s.(expenses := [response.row] + s.expenses), Succeeded)
  }

  /** Lines 48-62: no user check; on success every expense with the id is dropped. */
  function DeleteSpec(s: ExpensesState, id: string, deleteOk: bool): (ExpensesState, OpResult) {
    if deleteOk then (s.(expenses := Without(s.expenses, id)), Succeeded) else (s, Failed)
  }

  class ExpenseList {
    var expenses: seq<Expense>
    var loading: bool

    function State(): ExpensesState
      reads this
    {
      ExpensesState(expenses, loading)
    }

    constructor ()
      ensures State() == ExpensesState([], true)
    {
      expenses := [];
      loading := true;
    }

    method FetchExpenses(user: Option<User>, response: SelectResponse)
      modifies this
      ensures State() == FetchSpec(old(State()), user, response)
    {
      if user.None? {
        return;
      }
      if response.Rows? {
        expenses := response.data.GetOr([]);
      }
      loading := false;
    }

    /** `payload` is what is sent to the table, so that a caller can relate the response to it. */
    method AddExpense(input: NewExpense, user: Option<User>, response: InsertResponse)
      returns (result: OpResult, payload: Option<InsertPayload>)
      modifies this
      ensures (State(), result) == AddSpec(old(State()), user, response)
      ensures user.None? ==> payload.None?
      ensures user.Some? ==> payload == Some(Payload(input, user.value))
    {
      if user.None? {
        return NoResult, None;
      }
      payload := Some(Payload(input, user.value));
      if response.InsertError? {
        return Failed, payload;
      }
      expenses := [response.row] + expenses;
      result := Succeeded;
    }

    method DeleteExpense(id: string, deleteOk: bool) returns (result: OpResult)
      modifies this
      ensures (State(), result) == DeleteSpec(old(State()), id, deleteOk)
    {
      if !deleteOk {
        return Failed;
      }
      expenses := Without(expenses, id);
      result := Succeeded;
    }
  }

  /** No expense with the id survives, and every other expense does. */
  lemma {:induction false} WithoutMembers(es: seq<Expense>, id: string)
    ensures forall e :: e in Without(es, id) <==> e in es && e.id != id
  {
    if es != [] {
      WithoutMembers(es[1..], id);
      assert es == [es[0]] + es[1..];
    }
  }

  /** Filtering splits over concatenation, so the kept expenses stay in their order. */
  lemma {:induction false} WithoutAppend(a: seq<Expense>, b: seq<Expense>, id: string)
    ensures Without(a + b, id) == Without(a, id) + Without(b, id)
  {
    if a == [] {
      assert a + b == b;
    } else {
      assert (a + b)[1..] == a[1..] + b;
      WithoutAppend(a[1..], b, id);
    }
  }

  /** Removing an id no expense has changes nothing. */
  lemma {:induction false} WithoutAbsent(es: seq<Expense>, id: string)
    requires forall i :: 0 <= i < |es| ==> es[i].id != id
    ensures Without(es, id) == es
  {
    if es != [] {
      WithoutAbsent(es[1..], id);
    }
  }

  /** Deleting twice is deleting once. */
  lemma WithoutIdempotent(es: seq<Expense>, id: string)
    ensures Without(Without(es, id), id) == Without(es, id)
  {
    WithoutMembers(es, id);
    var r := Without(es, id);
    forall i | 0 <= i < |r|
      ensures r[i].id != id
    {
      assert r[i] in r;
    }
    WithoutAbsent(r, id);
  }

  /** The length lost is the number of expenses that carried the id. */
  function CountId(es: seq<Expense>, id: string): nat {
    if es == [] then 0 else (if es[0].id == id then 1 else 0) + CountId(es[1..], id)
  }

  lemma {:induction false} WithoutLength(es: seq<Expense>, id: string)
    ensures |Without(es, id)| == |es| - CountId(es, id)
  {
    if es != [] {
      WithoutLength(es[1..], id);
    }
  }

  /** A fetch without a user changes nothing; with one, a returned list replaces the old one and `null` empties it. */
  lemma FetchCases(s: ExpensesState, user: Option<User>, response: SelectResponse)
    ensures user.None? ==> FetchSpec(s, user, response) == s
    ensures user.Some? ==> !FetchSpec(s, user, response).loading
    ensures user.Some? && response.Rows? && response.data.Some? ==> FetchSpec(s, user, response).expenses == response.data.value
    ensures user.Some? && response == Rows(None) ==> FetchSpec(s, user, response).expenses == []
    ensures response.SelectError? ==> FetchSpec(s, user, response).expenses == s.expenses
  {
  }

  /** A successful add puts the inserted row in front of the list; otherwise the list is unchanged. */
  lemma AddCases(s: ExpensesState, user: Option<User>, response: InsertResponse)
    ensures var (s', result) := AddSpec(s, user, response);
      (result == Succeeded <==> user.Some? && response.Inserted?)
      && (result == Succeeded ==> s'.expenses[1..] == s.expenses && |s'.expenses| == |s.expenses| + 1)
      && (result == Succeeded ==> s'.expenses == [response.row] + s.expenses)
      && (result != Succeeded ==> s' == s)
      && (result == NoResult <==> user.None?)
  {
  }

  /** A failed delete changes nothing; a successful one with an unknown id changes nothing either. */
  lemma DeleteCases(s: ExpensesState, id: string, deleteOk: bool)
    ensures !deleteOk ==> DeleteSpec(s, id, deleteOk) == (s, Failed)
    ensures deleteOk && (forall i :: 0 <= i < |s.expenses| ==> s.expenses[i].id != id) ==>
      DeleteSpec(s, id, deleteOk) == (s, Succeeded)
  {
    if deleteOk && (forall i :: 0 <= i < |s.expenses| ==> s.expenses[i].id != id) {
      WithoutAbsent(s.expenses, id);
    }
  }

  /** Adding an expense with a new id and then deleting it restores the list. */
  lemma AddThenDelete(s: ExpensesState, user: User, row: Expense)
    requires forall i :: 0 <= i < |s.expenses| ==> s.expenses[i].id != row.id
    ensures var s1 := AddSpec(s, Some(user), Inserted(row)).0;
      DeleteSpec(s1, row.id, true).0 == s
  {
    WithoutAbsent(s.expenses, row.id);
    WithoutAppend([row], s.expenses, row.id);
  }
}
