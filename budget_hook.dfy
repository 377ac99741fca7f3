/**
 * The budget hook over browser local storage: one budget record per user,
 * stored under "budget-buddy-budget-" followed by the user id, and mirrored
 * in the hook's `budget` state.
 */
module BudgetHook {
  import opened Wrappers
  import opened Records

  const StoragePrefix: string := "budget-buddy-budget-"

  /** The two keys the authentication context keeps in the same storage. */
  const UsersKey: string := "budget-buddy-users"
  const SessionKey: string := "budget-buddy-user"

  /** `getStorageKey` for a signed-in user. */
  function StorageKey(userId: string): (key: string)
    ensures |key| == |StoragePrefix| + |userId|
    ensures key[..|StoragePrefix|] == StoragePrefix && key[|StoragePrefix|..] == userId
  {
    StoragePrefix + userId
  }

  /** Distinct users get distinct keys, and no budget key is one of the authentication keys. */
  lemma StorageKeysSeparate(a: string, b: string)
    ensures StorageKey(a) == StorageKey(b) <==> a == b
    ensures StorageKey(a) != UsersKey && StorageKey(a) != SessionKey
  {
    if StorageKey(a) == StorageKey(b) {
      assert a == StorageKey(a)[|StoragePrefix|..];
    }
    assert StorageKey(a)[13] == 'b' && UsersKey[13] == 'u' && SessionKey[13] == 'u';
  }

  /** The outcome of `setBudgetLimit`. */
  datatype SaveResult = Saved | SaveFailed(error: string)

  /** The hook's state: the storage (decoded), the `budget` state and the `loading` flag. */
  datatype BudgetState = BudgetState(storage: map<string, Budget>, budget: Option<Budget>, loading: bool)

  /** Lines 19-32: without a user nothing happens; otherwise the stored record, or null, becomes the state. */
  function FetchSpec(s: BudgetState, user: Option<User>): BudgetState {
    if user.None? then s
    else
      var key := StorageKey(user.value.id);
      s.(budget := if key in s.storage then Some(s.storage[key]) else None, loading := false)
  }

  /**
   * Lines 39-45: the record to write. `budget?.id || fresh` and
   * `budget?.created_at || now` fall back also when a kept field is the empty string.
   */
  function NewRecord(current: Option<Budget>, user: User, monthlyLimit: int, now: string, freshId: string): Budget {
    Budget(
      if current.Some? && current.value.id != "" then current.value.id else freshId,
      user.id,
      monthlyLimit,
      if current.Some? && current.value.createdAt != "" then current.value.createdAt else now,
      now)
  }

  /**
   * Lines 34-57. `now` and `freshId` stand for the ISO timestamp and
   * `Date.now()`; `writeOk` says whether `localStorage.setItem` succeeded.
   * The state is set before the write, so a failed write still updates it.
   */
  function SetSpec(s: BudgetState, user: Option<User>, monthlyLimit: int, now: string, freshId: string, writeOk: bool)
    : (BudgetState, SaveResult)
  {
    if user.None? then (s, SaveFailed("User not authenticated"))
    else
      var record := NewRecord(s.budget, user.value, monthlyLimit, now, freshId);
      var s' := s.(budget := Some(record));
      if writeOk then (s'.(storage := s.storage[StorageKey(user.value.id) := record]), Saved)
      else (s', SaveFailed("storage write failed"))
  }

  class BudgetStore {
    var storage: map<string, Budget>
    var budget: Option<Budget>
    var loading: bool

    function State(): BudgetState
      reads this
    {
      BudgetState(storage, budget, loading)
    }

    /** The hook's initial state over the storage found in the browser. */
    constructor (stored: map<string, Budget>)
      ensures State() == BudgetState(stored, None, true)
    {
      storage := stored;
      budget := None;
      loading := true;
    }

    method FetchBudget(user: Option<User>)
      modifies this
      ensures State() == FetchSpec(old(State()), user)
    {
      if user.None? {
        return;
      }
      var key := StorageKey(user.value.id);
      if key in storage {
        budget := Some(storage[key]);
      } else {
        budget := None;
      }
      loading := false;
    }

    method SetBudgetLimit(user: Option<User>, monthlyLimit: int, now: string, freshId: string, writeOk: bool)
      returns (result: SaveResult)
      modifies this
      ensures (State(), result) == SetSpec(old(State()), user, monthlyLimit, now, freshId, writeOk)
    {
      if user.None? {
        return SaveFailed("User not authenticated");
      }
      var u := user.value;
      var id := if budget.Some? && budget.value.id != "" then budget.value.id else freshId;
      var createdAt := if budget.Some? && budget.value.createdAt != "" then budget.value.createdAt else now;
      var record := Budget(id, u.id, monthlyLimit, createdAt, now);
      budget := Some(record);
      if !writeOk {
        return SaveFailed("storage write failed");
      }
      storage := storage[StorageKey(u.id) := record];
      result := Saved;
    }
  }

  /** Without a user, saving fails with "User not authenticated" and changes nothing. */
  lemma SetWithoutUser(s: BudgetState, monthlyLimit: int, now: string, freshId: string, writeOk: bool)
    ensures SetSpec(s, None, monthlyLimit, now, freshId, writeOk) == (s, SaveFailed("User not authenticated"))
  {
  }

  /**
   * The first save creates a record with the fresh id, the user's id and
   * equal creation and update times; a later save keeps id and creation
   * time and replaces only the limit and the update time.
   */
  lemma SetCreatesOrKeepsIdentity(s: BudgetState, user: User, monthlyLimit: int, now: string, freshId: string, writeOk: bool)
    ensures var (s', _) := SetSpec(s, Some(user), monthlyLimit, now, freshId, writeOk);
      s'.budget.Some? && s'.budget.value.userId == user.id
      && s'.budget.value.monthlyLimit == monthlyLimit && s'.budget.value.updatedAt == now
    ensures var (s', _) := SetSpec(s, Some(user), monthlyLimit, now, freshId, writeOk);
      s.budget.None? ==> s'.budget == Some(Budget(freshId, user.id, monthlyLimit, now, now))
    ensures var (s', _) := SetSpec(s, Some(user), monthlyLimit, now, freshId, writeOk);
      s.budget.Some? && s.budget.value.id != "" && s.budget.value.createdAt != "" ==>
        s'.budget == Some(s.budget.value.(userId := user.id, monthlyLimit := monthlyLimit, updatedAt := now))
  {
  }

  /** Any limit is accepted, negative ones included: with a user and a working storage the save succeeds. */
  lemma SetHasNoRangeCheck(s: BudgetState, user: User, monthlyLimit: int, now: string, freshId: string)
    ensures SetSpec(s, Some(user), monthlyLimit, now, freshId, true).1 == Saved
  {
  }

  /** After a successful save, fetching returns exactly the record written. */
  lemma SetThenFetch(s: BudgetState, user: User, monthlyLimit: int, now: string, freshId: string, writeOk: bool)
    requires SetSpec(s, Some(user), monthlyLimit, now, freshId, writeOk).1 == Saved
    ensures var s' := SetSpec(s, Some(user), monthlyLimit, now, freshId, writeOk).0;
      FetchSpec(s', Some(user)).budget == s'.budget
      && s'.budget == Some(NewRecord(s.budget, user, monthlyLimit, now, freshId))
  {
  }

  /** A save writes only the current user's key; every other user's record is untouched. */
  lemma SetTouchesOnlyOwnKey(s: BudgetState, user: Option<User>, monthlyLimit: int, now: string, freshId: string, writeOk: bool, key: string)
    requires user.None? || key != StorageKey(user.value.id)
    ensures var s' := SetSpec(s, user, monthlyLimit, now, freshId, writeOk).0;
      (key in s'.storage <==> key in s.storage) && (key in s.storage ==> s'.storage[key] == s.storage[key])
  {
  }

  /** A failed write leaves the storage as it was, so the next fetch brings back the stored record. */
  lemma FailedWriteIsUndoneByFetch(s: BudgetState, user: User, monthlyLimit: int, now: string, freshId: string)
    ensures var s' := SetSpec(s, Some(user), monthlyLimit, now, freshId, false).0;
      s'.storage == s.storage && FetchSpec(s', Some(user)).budget == FetchSpec(s, Some(user)).budget
  {
  }

  /** Fetching with no stored record yields null; fetching without a user changes nothing. */
  lemma FetchCases(s: BudgetState, user: Option<User>)
    ensures user.None? ==> FetchSpec(s, user) == s
    ensures user.Some? && StorageKey(user.value.id) !in s.storage ==>
      FetchSpec(s, user).budget.None? && !FetchSpec(s, user).loading
  {
  }
}
