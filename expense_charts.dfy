/**
 * The analytics view: spending per category (fold, descending sort and
 * percentage of the grand total) and the weekly trend of the current month.
 */
module ExpenseCharts {
  import opened Wrappers
  import opened Calendar
  import opened Records

  // ---------------------------------------------------------------------------
  // Category breakdown
  // ---------------------------------------------------------------------------

  /** One slice of the pie chart: `{ name, value }`. */
  datatype CategoryEntry = CategoryEntry(name: string, value: int)

  function Categories(es: seq<Expense>): (cs: seq<string>)
    ensures |cs| == |es|
    ensures forall i :: 0 <= i < |es| ==> cs[i] == es[i].category
  {
    seq(|es|, i requires 0 <= i < |es| => es[i].category)
  }

  function Names(entries: seq<CategoryEntry>): (ns: seq<string>)
    ensures |ns| == |entries|
    ensures forall i :: 0 <= i < |entries| ==> ns[i] == entries[i].name
  {
    seq(|entries|, i requires 0 <= i < |entries| => entries[i].name)
  }

  predicate Distinct(ns: seq<string>) {
    forall i, j :: 0 <= i < j < |ns| ==> ns[i] != ns[j]
  }

  /** The distinct names of `cs`, each once, in order of first appearance. */
  function FirstOccurrences(cs: seq<string>): (r: seq<string>)
    ensures Distinct(r)
    ensures forall c :: c in r <==> c in cs
    ensures |r| <= |cs|
  {
    if cs == [] then []
    else
      var prefix := FirstOccurrences(cs[..|cs| - 1]);
      var c := cs[|cs| - 1];
      assert cs == cs[..|cs| - 1] + [c];
      if c in prefix then prefix else prefix + [c]
  }

  /** The index at which `c` first appears in `cs`. */
  function FirstIndex(cs: seq<string>, c: string): (k: nat)
    requires c in cs
    ensures k < |cs| && cs[k] == c && c !in cs[..k]
  {
    if cs[0] == c then 0 else 1 + FirstIndex(cs[1..], c)
  }

  /** The summed amount of the expenses whose category is `name`. */
  function SumFor(es: seq<Expense>, name: string): int {
    if es == [] then 0
    else SumFor(es[..|es| - 1], name) + (if es[|es| - 1].category == name then es[|es| - 1].amount else 0)
  }

  /**
   * Reference definition of the category breakdown: one entry per distinct
   * category, in order of first appearance, carrying that category's sum.
   */
  function CategoryTotals(es: seq<Expense>): (r: seq<CategoryEntry>)
    ensures |r| == 0 <==> es == []
  {
    var names := FirstOccurrences(Categories(es));
    assert es != [] ==> es[0].category in Categories(es);
    seq(|names|, i requires 0 <= i < |names| => CategoryEntry(names[i], SumFor(es, names[i])))
  }

  function SumValues(entries: seq<CategoryEntry>): int {
    if entries == [] then 0 else SumValues(entries[..|entries| - 1]) + entries[|entries| - 1].value
  }

  lemma {:induction false} FirstIndexAppend(cs: seq<string>, x: string, c: string)
    requires c in cs
    ensures FirstIndex(cs + [x], c) == FirstIndex(cs, c)
  {
    if cs[0] != c {
      assert (cs + [x])[1..] == cs[1..] + [x];
      FirstIndexAppend(cs[1..], x, c);
    }
  }

  /** Every name of `r` occurs in `cs`, and `r` lists them in order of first appearance in `cs`. */
  ghost predicate InFirstAppearanceOrder(cs: seq<string>, r: seq<string>) {
    (forall x :: x in r ==> x in cs)
    && forall i, j :: 0 <= i < j < |r| ==> FirstIndex(cs, r[i]) < FirstIndex(cs, r[j])
  }

  /** The categories appear in the order in which the input first mentions them. */
  lemma {:induction false} FirstOccurrencesOrdered(cs: seq<string>)
    ensures InFirstAppearanceOrder(cs, FirstOccurrences(cs))
  {
    if cs != [] {
      var p := cs[..|cs| - 1];
      var c := cs[|cs| - 1];
      assert cs == p + [c];
      FirstOccurrencesOrdered(p);
      var rp := FirstOccurrences(p);
      var r := FirstOccurrences(cs);
      forall i | 0 <= i < |rp| ensures FirstIndex(cs, rp[i]) == FirstIndex(p, rp[i]) {
        FirstIndexAppend(p, c, rp[i]);
      }
      if c !in rp {
        assert r == rp + [c];
        assert cs[..|p|] == p;
        assert FirstIndex(cs, c) == |p|;
        forall i, j | 0 <= i < j < |r| ensures FirstIndex(cs, r[i]) < FirstIndex(cs, r[j]) {
          assert rp[i] in p;
          if j < |rp| {
            assert FirstIndex(p, rp[i]) < FirstIndex(p, rp[j]);
          } else {
            assert FirstIndex(p, rp[i]) < |p|;
          }
        }
      }
    }
  }

  lemma SumForAppend(es: seq<Expense>, e: Expense, name: string)
    ensures SumFor(es + [e], name) == SumFor(es, name) + (if e.category == name then e.amount else 0)
  {
    assert (es + [e])[..|es|] == es;
  }

  lemma {:induction false} SumForAbsent(es: seq<Expense>, name: string)
    requires name !in Categories(es)
    ensures SumFor(es, name) == 0
  {
    if es != [] {
      var p := es[..|es| - 1];
      assert Categories(p) == Categories(es)[..|es| - 1];
      SumForAbsent(p, name);
    }
  }

  lemma SumValuesAppend(entries: seq<CategoryEntry>, x: CategoryEntry)
    ensures SumValues(entries + [x]) == SumValues(entries) + x.value
  {
    assert (entries + [x])[..|entries|] == entries;
  }

  /** Adding `delta` to the one entry named `name` adds `delta` to the sum. */
  lemma {:induction false} SumValuesBump(entries: seq<CategoryEntry>, bumped: seq<CategoryEntry>, name: string, delta: int)
    requires |bumped| == |entries|
    requires Distinct(Names(entries)) && name in Names(entries)
    requires forall i :: 0 <= i < |entries| ==>
      (bumped[i].value == entries[i].value + (if entries[i].name == name then delta else 0))
    ensures SumValues(bumped) == SumValues(entries) + delta
  {
    var n := |entries|;
    var last := entries[n - 1];
    var p, bp := entries[..n - 1], bumped[..n - 1];
    assert Names(p) == Names(entries)[..n - 1];
    if last.name == name {
      assert name !in Names(p);
      SumValuesNoBump(p, bp, name, delta);
    } else {
      assert name in Names(p) by {
        var k :| 0 <= k < n && Names(entries)[k] == name;
        assert k < n - 1;
        assert Names(p)[k] == name;
      }
      SumValuesBump(p, bp, name, delta);
    }
  }

  lemma {:induction false} SumValuesNoBump(entries: seq<CategoryEntry>, bumped: seq<CategoryEntry>, name: string, delta: int)
    requires |bumped| == |entries|
    requires name !in Names(entries)
    requires forall i :: 0 <= i < |entries| ==>
      (bumped[i].value == entries[i].value + (if entries[i].name == name then delta else 0))
    ensures SumValues(bumped) == SumValues(entries)
  {
    var n := |entries|;
    if n > 0 {
      assert Names(entries[..n - 1]) == Names(entries)[..n - 1];
      assert entries[n - 1].name == Names(entries)[n - 1];
      SumValuesNoBump(entries[..n - 1], bumped[..n - 1], name, delta);
    }
  }

  /** The category values add up to the total of all amounts. */
  lemma {:induction false} CategoryTotalsSum(es: seq<Expense>)
    ensures SumValues(CategoryTotals(es)) == Total(es)
  {
    if es != [] {
      var p := es[..|es| - 1];
      var e := es[|es| - 1];
      assert es == p + [e];
      CategoryTotalsSum(p);
      if e.category in FirstOccurrences(Categories(p)) {
        TotalsStepKnown(p, e);
      } else {
        TotalsStepNew(p, e);
      }
      TotalAppend(p, [e]);
    }
  }

  /** An expense of a category already present adds its amount to the entries' sum. */
  lemma TotalsStepKnown(p: seq<Expense>, e: Expense)
    requires e.category in FirstOccurrences(Categories(p))
    ensures SumValues(CategoryTotals(p + [e])) == SumValues(CategoryTotals(p)) + e.amount
  {
    var rp, r := CategoryTotals(p), CategoryTotals(p + [e]);
    assert Categories(p + [e]) == Categories(p) + [e.category];
    assert Names(rp) == FirstOccurrences(Categories(p));
    forall i | 0 <= i < |rp| ensures r[i].value == rp[i].value + (if rp[i].name == e.category then e.amount else 0) {
      SumForAppend(p, e, rp[i].name);
    }
    assert |r| == |rp|;
    SumValuesBump(rp, r, e.category, e.amount);
  }

  /** An expense of a new category adds an entry carrying its amount. */
  lemma TotalsStepNew(p: seq<Expense>, e: Expense)
    requires e.category !in FirstOccurrences(Categories(p))
    ensures SumValues(CategoryTotals(p + [e])) == SumValues(CategoryTotals(p)) + e.amount
  {
    var rp, r := CategoryTotals(p), CategoryTotals(p + [e]);
    assert Categories(p + [e]) == Categories(p) + [e.category];
    assert Names(rp) == FirstOccurrences(Categories(p));
    forall i | 0 <= i < |rp| ensures r[i].value == rp[i].value + (if rp[i].name == e.category then e.amount else 0) {
      SumForAppend(p, e, rp[i].name);
    }
    assert |r| == |rp| + 1;
    assert r == r[..|rp|] + [r[|rp|]];
    SumValuesNoBump(rp, r[..|rp|], e.category, e.amount);
    SumForAppend(p, e, e.category);
    SumForAbsent(p, e.category);
    SumValuesAppend(r[..|rp|], r[|rp|]);
  }

  /**
   * What the breakdown says: one entry per distinct category present, in
   * order of first appearance, each carrying the sum of that category's amounts.
   */
  lemma CategoryTotalsMeaning(es: seq<Expense>)
    ensures var r := CategoryTotals(es);
      && Distinct(Names(r))
      && (forall c :: c in Names(r) <==> exists e :: e in es && e.category == c)
      && (forall i :: 0 <= i < |r| ==> r[i].value == SumFor(es, r[i].name))
      && InFirstAppearanceOrder(Categories(es), Names(r))
  {
    var r := CategoryTotals(es);
    var names := FirstOccurrences(Categories(es));
    assert Names(r) == names;
    FirstOccurrencesOrdered(Categories(es));
    forall c ensures c in Categories(es) <==> exists e :: e in es && e.category == c {
      if c in Categories(es) {
        var k :| 0 <= k < |es| && Categories(es)[k] == c;
        assert es[k] in es;
      }
    }
  }

  /**
   * The fold of lines 22-33: scan the expenses, add each amount to the entry
   * of its category, or push a new entry when the category is new.
   */
  method CategoryData(expenses: seq<Expense>) returns (acc: seq<CategoryEntry>)
    ensures acc == CategoryTotals(expenses)
  {
    acc := [];
    var i := 0;
    while i < |expenses|
      invariant 0 <= i <= |expenses|
      invariant acc == CategoryTotals(expenses[..i])
    {
      var e := expenses[i];
      // acc.find(item => item.name === expense.category)
      var j := 0;
      while j < |acc| && acc[j].name != e.category
        invariant 0 <= j <= |acc|
        invariant forall k :: 0 <= k < j ==> acc[k].name != e.category
      {
        j := j + 1;
      }
      assert expenses[..i + 1] == expenses[..i] + [e];
      if j < |acc| {
        FoldStepFound(expenses[..i], e, j);
        acc := acc[j := CategoryEntry(e.category, acc[j].value + e.amount)];
      } else {
        FoldStepNew(expenses[..i], e);
        acc := acc + [CategoryEntry(e.category, e.amount)];
      }
      i := i + 1;
    }
    assert expenses[..i] == expenses;
  }

  /** One more expense of a category already present bumps that category's entry. */
  lemma FoldStepFound(p: seq<Expense>, e: Expense, j: nat)
    requires j < |CategoryTotals(p)| && CategoryTotals(p)[j].name == e.category
    ensures CategoryTotals(p + [e]) == CategoryTotals(p)[j := CategoryEntry(e.category, CategoryTotals(p)[j].value + e.amount)]
  {
    var r, rp := CategoryTotals(p + [e]), CategoryTotals(p);
    var cs, np := Categories(p + [e]), FirstOccurrences(Categories(p));
    assert cs[..|cs| - 1] == Categories(p);
    assert np[j] == e.category;
    assert FirstOccurrences(cs) == np;
    var bumped := rp[j := CategoryEntry(e.category, rp[j].value + e.amount)];
    forall i | 0 <= i < |r| ensures r[i] == bumped[i] {
      SumForAppend(p, e, np[i]);
    }
  }

  /** One more expense of a new category appends an entry for it. */
  lemma FoldStepNew(p: seq<Expense>, e: Expense)
    requires forall k :: 0 <= k < |CategoryTotals(p)| ==> CategoryTotals(p)[k].name != e.category
    ensures CategoryTotals(p + [e]) == CategoryTotals(p) + [CategoryEntry(e.category, e.amount)]
  {
    var r, rp := CategoryTotals(p + [e]), CategoryTotals(p);
    var np := FirstOccurrences(Categories(p));
    assert Categories(p + [e]) == Categories(p) + [e.category];
    assert forall k :: 0 <= k < |np| ==> np[k] == rp[k].name;
    assert e.category !in np;
    forall n ensures SumFor(p + [e], n) == SumFor(p, n) + (if e.category == n then e.amount else 0) {
      SumForAppend(p, e, n);
    }
    SumForAbsent(p, e.category);
  }

  // ---------------------------------------------------------------------------
  // Category summary: sort by value, descending, then percentage of the total
  // ---------------------------------------------------------------------------

  ghost predicate NonIncreasing(entries: seq<CategoryEntry>) {
    forall i, j :: 0 <= i < j < |entries| ==> entries[i].value >= entries[j].value
  }

  /**
   * `categoryData.sort((a, b) => b.value - a.value)`, in place: an insertion
   * sort that leaves the entries in non-increasing value order.
   */
  method SortByValueDescending(a: array<CategoryEntry>)
    modifies a
    ensures NonIncreasing(a[..])
    ensures multiset(a[..]) == old(multiset(a[..]))
  {
    var i := 0;
    while i < a.Length
      invariant 0 <= i <= a.Length
      invariant forall k :: 0 < k < i ==> a[k - 1].value >= a[k].value
      invariant multiset(a[..]) == old(multiset(a[..]))
    {
      Sink(a, i);
      i := i + 1;
    }
    AdjacentOrderSorts(a[..]);
  }

  /** One insertion step: moves `a[i]` left past every smaller value. */
  method Sink(a: array<CategoryEntry>, i: nat)
    requires i < a.Length
    requires forall k :: 0 < k < i ==> a[k - 1].value >= a[k].value
    modifies a
    ensures forall k :: 0 < k <= i ==> a[k - 1].value >= a[k].value
    ensures multiset(a[..]) == old(multiset(a[..]))
  {
    var j := i;
    while j > 0 && a[j - 1].value < a[j].value
      invariant 0 <= j <= i
      invariant forall k :: 0 < k <= i && k != j && k != j + 1 ==> a[k - 1].value >= a[k].value
      invariant j < i ==> a[j].value > a[j + 1].value
      invariant 0 < j < i ==> a[j - 1].value >= a[j + 1].value
      invariant multiset(a[..]) == old(multiset(a[..]))
    {
      Swap(a, j - 1, j);
      j := j - 1;
    }
  }

  /** Order between neighbours gives order between any two entries. */
  lemma {:induction false} AdjacentOrderSorts(s: seq<CategoryEntry>)
    requires forall k :: 0 < k < |s| ==> s[k - 1].value >= s[k].value
    ensures NonIncreasing(s)
    decreases |s|
  {
    if |s| > 1 {
      var p := s[..|s| - 1];
      AdjacentOrderSorts(p);
      forall i, j | 0 <= i < j < |s| ensures s[i].value >= s[j].value {
        if j < |s| - 1 {
          assert p[i] == s[i] && p[j] == s[j];
        } else if i < j - 1 {
          assert p[i].value >= p[j - 1].value;
        }
      }
    }
  }

  /** Exchanges two entries of the array. */
  method Swap(a: array<CategoryEntry>, i: nat, j: nat)
    requires i < j < a.Length
    modifies a
    ensures a[i] == old(a[j]) && a[j] == old(a[i])
    ensures forall k :: 0 <= k < a.Length && k != i && k != j ==> a[k] == old(a[k])
    ensures multiset(a[..]) == old(multiset(a[..]))
  {
    ghost var s := a[..];
    SwapKeepsMultiset(s, i, j);
    a[i], a[j] := a[j], a[i];
    assert a[..] == s[i := s[j]][j := s[i]];
  }

  lemma SwapKeepsMultiset<T>(s: seq<T>, i: nat, j: nat)
    requires i < j < |s|
    ensures multiset(s[i := s[j]][j := s[i]]) == multiset(s)
  {
    var t := s[i := s[j]];
    assert multiset(t) == multiset(s) - multiset{s[i]} + multiset{s[j]};
    assert t[j] == s[j];
    assert multiset(t[j := s[i]]) == multiset(t) - multiset{s[j]} + multiset{s[i]};
  }

  /** A row of the category summary: name, value and share of the grand total in percent. */
  datatype SummaryRow = SummaryRow(name: string, value: int, percentage: Option<real>)

  /**
   * `value / total * 100`. JavaScript yields NaN or Infinity when the total
   * is zero; the model answers None there.
   */
  function Percentage(value: int, total: int): (p: Option<real>)
    ensures p.None? <==> total == 0
    ensures p.Some? ==> p.value * (total as real) == (value as real) * 100.0
  {
    if total == 0 then None else Some((value as real) / (total as real) * 100.0)
  }

  /**
   * One row per entry, in order, with its name, its value and its share of
   * the total in percent; no share is given when the total is 0.
   */
  function SummaryRows(entries: seq<CategoryEntry>, total: int): (rows: seq<SummaryRow>)
    ensures |rows| == |entries|
    ensures forall i :: 0 <= i < |rows| ==> (rows[i].percentage.None? <==> total == 0)
    ensures forall i :: 0 <= i < |rows| ==>
      (rows[i].percentage.Some? ==> rows[i].percentage.value * (total as real) == (entries[i].value as real) * 100.0)
    ensures forall i :: 0 <= i < |rows| ==>
      rows[i].name == entries[i].name && rows[i].value == entries[i].value
      && rows[i].percentage == Percentage(entries[i].value, total)
  {
    seq(|entries|, i requires 0 <= i < |entries| =>
      SummaryRow(entries[i].name, entries[i].value, Percentage(entries[i].value, total)))
  }

  function SumPercentages(rows: seq<SummaryRow>): real {
    if rows == [] then 0.0
    else SumPercentages(rows[..|rows| - 1]) + rows[|rows| - 1].percentage.GetOr(0.0)
  }

  lemma {:induction false} SumPercentagesScaled(entries: seq<CategoryEntry>, total: int)
    requires total != 0
    ensures SumPercentages(SummaryRows(entries, total)) * (total as real) == (SumValues(entries) as real) * 100.0
  {
    if entries != [] {
      var p := entries[..|entries| - 1];
      var rows := SummaryRows(entries, total);
      assert rows[..|rows| - 1] == SummaryRows(p, total);
      SumPercentagesScaled(p, total);
    }
  }

  /** With a non-zero total equal to the sum of the values, the percentages add up to 100. */
  lemma PercentagesSumTo100(entries: seq<CategoryEntry>, total: int)
    requires total != 0 && SumValues(entries) == total
    ensures SumPercentages(SummaryRows(entries, total)) == 100.0
  {
    SumPercentagesScaled(entries, total);
    WholeIsHundred(SumPercentages(SummaryRows(entries, total)), SumValues(entries) as real, total as real);
  }

  /** A scaled sum equal to the whole scaled by 100 is 100. */
  lemma WholeIsHundred(s: real, v: real, t: real)
    requires t != 0.0 && s * t == v * 100.0 && v == t
    ensures s == 100.0
  {
    assert s * t == 100.0 * t;
    CancelFactor(s, 100.0, t);
  }

  lemma CancelFactor(x: real, y: real, t: real)
    requires t != 0.0 && x * t == y * t
    ensures x == y
  {
    assert x == (x * t) / t;
    assert y == (y * t) / t;
  }

  /** The sum of the values does not depend on the order of the entries. */
  lemma {:induction false} SumValuesPermutation(a: seq<CategoryEntry>, b: seq<CategoryEntry>)
    requires multiset(a) == multiset(b)
    ensures SumValues(a) == SumValues(b)
    decreases |a|
  {
    if a == [] {
      assert |b| == |multiset(b)| == 0;
    } else {
      var x, p := a[|a| - 1], a[..|a| - 1];
      var k := MatchOfLast(a, b);
      SumValuesPermutation(p, b[..k] + b[k + 1..]);
      SumValuesRemoveAt(b, k);
      assert a == p + [x];
      SumValuesAppend(p, x);
    }
  }

  /** The last element of `a` sits at some index of its permutation `b`, and the rests are permutations. */
  lemma MatchOfLast<T>(a: seq<T>, b: seq<T>) returns (k: nat)
    requires a != [] && multiset(a) == multiset(b)
    ensures k < |b| && b[k] == a[|a| - 1]
    ensures multiset(a[..|a| - 1]) == multiset(b[..k] + b[k + 1..])
  {
    var x := a[|a| - 1];
    assert x in multiset(b);
    k :| 0 <= k < |b| && b[k] == x;
    MultisetRemoveLast(a);
    MultisetRemoveAt(b, k);
  }

  lemma MultisetRemoveAt<T>(b: seq<T>, k: nat)
    requires k < |b|
    ensures multiset(b[..k] + b[k + 1..]) == multiset(b) - multiset{b[k]}
  {
    var l, r := b[..k], b[k + 1..];
    assert b == (l + [b[k]]) + r;
  }

  lemma MultisetRemoveLast<T>(a: seq<T>)
    requires a != []
    ensures multiset(a[..|a| - 1]) == multiset(a) - multiset{a[|a| - 1]}
  {
    assert a == a[..|a| - 1] + [a[|a| - 1]];
  }

  lemma SumValuesRemoveAt(b: seq<CategoryEntry>, k: nat)
    requires k < |b|
    ensures SumValues(b) == SumValues(b[..k] + b[k + 1..]) + b[k].value
  {
    var l, h, r := b[..k], b[..k + 1], b[k + 1..];
    assert h == l + [b[k]];
    assert b == h + r;
    SumValuesConcat(h, r);
    SumValuesAppend(l, b[k]);
    SumValuesConcat(l, r);
  }

  lemma {:induction false} SumValuesConcat(a: seq<CategoryEntry>, b: seq<CategoryEntry>)
    ensures SumValues(a + b) == SumValues(a) + SumValues(b)
    decreases |b|
  {
    if b == [] {
      assert a + b == a;
    } else {
      assert (a + b)[..|a + b| - 1] == a + b[..|b| - 1];
      SumValuesConcat(a, b[..|b| - 1]);
    }
  }

  /**
   * The category summary of lines 149-174: the breakdown sorted by value,
   * descending, each entry with its percentage of the total of all amounts.
   */
  method CategorySummary(expenses: seq<Expense>) returns (rows: seq<SummaryRow>)
    ensures multiset(RowEntries(rows)) == multiset(CategoryTotals(expenses))
    ensures forall i :: 0 <= i < |rows| ==> rows[i].value == SumFor(expenses, rows[i].name)
    ensures forall i, j :: 0 <= i < j < |rows| ==> rows[i].value >= rows[j].value
    ensures forall i :: 0 <= i < |rows| ==> rows[i].percentage == Percentage(rows[i].value, Total(expenses))
    ensures Total(expenses) != 0 ==> SumPercentages(rows) == 100.0
    ensures |rows| == 0 <==> expenses == []
  {
    var data := CategoryData(expenses);
    var a := new CategoryEntry[|data|](i requires 0 <= i < |data| => data[i]);
    assert a[..] == data;
    SortByValueDescending(a);
    var sorted := a[..];
    var total := Total(expenses);
    rows := SummaryRows(sorted, total);
    assert RowEntries(rows) == sorted;
    CategoryTotalsMeaning(expenses);
    forall i | 0 <= i < |rows| ensures rows[i].value == SumFor(expenses, rows[i].name) {
      assert sorted[i] in multiset(data);
    }
    if total != 0 {
      CategoryTotalsSum(expenses);
      SumValuesPermutation(data, sorted);
      PercentagesSumTo100(sorted, total);
    }
  }

  function RowEntries(rows: seq<SummaryRow>): (entries: seq<CategoryEntry>)
    ensures |entries| == |rows|
    ensures forall i :: 0 <= i < |rows| ==> entries[i] == CategoryEntry(rows[i].name, rows[i].value)
  {
    seq(|rows|, i requires 0 <= i < |rows| => CategoryEntry(rows[i].name, rows[i].value))
  }

  // ---------------------------------------------------------------------------
  // Weekly trend of the current month
  // ---------------------------------------------------------------------------

  /** A bar of the weekly chart: the week's Sunday and the amount spent in it. */
  datatype WeekBucket = WeekBucket(weekStart: int, amount: int)

  /** date-fns `eachWeekOfInterval`: every 7th day from `first` up to and including `last`. */
  function WeekStarts(first: int, last: int): (ws: seq<int>)
    ensures first > last <==> ws == []
    decreases last - first
  {
    if first > last then [] else [first] + WeekStarts(first + 7, last)
  }

  /** The week starts run from `first` in steps of seven days, the last one within a week of `last`. */
  lemma {:induction false} WeekStartsShape(first: int, last: int)
    ensures var ws := WeekStarts(first, last);
      && (forall i :: 0 <= i < |ws| ==> ws[i] == first + 7 * i && ws[i] <= last)
      && (ws != [] ==> last < ws[|ws| - 1] + 7)
    decreases last - first
  {
    if first <= last {
      var ws, ws' := WeekStarts(first, last), WeekStarts(first + 7, last);
      assert ws == [first] + ws';
      WeekStartsShape(first + 7, last);
      forall i | 0 < i < |ws| ensures ws[i] == first + 7 * i && ws[i] <= last {
        assert ws[i] == ws'[i - 1];
      }
    }
  }

  /** The week starts of `now`'s month: from the Sunday of its first day to the Sunday of its last day. */
  function MonthWeeks(now: CivilDate): seq<int> {
    WeekStarts(StartOfWeek(StartOfMonth(now)), StartOfWeek(EndOfMonth(now)))
  }

  /** The expenses dated in the inclusive window [lo, hi], in input order. */
  function Between(es: seq<Expense>, lo: int, hi: int): (r: seq<Expense>) {
    if es == [] then []
    else
      var rest := Between(es[..|es| - 1], lo, hi);
      var e := es[|es| - 1];
      if lo <= DayNumber(e.date) <= hi then rest + [e] else rest
  }

  /** A single expense is kept exactly when it is dated in the window. */
  lemma BetweenSingle(e: Expense, lo: int, hi: int)
    ensures Between([e], lo, hi) == if lo <= DayNumber(e.date) <= hi then [e] else []
  {
    assert [e][..0] == [];
  }

  /** Filtering a joined list filters each part, keeping the order. */
  lemma {:induction false} BetweenAppend(a: seq<Expense>, b: seq<Expense>, lo: int, hi: int)
    ensures Between(a + b, lo, hi) == Between(a, lo, hi) + Between(b, lo, hi)
    decreases |b|
  {
    if b == [] {
      assert a + b == a;
    } else {
      var init := b[..|b| - 1];
      assert (a + b)[..|a + b| - 1] == a + init;
      BetweenAppend(a, init, lo, hi);
    }
  }

  /** `Between` keeps exactly the expenses dated in the window. */
  lemma {:induction false} BetweenMembers(es: seq<Expense>, lo: int, hi: int)
    ensures forall e :: e in Between(es, lo, hi) <==> e in es && lo <= DayNumber(e.date) <= hi
    ensures forall e :: multiset(Between(es, lo, hi))[e] == if lo <= DayNumber(e.date) <= hi then multiset(es)[e] else 0
  {
    if es != [] {
      assert es == es[..|es| - 1] + [es[|es| - 1]];
      BetweenMembers(es[..|es| - 1], lo, hi);
    }
  }

  /** Lines 42-50: the amount of the week whose start day is `weekStart` (days start .. start + 6). */
  function WeekTotal(es: seq<Expense>, weekStart: int): int {
    var s := StartOfWeek(weekStart);
    Total(Between(es, s, s + 6))
  }

  /** `weeks.map(weekStart => ({ week, amount }))`. */
  function Buckets(es: seq<Expense>, weeks: seq<int>): (r: seq<WeekBucket>)
    ensures |r| == |weeks|
    ensures forall i :: 0 <= i < |r| ==> r[i] == WeekBucket(weeks[i], WeekTotal(es, weeks[i]))
  {
    if weeks == [] then [] else [WeekBucket(weeks[0], WeekTotal(es, weeks[0]))] + Buckets(es, weeks[1..])
  }

  /** Lines 36-56: one bucket per week start of the month. */
  function WeeklyData(es: seq<Expense>, now: CivilDate): (r: seq<WeekBucket>)
    ensures |r| == |MonthWeeks(now)|
    ensures forall i :: 0 <= i < |r| ==> r[i].weekStart == MonthWeeks(now)[i]
  {
    Buckets(es, MonthWeeks(now))
  }

  /** For a Sunday, the window of lines 44-47 is that day and the six after it. */
  lemma WeekTotalOfSunday(es: seq<Expense>, ws: int)
    requires Weekday(ws) == 0
    ensures WeekTotal(es, ws) == Total(Between(es, ws, ws + 6))
  {
  }

  lemma WeekdayPeriodic(n: int, k: nat)
    ensures Weekday(n + 7 * k) == Weekday(n)
  {
    assert (n + 7 * k + 4) % 7 == (n + 4) % 7 by {
      assert n + 7 * k + 4 == (n + 4) + 7 * k;
    }
  }

  /**
   * The week starts of a valid month: every one a Sunday, seven days apart,
   * four to six of them, the first on or before the 1st and the last on or
   * before the last day, so that together their windows cover the month.
   */
  lemma MonthWeeksShape(now: CivilDate)
    requires ValidDate(now)
    ensures var ws := MonthWeeks(now);
      && 4 <= |ws| <= 6
      && (forall i :: 0 <= i < |ws| ==> Weekday(ws[i]) == 0)
      && (forall i :: 0 <= i < |ws| - 1 ==> ws[i + 1] == ws[i] + 7)
      && ws[0] <= StartOfMonth(now) < ws[0] + 7
      && ws[|ws| - 1] <= EndOfMonth(now) < ws[|ws| - 1] + 7
  {
    var ws := MonthWeeks(now);
    var first, last := StartOfWeek(StartOfMonth(now)), StartOfWeek(EndOfMonth(now));
    StartOfMonthNotAfter(now);
    WeekStartsShape(first, last);
    assert first <= last;
    forall i | 0 <= i < |ws| ensures Weekday(ws[i]) == 0 {
      WeekdayPeriodic(first, i);
    }
    var n := |ws|;
    WeekdayPeriodic(first, n - 1);
    assert ws[n - 1] == last by {
      assert ws[n - 1] <= last < ws[n - 1] + 7;
      assert Weekday(ws[n - 1]) == 0 == Weekday(last);
      WeekStartsUnique(ws[n - 1], last);
    }
    assert 7 * (n - 1) == last - first;
  }

  /** Two Sundays less than a week apart are the same day. */
  lemma WeekStartsUnique(a: int, b: int)
    requires Weekday(a) == 0 && Weekday(b) == 0 && a <= b < a + 7
    ensures a == b
  {
  }

  /** Every day of the month lies in the window of exactly one week. */
  lemma MonthCoveredOnce(now: CivilDate, d: int)
    requires ValidDate(now)
    requires StartOfMonth(now) <= d <= EndOfMonth(now)
    ensures var ws := MonthWeeks(now);
      exists i :: 0 <= i < |ws| && ws[i] <= d <= ws[i] + 6
    ensures var ws := MonthWeeks(now);
      forall i, j :: 0 <= i < |ws| && 0 <= j < |ws| && ws[i] <= d <= ws[i] + 6 && ws[j] <= d <= ws[j] + 6 ==> i == j
  {
    MonthWeeksShape(now);
    var ws := MonthWeeks(now);
    WeekStartsShape(StartOfWeek(StartOfMonth(now)), StartOfWeek(EndOfMonth(now)));
    var i := (d - ws[0]) / 7;
    assert 0 <= i < |ws|;
    assert ws[i] <= d <= ws[i] + 6;
  }

  /** With no expenses, every week is still present, with amount 0. */
  lemma WeeklyDataEmpty(now: CivilDate)
    ensures var r := WeeklyData([], now);
      |r| == |MonthWeeks(now)| && forall i :: 0 <= i < |r| ==> r[i].amount == 0
  {
  }

  /** Lines 122 and 140: the weekly series is never empty, so its "no data" message never shows. */
  lemma WeeklyDataNeverEmpty(es: seq<Expense>, now: CivilDate)
    requires ValidDate(now)
    ensures |WeeklyData(es, now)| >= 4
  {
    MonthWeeksShape(now);
  }

  /** A bucket's amount is the sum of the expenses dated within its seven days. */
  lemma WeekBucketMeaning(es: seq<Expense>, now: CivilDate, i: nat)
    requires ValidDate(now) && i < |WeeklyData(es, now)|
    ensures var b := WeeklyData(es, now)[i];
      b.amount == Total(Between(es, b.weekStart, b.weekStart + 6))
  {
    MonthWeeksShape(now);
    var ws := MonthWeeks(now);
    assert WeeklyData(es, now)[i] == WeekBucket(ws[i], WeekTotal(es, ws[i]));
    WeekTotalOfSunday(es, ws[i]);
  }

  lemma {:induction false} BetweenSplit(es: seq<Expense>, lo: int, mid: int, hi: int)
    requires lo <= mid + 1 <= hi + 1
    ensures Total(Between(es, lo, mid)) + Total(Between(es, mid + 1, hi)) == Total(Between(es, lo, hi))
  {
    if es != [] {
      var p := es[..|es| - 1];
      BetweenSplit(p, lo, mid, hi);
      var e := es[|es| - 1];
      TotalAppend(Between(p, lo, mid), [e]);
      TotalAppend(Between(p, mid + 1, hi), [e]);
      TotalAppend(Between(p, lo, hi), [e]);
      assert [e][..0] == [];
    }
  }

  function SumBuckets(r: seq<WeekBucket>): int {
    if r == [] then 0 else r[0].amount + SumBuckets(r[1..])
  }

  lemma SumBucketsStep(es: seq<Expense>, first: int, ws: seq<int>, ws': seq<int>, last: int)
    requires ws == [first] + ws' && ws' != [] && last == ws'[|ws'| - 1] && first + 7 <= last + 6
    requires Weekday(first) == 0
    requires SumBuckets(Buckets(es, ws')) == Total(Between(es, first + 7, last + 6))
    ensures SumBuckets(Buckets(es, ws)) == Total(Between(es, first, last + 6))
  {
    WeekTotalOfSunday(es, first);
    assert Buckets(es, ws)[1..] == Buckets(es, ws');
    BetweenSplit(es, first, first + 6, last + 6);
  }

  lemma SumWeekTotalsStep(es: seq<Expense>, first: int, last: int)
    requires first + 7 <= last && Weekday(first) == 0
    requires var ws' := WeekStarts(first + 7, last);
      SumBuckets(Buckets(es, ws')) == Total(Between(es, first + 7, ws'[|ws'| - 1] + 6))
    ensures var ws := WeekStarts(first, last);
      SumBuckets(Buckets(es, ws)) == Total(Between(es, first, ws[|ws| - 1] + 6))
  {
    var ws, ws' := WeekStarts(first, last), WeekStarts(first + 7, last);
    WeekStartsCons(first, last);
    SumBucketsStep(es, first, ws, ws', ws'[|ws'| - 1]);
  }

  /** The week starts from `first` are `first` followed by those a week later, ending at the same week. */
  lemma WeekStartsCons(first: int, last: int)
    requires first + 7 <= last
    ensures var ws, ws' := WeekStarts(first, last), WeekStarts(first + 7, last);
      ws == [first] + ws' && ws' != [] && ws[|ws| - 1] == ws'[|ws'| - 1] && first + 7 <= ws'[|ws'| - 1]
  {
    var ws, ws' := WeekStarts(first, last), WeekStarts(first + 7, last);
    assert ws == [first] + ws';
    WeekStartsShape(first + 7, last);
    assert ws'[|ws'| - 1] >= ws'[0];
  }

  lemma SumWeekTotalsLast(es: seq<Expense>, first: int, last: int)
    requires first <= last < first + 7 && Weekday(first) == 0
    ensures var ws := WeekStarts(first, last);
      SumBuckets(Buckets(es, ws)) == Total(Between(es, first, ws[|ws| - 1] + 6))
  {
    assert WeekStarts(first, last) == [first];
    WeekTotalOfSunday(es, first);
  }

  lemma {:induction false} SumWeekTotals(es: seq<Expense>, first: int, last: int)
    requires first <= last && Weekday(first) == 0
    ensures var ws := WeekStarts(first, last);
      SumBuckets(Buckets(es, ws)) == Total(Between(es, first, ws[|ws| - 1] + 6))
    decreases last - first
  {
    if first + 7 <= last {
      WeekdayPeriodic(first, 1);
      SumWeekTotals(es, first + 7, last);
      SumWeekTotalsStep(es, first, last);
    } else {
      SumWeekTotalsLast(es, first, last);
    }
  }

  /**
   * No expense is counted twice: the buckets add up to the total of the
   * expenses dated from the first week start to the end of the last week.
   */
  lemma WeeklyDataSum(es: seq<Expense>, now: CivilDate)
    requires ValidDate(now)
    ensures var ws := MonthWeeks(now);
      SumBuckets(WeeklyData(es, now)) == Total(Between(es, ws[0], ws[|ws| - 1] + 6))
  {
    var first, last := StartOfWeek(StartOfMonth(now)), StartOfWeek(EndOfMonth(now));
    FirstWeekNotAfterLast(now);
    SumWeekTotals(es, first, last);
  }

  /** The first week start of a month is a Sunday no later than the last week start. */
  lemma FirstWeekNotAfterLast(now: CivilDate)
    requires ValidDate(now)
    ensures StartOfWeek(StartOfMonth(now)) <= StartOfWeek(EndOfMonth(now))
    ensures Weekday(StartOfWeek(StartOfMonth(now))) == 0
  {
    StartOfMonthNotAfter(now);
    StartOfWeekMonotone(StartOfMonth(now), EndOfMonth(now));
  }
}
