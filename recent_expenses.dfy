/** The list of recent expenses on the dashboard: which rows it shows and how it colours their category. */
module RecentExpenses {
  import opened Records

  const RecentCount: nat := 10

  /** `expenses.slice(0, 10)`. */
  function Recent(es: seq<Expense>): (r: seq<Expense>)
    ensures |r| == if |es| < RecentCount then |es| else RecentCount
    ensures r == es[..|r|]
  {
    if |es| <= RecentCount then es else es[..RecentCount]
  }

  /** The badge colour of the seven categories, in the order of `CategoryNames`. */
  const ColorNames: seq<string> := ["red", "blue", "purple", "pink", "yellow", "green", "gray"]

  /** The classes of a badge in one colour, e.g. "bg-red-100 text-red-800 dark:bg-red-900/50 dark:text-red-300". */
  function BadgeClasses(color: string): string {
    "bg-" + color + "-100 text-" + color + "-800 dark:bg-" + color + "-900/50 dark:text-" + color + "-300"
  }

  /** The classes of the badge of the `i`-th category. */
  function Badge(i: nat): string
    requires i < |ColorNames|
  {
    BadgeClasses(ColorNames[i])
  }

  /** The classes of "Other", the fallback. */
  function OtherColor(): string {
    Badge(6)
  }

  /** The position of `name` in `names`, or `|names|` when it is absent. */
  function FindName(names: seq<string>, name: string): (i: nat)
    ensures i <= |names|
    ensures i < |names| ==> names[i] == name
    ensures forall j :: 0 <= j < i ==> names[j] != name
  {
    if names == [] then 0
    else if names[0] == name then 0
    else 1 + FindName(names[1..], name)
  }

  /** `colors[category] || colors['Other']`: the record looked up by name, with the "Other" classes as fallback. */
  function CategoryColor(category: string): (classes: string)
    ensures category !in CategoryNames ==> classes == OtherColor()
    ensures forall i :: 0 <= i < |CategoryNames| && CategoryNames[i] == category ==> classes == Badge(i)
  {
    var i := FindName(CategoryNames, category);
    CategoryNamesDistinct();
    if i < |CategoryNames| then Badge(i) else OtherColor()
  }

  lemma BadgeClassesSixth(color: string)
    requires |color| >= 3
    ensures BadgeClasses(color)[5] == color[2]
  {
    var rest := "-100 text-" + color + "-800 dark:bg-" + color + "-900/50 dark:text-" + color + "-300";
    assert BadgeClasses(color) == ("bg-" + color) + rest;
  }

  /** The sixth character of the seven badges spells "durnlea". */
  lemma BadgeSixth(i: nat)
    requires i < |ColorNames|
    ensures Badge(i)[5] == "durnlea"[i]
  {
    var c := ColorNames[i];
    assert |c| >= 3 && c[2] == "durnlea"[i];
    BadgeClassesSixth(c);
  }

  /** The seven categories get seven different badges (their sixth characters already differ). */
  lemma ColorsDistinct(i: nat, j: nat)
    requires i < |CategoryNames| && j < |CategoryNames|
    ensures Badge(i) == Badge(j) <==> i == j
  {
    if i != j {
      BadgeSixth(i);
      BadgeSixth(j);
      assert Badge(i)[5] != Badge(j)[5];
    }
  }

  /** The export button is shown only for a non-empty list. */
  predicate ShowExportButton(es: seq<Expense>) {
    |es| > 0
  }

  /** The empty-state message replaces the rows exactly when nothing is listed. */
  predicate ShowEmptyState(es: seq<Expense>) {
    |Recent(es)| == 0
  }

  lemma EmptyStateMeaning(es: seq<Expense>)
    ensures ShowEmptyState(es) <==> es == []
    ensures ShowEmptyState(es) <==> !ShowExportButton(es)
  {
  }

  /** Only the ten most recent are listed; the rest of the list is exactly what is cut. */
  lemma RecentSplit(es: seq<Expense>)
    ensures Recent(es) + es[|Recent(es)|..] == es
    ensures |es| > RecentCount ==> |Recent(es)| == RecentCount
  {
  }
}
