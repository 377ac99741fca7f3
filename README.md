# Budget Buddy in Dafny

Budget Buddy is a personal expense tracker. A signed-in user records expenses, each with an amount, a category, a description and a date. The user sets one monthly budget and watches their spending on a dashboard and on charts.

This project models the logic under the user interface and proves properties of it:

- **Aggregation** (pure):
  - the dashboard's today, week and month totals;
  - the budget card's status: remaining amount, percentage used, the over-budget and near-limit alerts, and the progress-bar width;
  - the category totals of the pie chart and the sorted category summary with percentages;
  - the weekly bars of the current month;
  - the recent-expenses list and its category badges.
- **Text codecs** (pure):
  - the voice-transcript parser, which guesses an amount and a category;
  - the CSV export text.
- **State** (imperative). Each of these is a class whose methods update fields:
  - the budget hook over local storage;
  - the expenses hook over the remote table;
  - the local authentication context, with its user registry and session;
  - the budget card's small editor.

Conventions:

- Money is held in integer cents.
- Percentages are `real`.
- Dates are civil dates `(year, month, day)`. They are compared through a day number counted from 1970-01-01, with weeks starting on Sunday.
- "Now" is a parameter.
- Each local-storage key the hooks use becomes a typed `map` field holding the decoded values.
- Remote calls and clocks become parameters: the table's response, `Date.now()` ids, ISO timestamps, whether a storage write succeeded, and the value `parseFloat` returns.

How a stateful operation is modelled:

- A class method's `ensures` ties the new state, and the result, to a pure transition function of the old state. Examples are `SetSpec`, `AddSpec` and `SignInSpec`.
- The source's promises are proved as lemmas about those transition functions.

Three behaviours of the code are easy to miss, and the model keeps them as written:

- `useBudget.setBudgetLimit` performs no range check on the limit. Only the budget card refuses a negative limit.
- `setBudgetLimit` sets the `budget` state before it writes to storage. A failed write therefore still changes what the card shows.
- No modelled code checks that an expense amount is positive.

## Model

| member | source | states |
|---|---|---|
| Records.CategoryNamesDistinct | src/components/AddExpense/ExpenseForm.tsx:15-23 | No category name is listed twice |
| Records.CategoryNameBijective | src/components/AddExpense/ExpenseForm.tsx:15-23 | The seven category names and the seven categories correspond one to one |
| Records.TotalAppend | project/src/components/Dashboard/StatsCards.tsx:28-30 | `Total`, the summed amount: the total of two lists joined is the sum of their totals |
| Records.TotalNonNegative | project/src/components/Dashboard/StatsCards.tsx:28-30 | Non-negative amounts give a non-negative total |
| Records.OnOrAfter | project/src/components/Dashboard/StatsCards.tsx:16-26 | The filter keeps exactly the expenses dated on or after the bound, and never lengthens the list; multiplicity and order are stated by the three lemmas after it |
| Records.OnOrAfterCounts | project/src/components/Dashboard/StatsCards.tsx:16-26 | Each expense dated on or after the bound is kept as many times as the input holds it, and no other is kept |
| Records.OnOrAfterSingle | project/src/components/Dashboard/StatsCards.tsx:16-26 | One expense is kept exactly when it is dated on or after the bound |
| Records.OnOrAfterAppend | project/src/components/Dashboard/StatsCards.tsx:16-26 | Filtering two joined lists is joining their filtered parts; with the single case this fixes the result, order and duplicates included |
| Calendar.DaysInMonth | project/src/components/Dashboard/StatsCards.tsx:14 | Every month has 28 to 31 days |
| Calendar.Weekday | project/src/components/Dashboard/StatsCards.tsx:13 | A weekday is one of seven values |
| Calendar.StartOfWeek | project/src/components/Dashboard/StatsCards.tsx:13 | `startOfWeek` is a Sunday, at most six days before the given day |
| Calendar.DayNumberWithinMonth | project/src/components/Dashboard/StatsCards.tsx:14 | A date's day number is the first of its month plus its day minus one |
| Calendar.StartOfMonthNotAfter | src/components/Analytics/ExpenseCharts.tsx:37-38 | A valid date lies between the start and the end of its month, and the month spans as many days as it has |
| Calendar.MonthsAdjoin | src/components/Analytics/ExpenseCharts.tsx:37-38 | The day after a month's last day is the first of the next month, December to January included |
| Calendar.FebruaryLength | src/components/Analytics/ExpenseCharts.tsx:37-38 | The first of March falls 29 days after the first of February in a leap year of the Gregorian rule, 28 days otherwise |
| Calendar.StartOfWeekIdempotent | src/components/Analytics/ExpenseCharts.tsx:44 | Taking `startOfWeek` of a week start changes nothing |
| Calendar.StartOfWeekMonotone | project/src/components/Dashboard/StatsCards.tsx:13 | Later days never have earlier week starts |
| Calendar.EpochIsThursday | project/src/components/Dashboard/StatsCards.tsx:13 | 1970-01-01 is day 0 and a Thursday, which anchors the Sunday week start |
| StatsCards.ComputeStats | project/src/components/Dashboard/StatsCards.tsx:11-30 | With no expenses, all three cards show 0 and 0 transactions |
| StatsCards.CountLabel | project/src/components/Dashboard/StatsCards.tsx:70 | The caption says "transaction" exactly for a count of 1, and "transactions" otherwise |
| StatsCards.PeriodMonotone | project/src/components/Dashboard/StatsCards.tsx:16-30 | `Period`, one card's figures: a later lower bound keeps no more expenses, and with non-negative amounts no larger a total |
| StatsCards.PeriodStartsNotAfterToday | project/src/components/Dashboard/StatsCards.tsx:12-14 | The week and month periods start no later than today |
| StatsCards.TodayCountedInWeekAndMonth | project/src/components/Dashboard/StatsCards.tsx:16-26 | An expense counted for today is also counted for the week and the month |
| StatsCards.TodayBoundedByWeekAndMonth | project/src/components/Dashboard/StatsCards.tsx:28-55 | Today has no more transactions than the week or the month, and with non-negative amounts no larger a total |
| ExpenseCharts.FirstOccurrences | src/components/Analytics/ExpenseCharts.tsx:22-33 | The distinct categories present, each once |
| ExpenseCharts.FirstOccurrencesOrdered | src/components/Analytics/ExpenseCharts.tsx:22-33 | The categories are listed in order of their first appearance in the input |
| ExpenseCharts.CategoryTotals | src/components/Analytics/ExpenseCharts.tsx:22-92 | The category list is empty exactly when there are no expenses |
| ExpenseCharts.CategoryTotalsMeaning | src/components/Analytics/ExpenseCharts.tsx:22-33 | One entry per distinct category present, in first-appearance order, each valued at the sum of that category's amounts |
| ExpenseCharts.CategoryTotalsSum | src/components/Analytics/ExpenseCharts.tsx:22-33 | The category values add up to the total of all amounts |
| ExpenseCharts.FoldStepFound | src/components/Analytics/ExpenseCharts.tsx:23-25 | A further expense of a category already present adds its amount to that entry alone |
| ExpenseCharts.FoldStepNew | src/components/Analytics/ExpenseCharts.tsx:26-31 | A further expense of a new category appends an entry with its amount |
| ExpenseCharts.CategoryData | src/components/Analytics/ExpenseCharts.tsx:22-33 | The reduce loop, with its `find`, computes exactly the category totals |
| ExpenseCharts.SortByValueDescending | src/components/Analytics/ExpenseCharts.tsx:151-152 | After the sort the entries are in non-increasing value order and a permutation of the input |
| ExpenseCharts.Percentage | src/components/Analytics/ExpenseCharts.tsx:154 | The percentage is value / total × 100; it is undefined exactly when the total is 0 |
| ExpenseCharts.SummaryRows | src/components/Analytics/ExpenseCharts.tsx:153-154 | One row per entry, in order. A row has no percentage exactly when the total is 0; otherwise its percentage times the total is its value times 100 |
| ExpenseCharts.SumPercentagesScaled | src/components/Analytics/ExpenseCharts.tsx:154 | The percentages times the total equal the values' sum times 100 |
| ExpenseCharts.PercentagesSumTo100 | src/components/Analytics/ExpenseCharts.tsx:154 | With a non-zero total the percentages add up to 100 |
| ExpenseCharts.SumValuesPermutation | src/components/Analytics/ExpenseCharts.tsx:151-152 | Reordering the entries does not change their sum |
| ExpenseCharts.CategorySummary | src/components/Analytics/ExpenseCharts.tsx:149-154 | The summary rows: a permutation of the category totals, sorted by value, descending; each with its category sum and percentage; percentages summing to 100 when the total is not 0; no rows exactly when there are no expenses |
| ExpenseCharts.AdjacentOrderSorts | src/components/Analytics/ExpenseCharts.tsx:151-152 | Entries ordered between neighbours are ordered throughout |
| ExpenseCharts.WeekStarts | src/components/Analytics/ExpenseCharts.tsx:39 | No weeks exactly when the interval is empty |
| ExpenseCharts.WeekStartsShape | src/components/Analytics/ExpenseCharts.tsx:39 | The week starts go from the first Sunday in steps of seven days; the last one lies within a week of the interval's end |
| ExpenseCharts.BetweenMembers | src/components/Analytics/ExpenseCharts.tsx:42-48 | `Between`, the week filter, keeps exactly the expenses dated in the window, each as many times as the input holds it; the order is stated by the two lemmas after it |
| ExpenseCharts.BetweenSingle | src/components/Analytics/ExpenseCharts.tsx:42-48 | One expense is kept exactly when it is dated in the window |
| ExpenseCharts.BetweenAppend | src/components/Analytics/ExpenseCharts.tsx:42-48 | Filtering two joined lists is joining their filtered parts; with the single case this fixes the result, order included |
| ExpenseCharts.Buckets | src/components/Analytics/ExpenseCharts.tsx:41-56 | One bucket per week start, in order, holding that week's total |
| ExpenseCharts.WeeklyData | src/components/Analytics/ExpenseCharts.tsx:36-56 | The weekly series has one entry per week start of the month, whether or not it holds an expense |
| ExpenseCharts.WeekTotalOfSunday | src/components/Analytics/ExpenseCharts.tsx:44-50 | `WeekTotal` of a Sunday is the total of the expenses dated that day or in the six following ones |
| ExpenseCharts.MonthWeeksShape | src/components/Analytics/ExpenseCharts.tsx:37-39 | `MonthWeeks`, the week starts of a month: a month has 4 to 6 week starts. They are Sundays seven days apart. The first lies within a week before the first of the month, and the last within a week before its last day |
| ExpenseCharts.WeekStartsUnique | src/components/Analytics/ExpenseCharts.tsx:39-44 | Two Sundays less than a week apart are the same day |
| ExpenseCharts.MonthCoveredOnce | src/components/Analytics/ExpenseCharts.tsx:39-48 | Every day of the month falls in exactly one week's window |
| ExpenseCharts.WeeklyDataEmpty | src/components/Analytics/ExpenseCharts.tsx:41-56 | With no expenses every week is present with amount 0 |
| ExpenseCharts.WeeklyDataNeverEmpty | src/components/Analytics/ExpenseCharts.tsx:39-56 | The weekly series has at least four entries |
| ExpenseCharts.WeekBucketMeaning | src/components/Analytics/ExpenseCharts.tsx:42-50 | A bucket's amount is the sum over the expenses dated within its seven days |
| ExpenseCharts.BetweenSplit | src/components/Analytics/ExpenseCharts.tsx:42-50 | Adjacent windows' totals add up to the joined window's total |
| ExpenseCharts.WeeklyDataSum | src/components/Analytics/ExpenseCharts.tsx:39-56 | The bars add up to the total spent from the first week start to the last week's Saturday |
| BudgetOverview.ComputeStatus | src/components/Dashboard/BudgetOverview.tsx:23-27 | The status: remaining is limit minus spent; with no positive limit the percentage is 0; over budget exactly when spent exceeds the limit; near the limit exactly when over 80 percent and not over |
| BudgetOverview.ProgressWidth | src/components/Dashboard/BudgetOverview.tsx:185 | The bar's width is the percentage capped at 100, never above 100 |
| BudgetOverview.CardStatusMeaning | src/components/Dashboard/BudgetOverview.tsx:16-27 | `CardStatus`, with `BudgetLimit` and `MonthlySpent`: remaining is the limit, 0 without a budget, less this month's spending; over budget exactly when that spending exceeds the limit; without a budget the percentage is 0 and the near alert never shows |
| BudgetOverview.MonthlySpentIsMonthStat | src/components/Dashboard/BudgetOverview.tsx:16-20 | `MonthlySpent`, the card's spending of the month, is the month total of the stats cards |
| BudgetOverview.AlertsExclusive | src/components/Dashboard/BudgetOverview.tsx:26-27 | The over-budget and near-limit alerts are never both shown |
| BudgetOverview.PercentageAbove | src/components/Dashboard/BudgetOverview.tsx:24 | `PercentageUsed`: with a positive limit, the percentage exceeds a bound b exactly when spent × 100 exceeds b × limit |
| BudgetOverview.PercentageMeaning | src/components/Dashboard/BudgetOverview.tsx:24-27 | `PercentageUsed` with a positive limit: over 100 percent exactly when over budget; near the limit exactly when 80 percent < spent / limit ≤ 100 percent |
| BudgetOverview.NoLimitCases | src/components/Dashboard/BudgetOverview.tsx:22-27 | With no limit the percentage is 0, any positive spending is over budget, and the near alert never shows |
| BudgetOverview.NearExample | src/components/Dashboard/BudgetOverview.tsx:23-27 | Limit 100.00 with 90.00 spent: 10.00 remaining, 90 percent, near the limit |
| BudgetOverview.OverExample | src/components/Dashboard/BudgetOverview.tsx:23-27 | Limit 100.00 with 110.00 spent: remaining −10.00, over budget |
| BudgetOverview.NormalExample | src/components/Dashboard/BudgetOverview.tsx:23-27 | Limit 100.00 with 50.00 spent: neither alert |
| BudgetOverview.ViewOf | src/components/Dashboard/BudgetOverview.tsx:55-92 | The "Set Budget" prompt shows exactly when there is no budget and the editor is closed; the editor shows exactly while editing |
| BudgetOverview.BudgetEditor.constructor | src/components/Dashboard/BudgetOverview.tsx:13-14 | The editor starts closed with empty text |
| BudgetOverview.BudgetEditor.OpenFromPrompt | src/components/Dashboard/BudgetOverview.tsx:65 | The prompt's button opens the editor and changes nothing else |
| BudgetOverview.BudgetEditor.OpenWithLimit | src/components/Dashboard/BudgetOverview.tsx:81-84 | The edit button opens the editor filled with the current limit's text |
| BudgetOverview.BudgetEditor.Type | src/components/Dashboard/BudgetOverview.tsx:101 | Typing replaces the text only |
| BudgetOverview.BudgetEditor.Cancel | src/components/Dashboard/BudgetOverview.tsx:50-53 | Cancelling closes the editor and clears the text |
| BudgetOverview.BudgetEditor.Save | src/components/Dashboard/BudgetOverview.tsx:29-40 | Saving updates the editor and the budget store as `SaveSpec` says |
| BudgetOverview.SaveGuard | src/components/Dashboard/BudgetOverview.tsx:30-33 | `SaveSpec`, the editor's save: empty text, an unparsable number or a negative limit leave the editor and the budget untouched |
| BudgetOverview.SaveClosesOnlyOnSuccess | src/components/Dashboard/BudgetOverview.tsx:33-38 | The editor closes exactly when a non-negative limit was saved for a signed-in user with a working storage; the stored and shown limit is then the value `parseFloat` returned for the text |
| BudgetOverview.SaveAcceptsZero | src/components/Dashboard/BudgetOverview.tsx:33 | A zero limit is accepted and closes the editor |
| BudgetHook.StorageKeysSeparate | src/hooks/useBudget.ts:17 | `StorageKey`, "budget-buddy-budget-" and the user id: two users share a key exactly when they are the same user, and no budget key is one of the authentication keys |
| BudgetHook.BudgetStore.constructor | src/hooks/useBudget.ts:13-14 | The hook starts with no budget and loading |
| BudgetHook.BudgetStore.FetchBudget | src/hooks/useBudget.ts:19-32 | A fetch updates the state as `FetchSpec` says |
| BudgetHook.BudgetStore.SetBudgetLimit | src/hooks/useBudget.ts:34-57 | A save updates the state, and returns the result, as `SetSpec` says |
| BudgetHook.SetWithoutUser | src/hooks/useBudget.ts:35 | Without a user the save fails with "User not authenticated" and changes nothing |
| BudgetHook.SetCreatesOrKeepsIdentity | src/hooks/useBudget.ts:38-47 | The first save creates a record with the fresh id, the user's id and created = updated = now. A later save keeps id and created time and replaces the owner, the limit and the update time |
| BudgetHook.SetHasNoRangeCheck | src/hooks/useBudget.ts:34-52 | Any limit, negative ones included, is saved if a user is signed in and the write works |
| BudgetHook.SetThenFetch | src/hooks/useBudget.ts:24-50 | After a successful save the next fetch returns exactly the record written |
| BudgetHook.SetTouchesOnlyOwnKey | src/hooks/useBudget.ts:49-50 | A save changes no other key of the storage |
| BudgetHook.FailedWriteIsUndoneByFetch | src/hooks/useBudget.ts:47-56 | A failed write leaves storage as it was, so the next fetch shows the stored record again |
| BudgetHook.FetchCases | src/hooks/useBudget.ts:20-30 | A fetch without a user changes nothing. A fetch with no stored key yields no budget and ends loading |
| ExpensesHook.ExpenseList.constructor | src/hooks/useExpenses.ts:6-7 | The list starts empty and loading |
| ExpensesHook.ExpenseList.FetchExpenses | src/hooks/useExpenses.ts:10-27 | A fetch updates the state as `FetchSpec` says |
| ExpensesHook.ExpenseList.AddExpense | src/hooks/useExpenses.ts:29-46 | An add updates the state and returns as `AddSpec` says. It sends the input with the user's id, or sends nothing without a user |
| ExpensesHook.ExpenseList.DeleteExpense | src/hooks/useExpenses.ts:48-62 | A delete updates the state and returns as `DeleteSpec` says |
| ExpensesHook.WithoutMembers | src/hooks/useExpenses.ts:56 | `Without`, the list filter of a delete: after a delete no expense has the id, and every expense with another id remains |
| ExpensesHook.WithoutAppend | src/hooks/useExpenses.ts:56 | The filter splits over concatenation, so the kept expenses stay in their order |
| ExpensesHook.WithoutAbsent | src/hooks/useExpenses.ts:56 | Deleting an id nobody has changes nothing |
| ExpensesHook.WithoutIdempotent | src/hooks/useExpenses.ts:56 | Deleting twice is deleting once |
| ExpensesHook.WithoutLength | src/hooks/useExpenses.ts:56 | The list shrinks by the number of expenses that had the id |
| ExpensesHook.FetchCases | src/hooks/useExpenses.ts:11-26 | A fetch without a user changes nothing. With a user, the rows replace the list, `null` empties it, an error keeps it, and loading ends |
| ExpensesHook.AddCases | src/hooks/useExpenses.ts:30-45 | An add succeeds exactly with a user and a stored row, and the list is then the row followed by the old list. Otherwise nothing changes; without a user, nothing is returned |
| ExpensesHook.DeleteCases | src/hooks/useExpenses.ts:50-61 | A failed delete changes nothing and reports failure; a successful delete of an unknown id changes nothing |
| ExpensesHook.AddThenDelete | src/hooks/useExpenses.ts:40-56 | Adding a row with a new id and then deleting it restores the list |
| AuthContext.AuthProvider.constructor | src/contexts/AuthContext.tsx:19-20 | The provider starts with no user and loading, over what storage holds |
| AuthContext.AuthProvider.Load | src/contexts/AuthContext.tsx:22-29 | Loading updates the state as `LoadSpec` says |
| AuthContext.AuthProvider.SignUp | src/contexts/AuthContext.tsx:31-61 | Signing up updates the state and returns as `SignUpSpec` says. Its registry lookup finds registered emails only, the corrected lookup of the finding below; `SignUpAsWritten` is the lookup as written |
| AuthContext.AuthProvider.SignIn | src/contexts/AuthContext.tsx:63-90 | Signing in updates the state and returns as `SignInSpec` says. Its registry lookup finds registered emails only, the corrected lookup of the finding below; `SignInAsWritten` is the lookup as written |
| AuthContext.AuthProvider.SignOut | src/contexts/AuthContext.tsx:92-95 | Signing out clears the user and the saved session |
| AuthContext.LoadEstablishes | src/contexts/AuthContext.tsx:22-29 | Loading from a well-formed storage gives a consistent state |
| AuthContext.SignUpPreserves | src/contexts/AuthContext.tsx:31-61 | Signing up keeps the state consistent. Every user stays under its own email, the session stays a registered user, and the session in memory equals the saved one |
| AuthContext.SignInPreserves | src/contexts/AuthContext.tsx:63-90 | Signing in keeps the state consistent |
| AuthContext.SignOutPreserves | src/contexts/AuthContext.tsx:92-95 | Signing out keeps the state consistent |
| AuthContext.SignUpExisting | src/contexts/AuthContext.tsx:37-39 | A registered email is refused with "User already exists", with registry and session unchanged |
| AuthContext.SignUpNew | src/contexts/AuthContext.tsx:42-57 | A new email is stored as {id, email, password} and becomes the session {id, email}, saved and in memory |
| AuthContext.SignInUnregistered | src/contexts/AuthContext.tsx:71-74 | Signing in with an unknown email is signing up |
| AuthContext.SignInWrongPassword | src/contexts/AuthContext.tsx:77-79 | A wrong password is refused with "Invalid password" and nothing changes |
| AuthContext.SignInCorrect | src/contexts/AuthContext.tsx:81-86 | The right password gives the stored id and email as the session, registry unchanged |
| AuthContext.RegistryOnlyGrows | src/contexts/AuthContext.tsx:37-79 | No sign-up or sign-in removes or changes a registered user |
| AuthContext.SignUpThenSignIn | src/contexts/AuthContext.tsx:49-86 | After signing up, signing in with the same credentials gives the same user |
| AuthContext.SignOutThenLoad | src/contexts/AuthContext.tsx:24-95 | After signing out, also right after any sign-in, the next load restores no user and the registry is kept |
| AuthContext.LookupAsWritten | src/contexts/AuthContext.tsx:37-69 | The registry lookup as written finds a registered user, an inherited object property, or nothing |
| AuthContext.InheritedNameLockedOut | src/contexts/AuthContext.tsx:37-79 | As written, the name "toString" can neither register nor sign in, while the corrected model signs it up |
| AuthContext.AsWrittenAgreesOffInherited | src/contexts/AuthContext.tsx:31-90 | For every other name the code as written and the model agree |
| RecentExpenses.Recent | src/components/Dashboard/RecentExpenses.tsx:13 | The list shown is the first min(10, n) expenses, in the given order |
| RecentExpenses.RecentSplit | src/components/Dashboard/RecentExpenses.tsx:13 | What is shown followed by what is cut is the whole list |
| RecentExpenses.FindName | src/components/Dashboard/RecentExpenses.tsx:25 | The lookup finds the first position of the name, or reports it absent |
| RecentExpenses.CategoryColor | src/components/Dashboard/RecentExpenses.tsx:15-26 | A known category gets its own classes; any other name gets the "Other" classes |
| RecentExpenses.BadgeClassesSixth | src/components/Dashboard/RecentExpenses.tsx:17-23 | The sixth character of a badge's classes is the third letter of its colour |
| RecentExpenses.BadgeSixth | src/components/Dashboard/RecentExpenses.tsx:17-23 | The sixth characters of the seven badges are d, u, r, n, l, e, a |
| RecentExpenses.ColorsDistinct | src/components/Dashboard/RecentExpenses.tsx:16-25 | The seven categories get seven different badges |
| RecentExpenses.EmptyStateMeaning | src/components/Dashboard/RecentExpenses.tsx:32-46 | The empty-state message shows exactly for an empty list, which is exactly when the export button is hidden |
| VoiceInput.FirstDigit | src/hooks/useVoiceInput.ts:54 | The first digit at or after a position, or the end |
| VoiceInput.DigitRunEnd | src/hooks/useVoiceInput.ts:54 | `\d+` is greedy: the run ends at the first non-digit |
| VoiceInput.FractionLength | src/hooks/useVoiceInput.ts:54 | `(?:\.\d{1,2})?` takes '.' and two digits if there are two, one if there is one, nothing otherwise |
| VoiceInput.WholePart | src/hooks/useVoiceInput.ts:54 | `\d+` takes a non-empty maximal run of digits |
| VoiceInput.FractionPart | src/hooks/useVoiceInput.ts:54 | The fraction holds the one or two digits after a '.', and is empty exactly when the optional group does not match |
| VoiceInput.AmountToken | src/hooks/useVoiceInput.ts:54 | No match exactly when there is no digit. Otherwise the number starts at the first digit and is the maximal digit run, plus up to two digits after an immediately following '.' |
| VoiceInput.TokenCents | src/hooks/useVoiceInput.ts:55 | The value read, in cents, is the number written by the digit run followed by the decimals padded to two places: "12.5" is 1250 cents, "7" is 700 |
| VoiceInput.ReadsWholeNumber | src/hooks/useVoiceInput.ts:54 | A text of digits, '.' and two digits is read as exactly those digits |
| VoiceInput.Amount | src/hooks/useVoiceInput.ts:54-55 | The amount is absent exactly when the text has no digit |
| VoiceInput.PrefixesHaveNoDigit | src/hooks/useVoiceInput.ts:54 | None of the optional prefix words holds a digit |
| VoiceInput.LeftmostMatchReadsFirstDigit | src/hooks/useVoiceInput.ts:54 | Any match starting no later than the first digit has group 1 at the first digit, and a match starts there, so the leftmost match reads the first number |
| VoiceInput.FirstKeyword | src/hooks/useVoiceInput.ts:58-68 | The first keyword in list order that the text contains; before it, none is contained |
| VoiceInput.Capitalize | src/hooks/useVoiceInput.ts:69 | A word starting with a lower-case letter comes back starting with its upper-case partner; a word starting otherwise comes back unchanged; after the first character nothing changes, so lower-cased the result is the lower-cased word |
| VoiceInput.ParseVoiceInput | src/hooks/useVoiceInput.ts:73 | The description is the transcript as given, not lower-cased |
| VoiceInput.KeywordsMapToCategories | src/hooks/useVoiceInput.ts:58-69 | `MapCategory`: every keyword maps to one of the seven category names |
| VoiceInput.CategoryAlwaysKnown | src/hooks/useVoiceInput.ts:58-69 | The category is always one of the seven names |
| VoiceInput.CategoryFromFirstKeyword | src/hooks/useVoiceInput.ts:58-69 | The category comes from the first keyword in list order contained in the lower-cased text; with none it is "Other" |
| VoiceInput.FoodWins | src/hooks/useVoiceInput.ts:58-68 | Any text containing "food" is Food, whatever else it mentions |
| VoiceInput.MissingCharBlocks | src/hooks/useVoiceInput.ts:68 | A keyword holding a character the text lacks is not found in it |
| VoiceInput.UberBeforeMovie | src/hooks/useVoiceInput.ts:58-68 | In "movie by uber" the first keyword in list order is "uber" |
| VoiceInput.ListOrderBeatsTextOrder | src/hooks/useVoiceInput.ts:58-68 | "Movie by Uber" is Transport: list order, not text order, decides |
| VoiceInput.CaseInsensitive | src/hooks/useVoiceInput.ts:51 | Lower-casing the transcript first changes neither amount nor category |
| VoiceInput.AmountAbsentIffNoDigit | src/hooks/useVoiceInput.ts:51-55 | The amount is absent exactly when the transcript holds no digit |
| CsvExport.DateReadBack | project/src/utils/csvExport.ts:10 | `FormatDate`: a date with a four-digit year is written as yyyy-MM-dd in ten characters, and its three fields read back |
| CsvExport.FormatAmount | project/src/utils/csvExport.ts:13 | The amount ends in '.' and exactly two digits, with a minus sign exactly for negative amounts |
| CsvExport.AmountReadBack | project/src/utils/csvExport.ts:13 | The voice parser reads an exported non-negative amount back to the same cents |
| CsvExport.QuoteField | project/src/utils/csvExport.ts:12 | The description field sits between two quotes, and a CSV reader that strips them and un-doubles the quotes inside recovers the description |
| CsvExport.EscapeCounts | project/src/utils/csvExport.ts:12 | `EscapeQuotes`: escaping doubles every quote and keeps every other character |
| CsvExport.UndoubleEscape | project/src/utils/csvExport.ts:12 | Un-doubling the quotes of an escaped text gives back the text |
| CsvExport.EscapeAppend | project/src/utils/csvExport.ts:12 | Escaping works character by character, so it splits over concatenation |
| CsvExport.EscapeNoQuote | project/src/utils/csvExport.ts:12 | A text without quotes is left as it is |
| CsvExport.CsvEmpty | project/src/utils/csvExport.ts:7-15 | `CsvContent`, the exported text: an empty list exports the header alone |
| CsvExport.CsvAppend | project/src/utils/csvExport.ts:7-15 | `CsvContent`: one more expense adds a newline and its line at the end, so the lines follow the input order |
| CsvExport.CsvSingle | project/src/utils/csvExport.ts:7-15 | A single expense exports as the header, a newline and its line |
| CsvExport.CsvStartsWithHeader | project/src/utils/csvExport.ts:5-15 | The text begins with `Date,Category,Description,Amount`: it is that header alone for no expenses, and otherwise the header is followed by a newline |
| CsvExport.CsvLastCharacter | project/src/utils/csvExport.ts:7-15 | The text never ends in a newline: it ends in the header's last letter or an amount digit |
| CsvExport.EscapeNoNewline | project/src/utils/csvExport.ts:12 | Escaping introduces no newline |
| CsvExport.RowNoNewline | project/src/utils/csvExport.ts:9-14 | `Row`, one expense's line: a line holds no newline if its category and description hold none |
| CsvExport.CsvLineCount | project/src/utils/csvExport.ts:7-15 | n expenses without newlines in their texts give exactly n newlines: 1 + n lines |
| CsvExport.ExampleDate | project/src/utils/csvExport.ts:10 | 2024-01-05 is written "2024-01-05" |
| CsvExport.ExampleAmount | project/src/utils/csvExport.ts:13 | 12.50 is written "12.50" |
| CsvExport.EscapeOneQuotedWord | project/src/utils/csvExport.ts:12 | In a description with one quoted word, both quotes are doubled |
| CsvExport.ExampleDescription | project/src/utils/csvExport.ts:12 | Lunch "special" is quoted as "Lunch ""special""" |
| CsvExport.WorkedExample | project/src/utils/csvExport.ts:9-14 | The 12.50 Food expense of 2024-01-05 described as Lunch "special" is the line `2024-01-05,Food,"Lunch ""special""",12.50` |
| Text.NatToString | project/src/utils/csvExport.ts:13 | Decimal digits, at least one |
| Text.ParseNatSnoc | src/hooks/useVoiceInput.ts:55 | One more digit at the end multiplies the value read by ten and adds the digit |
| Text.ParseNatToString | src/hooks/useVoiceInput.ts:55 | Reading the digits of a number gives the number |
| Text.PadNat | project/src/utils/csvExport.ts:10 | Zero-padding gives at least the width, and exactly the width when the number fits |
| Text.NatToStringLength | project/src/utils/csvExport.ts:10 | A number below 10^k has at most k digits |
| Text.ParseNatLeadingZero | project/src/utils/csvExport.ts:10 | A leading zero does not change the value |
| Text.ParseNatPad | project/src/utils/csvExport.ts:10 | Reading a zero-padded number gives the number |
| Text.ToLower | src/hooks/useVoiceInput.ts:51 | No upper-case ASCII letter remains; each one becomes its lower-case partner, every other character is kept, and the length is kept |
| Text.ToLowerIdempotent | src/hooks/useVoiceInput.ts:51 | Lower-casing twice is lower-casing once |
| Text.CountCharAppend | project/src/utils/csvExport.ts:7-15 | Counting a character splits over concatenation |
| Text.CountCharAbsent | project/src/utils/csvExport.ts:7-15 | A character that does not occur counts 0 |

## Left out

- Rendering, layout, icons, the chart library, theme and view switching are left out. The models stop at the values the components compute.
- The remote row store (Supabase) is not modelled: its query chains, ordering by date, insert and delete. Each call's answer is a parameter, so the order of the fetched rows is whatever the table returns.
- Clocks and time zones are left out. "Now" is a parameter, and expense dates are civil dates. `new Date("yyyy-MM-dd")` parses a date as midnight UTC, and the code then compares and formats it in local time, so west of UTC an expense lands on the previous day; the model does not capture that shift, nor invalid dates. One consequence is in the weekly chart (src/components/Analytics/ExpenseCharts.tsx:45-47): a week ends at Saturday 00:00 local time, so outside UTC one day of every week falls into no weekly bucket, Sunday west of UTC and Saturday east of it. ExpenseCharts.WeekTotal, ExpenseCharts.MonthCoveredOnce and ExpenseCharts.WeeklyDataSum count all seven days, which matches the code only in UTC.
- JavaScript numbers are not modelled. `parseFloat`, `toFixed` and floating-point sums are replaced by integer cents and exact reals. Rounding in `toFixed(0)` and `toFixed(1)` of the percentages, and binary-fraction error, are not captured.
- JSON encoding of storage values, and `JSON.parse` failures on corrupt storage, are left out. Storage maps hold decoded values.
- The `catch` branches of the authentication context are left out ("Failed to create account", "Failed to sign in"). They fire only when storage itself fails.
- BudgetHook.SetSpec: the failure value is a fixed message, while the source returns the caught exception object.
- React effects and asynchrony are left out: the automatic fetch when the user changes, and stale closures over `expenses` in concurrent adds or deletes.
- Text.ToLower: maps ASCII letters only; `toLowerCase` also maps other Unicode letters, some of them to two code units.
- VoiceInput.ParseVoiceInput: the amount is given in exact cents, not as the float `parseFloat` returns.
- Speech recognition (`startListening`, `stopListening`) is a browser API and is left out.
- ExpenseCharts.SortByValueDescending: does not state the order among equal values. `Array.prototype.sort` has been stable since ECMAScript 2019, and the insertion sort here is stable too, since it swaps only on a strict `<`; that stability is not proved.
- The 'MMM dd' and 'MMM dd, yyyy' date labels and the chart tooltips are presentation and are left out.
- The pie and summary colour fallback `COLORS[name] || COLORS.Other` is presentation and is left out.
- RecentExpenses.CategoryColor: treats every name outside the seven as unknown. The record lookup in the source also finds inherited object properties such as "toString".
- BudgetOverview.BudgetEditor.OpenWithLimit: takes the text of `budgetLimit.toString()` as a parameter, since JavaScript number printing is not modelled.
- The settings page saves a limit only when it is positive, while the budget card also accepts 0. The settings page is not modelled; this difference is recorded here and not reconciled.
- The CSV download (Blob, object URL, link click) is DOM work and is left out.
- Passwords are stored and compared in plain text, as the source does; no hashing is modelled.
- Negative years are not modelled: a civil date's year is a natural number.

## Findings

| source | as written | input that shows it | evidently intended | confidence | as-written member | corrected member |
|---|---|---|---|---|---|---|
| src/contexts/AuthContext.tsx:37-69 | `existingUsers[email]` on a plain object also finds properties every object inherits | sign up or sign in as "toString" (or "constructor", "valueOf") on a registry without it: sign-up says "User already exists", sign-in says "Invalid password" for every password | only registered emails count as existing users | low, not executed; a login form that insists on an '@' would keep these names out | AuthContext.InheritedNameLockedOut | AuthContext.SignUpThenSignIn |
