# Expense tracker analytics core, modelled in Dafny

This project models the bookkeeping and analytics core of the browser expense
tracker in `OneDrive/Desktop/expense-tracker/script.js`:

- the monthly window aggregator `getLastNMonths`;
- the least-squares forecaster `predictNext` and the income/expense split of
  `renderPrediction`;
- the recurring-transaction materialiser `processRecurring`;
- the store operations `updateTransaction` and `deleteTransaction`, and the
  "add budget" click handler;
- the rule-based category suggester `suggestCategory`.

The source reads the current profile from a global `app` object and the
current month from `new Date()`. Here the profile is an explicit
`Store.ProfileState` object, and the current month is a parameter `now`.
Months are `(year, 0-based month)` pairs, as `getFullYear`/`getMonth` report
them. Which month a timestamp falls in depends on the local time zone, so it
is a given function `monthOf`. The start of a given day of a month is a given
function `startOfDay`. Both live in `Ledger.Clock`. `Ledger.Consistent(clock, now)`
states that, in month `now`, the start of each day 1..28 falls back in `now`.
The browser's local calendar does this for every month it can represent
except those of years 0..99, which the Date constructor reads as 1900..1999.
The lemmas that need it take it for the one month they are about. Amounts and
regression arithmetic are exact `real`s.

Modules: `Months` (calendar months and the two month-key strings), `Ledger`
(transactions, patch merge, lookup by id, delete filter), `Budgets`,
`Recurring`, `Store` (the profile object and its in-place operations),
`Aggregate`, `Forecast` and `Categorize`. The bucket key (`"YYYY-MM"`,
month padded) and the `lastRecurringMonth` key (`"YYYY-M"`, not padded) are
built as real strings. A parser reads both back (`Months.ParseKey`), which
proves that each key format tells months apart. The aggregator compares
string keys, just as the source does.

## Model

| member | source | states |
|---|---|---|
| `Months.Normalize` | OneDrive/Desktop/expense-tracker/script.js:1062 | `new Date(y, m, 1)` carries an out-of-range month into the year: the absolute month count `12*y + m` is kept, and months 0..11 are left alone |
| `Months.AddMonths` | OneDrive/Desktop/expense-tracker/script.js:1062 | going `delta` months forward or back moves the absolute month count by exactly `delta` |
| `Months.JanuaryRollover` | OneDrive/Desktop/expense-tracker/script.js:1062 | one month before January of a year is December of the previous year |
| `Months.NatToString` | OneDrive/Desktop/expense-tracker/script.js:1063-1066 | decimal rendering is a non-empty string of digits, one digit exactly below 10 |
| `Months.MonthKeyRoundTrip` | OneDrive/Desktop/expense-tracker/script.js:1063-1066 | the padded bucket key of a month parses back to that month |
| `Months.MonthKeyInjective` | OneDrive/Desktop/expense-tracker/script.js:1077-1081 | two months have the same bucket key if and only if they are the same month, so matching keys is matching months |
| `Months.RecurringKeyRoundTrip` | OneDrive/Desktop/expense-tracker/script.js:421 | the unpadded `lastRecurringMonth` key of a month parses back to that month |
| `Months.RecurringKeyInjective` | OneDrive/Desktop/expense-tracker/script.js:421-422 | two months have the same `lastRecurringMonth` key if and only if they are the same month |
| `Aggregate.Window` | OneDrive/Desktop/expense-tracker/script.js:1061-1062 | the window has exactly n months, and month i is `now` shifted by `i - (n - 1)` months |
| `Aggregate.WindowIsConsecutive` | OneDrive/Desktop/expense-tracker/script.js:1061-1073 | the window ends at the current month, each month is the one after its predecessor, and months strictly ascend |
| `Aggregate.WindowAcrossNewYear` | OneDrive/Desktop/expense-tracker/script.js:1062 | the three months ending in a February are December of the year before, January, February |
| `Aggregate.FindSlot` | OneDrive/Desktop/expense-tracker/script.js:1081 | `arr.find` by key gives the first slot with that key (no earlier slot has it), or -1 exactly when no slot has it |
| `Aggregate.BookTransaction` | OneDrive/Desktop/expense-tracker/script.js:1075-1086 | when bucket keys are distinct, the forEach callback credits every bucket whose key is the transaction's month key and leaves the others unchanged |
| `Aggregate.EmptyWindow` | OneDrive/Desktop/expense-tracker/script.js:1061-1073 | the first loop builds max(n, 0) empty buckets, oldest first: bucket k has the key and month of window month k and zero income and expense |
| `Aggregate.GetLastNMonths` | OneDrive/Desktop/expense-tracker/script.js:1058-1088 | returns max(n, 0) buckets, oldest first, for the window months (`WindowBuckets`). Each bucket holds its key, its month, and the income and expense booked in that month. Transactions outside the window are ignored |
| `Aggregate.TransactionLandsOnce` | OneDrive/Desktop/expense-tracker/script.js:1074-1087 | one more transaction changes the window's buckets in at most one month: that month's income (for type "income") or expense (otherwise) grows by its amount, the other side and every other month are unchanged. It lands in the window exactly when its month is among the n months ending at `now` |
| `Aggregate.BucketsHoldWindowTotal` | OneDrive/Desktop/expense-tracker/script.js:1074-1087 | over pairwise distinct months, the buckets together hold exactly the amounts dated in those months; each one is counted once |
| `Aggregate.WindowTotalAtMostTotal` | OneDrive/Desktop/expense-tracker/script.js:1074-1087 | with non-negative amounts, income (or expense) summed over the window's buckets is at most the total over all transactions |
| `Aggregate.ThreeMonthExample` | OneDrive/Desktop/expense-tracker/script.js:1074-1087 | income 1000 and expense 200 in January and expense 300 in February give December 0/0, January 1000/200, February 0/300 |
| `Forecast.LinearForecast` | OneDrive/Desktop/expense-tracker/script.js:513-525 | the `num`/`den` accumulation loop returns the least-squares projection of the series at index n |
| `Forecast.Nets` | OneDrive/Desktop/expense-tracker/script.js:512 | the net series has one entry per bucket, equal to that bucket's income minus its expense |
| `Forecast.PredictNext` | OneDrive/Desktop/expense-tracker/script.js:509-526 | `predictNext(k)` is the least-squares projection of the monthly nets of the k-month window ending at `now` |
| `Forecast.ShortSeriesProjected` | OneDrive/Desktop/expense-tracker/script.js:514-525 | an empty series predicts 0. A one-month series (den = 0, slope 0) predicts that month's net |
| `Forecast.LinearSeriesProjected` | OneDrive/Desktop/expense-tracker/script.js:515-525 | a series of at least two months lying on y = a + b*i is projected to a + b*n |
| `Forecast.ConstantSeriesProjected` | OneDrive/Desktop/expense-tracker/script.js:515-525 | a non-empty constant series is projected at that constant |
| `Forecast.RisingSeriesExample` | OneDrive/Desktop/expense-tracker/script.js:515-525 | monthly nets 100..600 are projected to 700 |
| `Forecast.Split` | OneDrive/Desktop/expense-tracker/script.js:531-536 | predicted income and expense are never negative. Income is at least the average income plus half the net. Unless the expense is clamped to 0, income minus expense is the net |
| `Forecast.RenderPrediction` | OneDrive/Desktop/expense-tracker/script.js:528-540 | the net shown is the projection of the 6-month window's nets, and the shown income and expense are the split of that net against the same 6 window buckets: non-negative, income at least the 6-month average income plus half the net, and differing by the net unless clamped |
| `Ledger.FindIndex` | OneDrive/Desktop/expense-tracker/script.js:276 | `findIndex` by id gives the first index with that id, or -1 exactly when no transaction has it |
| `Ledger.MergeLaws` | OneDrive/Desktop/expense-tracker/script.js:278 | the spread merge with an empty patch is the identity, and merging a patch twice is merging it once |
| `Ledger.WithoutId` | OneDrive/Desktop/expense-tracker/script.js:285 | the filter keeps exactly the transactions whose id differs, and drops as many entries as carry the id |
| `Ledger.WithoutIdKeepsOrder` | OneDrive/Desktop/expense-tracker/script.js:285 | the filter distributes over concatenation, so survivors keep their original order |
| `Ledger.WithoutAbsentId` | OneDrive/Desktop/expense-tracker/script.js:285 | deleting an id that no transaction has leaves the list unchanged |
| `Budgets.FindCategory` | OneDrive/Desktop/expense-tracker/script.js:409 | `findIndex` by category gives the first budget of that category, or -1 exactly when there is none |
| `Budgets.Upsert` | OneDrive/Desktop/expense-tracker/script.js:401-415 | invalid input (empty category, NaN or non-positive limit) changes nothing. Otherwise the category's limit becomes the input, every entry other than the one `findIndex` returns is left as it was, and the list grows by one only for a new category. "At most one budget per category" is preserved |
| `Recurring.ClampDay` | OneDrive/Desktop/expense-tracker/script.js:431 | an instance's day is always in 1..28, and it equals the rule's day exactly when that day is in 1..28 (otherwise 1) |
| `Recurring.MaterializeAppends` | OneDrive/Desktop/expense-tracker/script.js:423-443 | processing keeps the old list as a prefix and appends, in rule order, one transaction for each of a strictly increasing list of rule indices, so at most one per rule. Each appended transaction is the instance of its rule, which had no instance in the month beforehand |
| `Recurring.MaterializeCovers` | OneDrive/Desktop/expense-tracker/script.js:423-443 | when the calendar is consistent in the current month, after processing every rule has an instance in the current month |
| `Recurring.MaterializeWhenCovered` | OneDrive/Desktop/expense-tracker/script.js:424-430 | when every rule already has an instance in the month, processing appends nothing |
| `Recurring.MaterializeIdempotent` | OneDrive/Desktop/expense-tracker/script.js:423-443 | when the calendar is consistent in the current month, processing the same month twice appends nothing the second time, even without the `lastRecurringMonth` guard |
| `Recurring.MaterializeDistinctInstances` | OneDrive/Desktop/expense-tracker/script.js:423-443 | when the calendar is consistent in the current month, no two transactions appended in one run are instances of the same rule id |
| `Store.ProfileState.constructor` | OneDrive/Desktop/expense-tracker/script.js:30-47 | a fresh profile has no transactions, budgets or rules, and no processed month |
| `Store.ProfileState.UpdateTransaction` | OneDrive/Desktop/expense-tracker/script.js:274-281 | answers true exactly when some transaction has the id. Then it replaces only the first such entry with its merge with the patch; otherwise nothing changes. The length and all other state are kept |
| `Store.ProfileState.DeleteTransaction` | OneDrive/Desktop/expense-tracker/script.js:283-287 | the list becomes its filter by id: exactly the entries with other ids, in order; nothing else changes |
| `Store.ProfileState.AddBudget` | OneDrive/Desktop/expense-tracker/script.js:401-415 | accepts exactly the valid inputs, and the budgets become the upsert. Unique categories are preserved, and nothing else changes |
| `Store.ProfileState.ProcessRecurring` | OneDrive/Desktop/expense-tracker/script.js:418-446 | a no-op on transactions when `lastRecurringMonth` already holds this month's key, otherwise the transactions become the materialised list; afterwards the key is recorded, so a second call in the same month changes nothing |
| `Categorize.ToLower` | OneDrive/Desktop/expense-tracker/script.js:203 | lower-casing keeps the length and maps each ASCII capital to its small letter, leaving other characters alone |
| `Categorize.FirstMatch` | OneDrive/Desktop/expense-tracker/script.js:204-205 | the lookup gives the category of the earliest entry with a word in the text, and nothing exactly when no entry matches |
| `Categorize.FirstMatchOfConcat` | OneDrive/Desktop/expense-tracker/script.js:204-205 | trying the brands and then the rules is one first-match lookup over brands followed by rules |
| `Categorize.Suggest` | OneDrive/Desktop/expense-tracker/script.js:201-208 | empty text gives "". Any other answer is "", "Bills" or the category of a table entry. When no brand or rule matches a non-empty text, the answer is "Bills" if it has a whole word "bill" and "" otherwise |
| `Categorize.SuggestCategory` | OneDrive/Desktop/expense-tracker/script.js:176-208 | with the source's tables, the suggestion is "" or one of Food, Shopping, Entertainment, Bills, Salary, Transport, Health |
| `Categorize.SuggestIsFirstMatch` | OneDrive/Desktop/expense-tracker/script.js:201-208 | when an entry matches, the suggestion is the category of the earliest matching entry. A brand therefore beats every rule, and an earlier rule beats a later one |
| `Categorize.SuggestNothingIff` | OneDrive/Desktop/expense-tracker/script.js:201-208 | the suggestion is "" exactly when the text is empty, or when no table word occurs in it and it has no whole word "bill" |

## Left out

- Persistence (`loadApp`, `saveApp`, `setProfile`, localStorage): opaque I/O. The profile is an explicit object instead.
- DOM rendering, event wiring, toasts, theme switching, voice input, CSV/JSON/PDF export and JSON import: UI and file I/O.
- The chatbot, `computeSummary`, goals and the add/edit transaction form: not part of this model.
- `uid()`: it uses the clock and randomness. `ProcessRecurring` takes `uid(i)`, the id minted for rule i.
- `fmt` and the bucket `label` (`toLocaleString`) depend on the locale. A bucket keeps its month instead of the label.
- Time-zone–dependent date arithmetic (`new Date(ts)`, `new Date(y, m, day).getTime()`) is the abstract `Clock`.
- JavaScript double rounding: amounts and the regression are exact reals.
- `Categorize.ToLower`: only ASCII letters are lower-cased. Unicode case mapping is not modelled.
- `suggestCategory` called with `null`/`undefined`: the model takes strings only. The empty string takes the same path.
- `Ledger.Patch`: covers the seven transaction fields. Extra unknown properties a patch object could carry are not modelled.
- `Recurring.Rule`: `day` is an integer, so a missing or NaN day is modelled as any out-of-range day. Both give the 1st.
- `renderPrediction` computes `avgExpense` and never uses it. The model does not compute it.
- `getLastNMonths` is defined twice with identical bodies (lines 477 and 1058). The later definition is the one in effect and the one modelled.
- A negative window size returns an empty list, because the loop at script.js:1061 does not run; the model follows the code.
- `Forecast.LinearSeriesProjected`: the straight-line property needs at least two months. With one month the code returns that month's net, not a + b, and with none it returns 0 (see `Forecast.ShortSeriesProjected`).
- `Months.Normalize`: the Date constructor reads a year 0..99 as 1900..1999. The model keeps every year as given, so it matches the code only for years outside 0..99.
