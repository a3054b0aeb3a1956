# Budget manager: recurring-item projection engine

This project models the part of the budget manager that projects recurring
incomes, expenses and transfers over the coming months, and proves
properties of that model. It covers three source files:

- **The balance forecast chart** (`AccountEvolutionChart`), module `AccountEvolution`:
  - It produces one balance series per active account. The series starts at the account's current balance. Each later month adds that month's incomes, subtracts its expenses, adds incoming transfers and subtracts outgoing ones.
  - A balance adjustment recorded in a month replaces that month's balance.
  - A TOTAL series sums the accounts month by month.
- **The income/expense chart** (`IncomeExpenseChart`), module `IncomeExpense`:
  - Each month it fetches the active recurring items and sums their contributions.
  - It builds a map from item name to amount.
  - It compares that map with the previous month's to produce the tooltip lines. An item can be new, modified (with its difference), temporary (unchanged, with an end date and the payments still due) or terminated.
- **The frequency helpers of the income and expense forms** (`HasFrequencyCalculation`), module `FrequencyCalculation`:
  - the frequency labels;
  - the count of occurrences between two dates;
  - the total-amount preview.

Two support modules:

- `Calendar` holds the dates as Carbon handles them:
  - Gregorian days in month;
  - lexicographic comparison of dates at midnight;
  - `addDay`, `addWeek`, `addMonth` and `addYear` with Carbon's month overflow;
  - whole-unit `diffIn*`;
  - a day number, used to prove counts.
- `Records` holds the frequency column and the item record.

The current date is a parameter (`now`) everywhere. Database queries are
filters over sequences, kept in the order of the sequence.

The source code works by updating state step by step in several places.
Each of those becomes a method with loop invariants, proved against a
specification function:

- `CalculateOccurrences` (the `while` loop);
- `SumKind`, `ProjectAccount`, `SumColumn` and `AccountEvolution.GetData` (the forecast loops);
- `CollectMonth`, `GenerateTooltipDetails` and `IncomeExpense.GetData` (the income/expense loops).

`IncomeExpense.ProcessMonth` has no loop of its own. It is the body of the month loop that `IncomeExpense.GetData` iterates: straight-line calls to `CollectMonth` and `GenerateTooltipDetails`, proved against the same specification functions.

The lemmas then prove what the source promises about those functions.

## Behaviour modelled as written

- **The start-date bound of the monthly query.**
  - Carbon dates are mutable. At `app/Filament/Widgets/IncomeExpenseChart.php:70`, the non-yearly start-date constraint binds the `$date` object itself, after `endOfMonth()` has moved it.
  - Line 165 then calls `$date->startOfMonth()` on the same object, to build the end-date constraint.
  - The bindings are only formatted when `get()` runs the query. The start date is therefore compared with the first day of the month, not the last.
  - `IncomeExpense.IsFetched` models that effective filter. Its contract states the consequence: an item is fetched exactly when it is active, recurring and active for the balance projector, unless it is a non-yearly item that starts after the 1st of that very month.
  - `IncomeExpense.FetchedVersusProjector` restates this as the two directions the forecast chart cares about.
  - `IncomeExpense.MidMonthStartExample` shows one: a monthly salary starting on 2025-03-15. The forecast chart counts it in March; the income chart does not count it until April.
  - The projector's own `isItemActiveForDate` also moves its `$date`, but it compares immediately. Its checks therefore use the last day of the month for the start and the first day for the end, as intended.
- **Month overflow in the occurrence count.**
  - `calculateOccurrences` adds one month (or one year) to the running date again and again. Carbon overflows past the end of a short month, so a start day of 29 to 31 drifts.
  - `FrequencyCalculation.MonthEndDrift` shows that January 31 plus one month is March 2 in 2024, so January 31 to March 31 counts only 2 monthly occurrences.
  - The closed-form count for monthly steps is proved for start days up to 28. The closed-form count for yearly steps is proved for any start date except February 29: `addYear` moves only that date, to March 1.
- **`diffIn*`.** These follow Carbon 2: an absolute value in whole units. A month is complete once the end's day of month reaches the start's.
- **Duplicate names.** The month map is keyed by item name, so a later item with the same name overwrites the earlier one's amount. The monthly total still adds both. `IncomeExpense.DuplicateNameExample` shows a total of 350 against a map holding only 250.
- **Yearly items in the tooltip.**
  - A yearly item contributes only in its month. The month after it fires, it is absent from the map, so the tooltip reports it as terminated.
  - Twelve months later it is reported as new again (`IncomeExpense.YearlyItemFlickers`).

## Model

| member | source | states |
|---|---|---|
| Records.CodeRoundTrip | app/Filament/Concerns/HasFrequencyCalculation.php:10-19 | Reading a frequency code and writing it back gives the same string. A frequency the reader can produce reads back to itself. |
| Calendar.DiffInDays | app/Filament/Widgets/IncomeExpenseChart.php:51 | The whole days between two dates: the day-number distance in either argument order, and 0 exactly when the dates are equal. |
| Calendar.DiffInWeeks | app/Filament/Widgets/IncomeExpenseChart.php:52 | The whole weeks between two dates: r weeks fit in the day distance and r + 1 do not. |
| Calendar.DiffInMonths | app/Filament/Widgets/IncomeExpenseChart.php:53 | Whole months, either argument order: r months after the earlier date is not past the later one, and r + 1 months after it is. This is stated for a day of month up to 28. |
| Calendar.DiffInYears | app/Filament/Widgets/IncomeExpenseChart.php:54 | Whole years, either argument order: r years after the earlier date is not past the later one, and r + 1 years after it is. This is stated for any earlier date but February 29. |
| Calendar.AddMonths | app/Filament/Concerns/HasFrequencyCalculation.php:100-101 | Adding months to a valid date gives a valid date. |
| Calendar.AddMonthsDayNumber | app/Filament/Widgets/AccountEvolutionChart.php:111 | Month overflow: the result lies d.day - 1 days after the first of the target month, even when that runs past the month's end. |
| Calendar.AddYear | app/Filament/Concerns/HasFrequencyCalculation.php:103-104 | A year later is the same month and day in the next year, except February 29, which becomes March 1. |
| Calendar.MonthStartIndex | app/Filament/Widgets/AccountEvolutionChart.php:110-113 | The i-th chart month (first of the current month plus i months) is a valid first-of-month date, exactly i calendar months after now's month. |
| FrequencyCalculation.FrequencyOptions | app/Filament/Concerns/HasFrequencyCalculation.php:10-19 | The select offers exactly five options with distinct codes. Each option's code is a known frequency, and every known frequency code is offered. |
| FrequencyCalculation.FormatFrequencyForTable | app/Filament/Concerns/HasFrequencyCalculation.php:119-129 | An unknown code is shown as itself. A known code is shown with the label its option carries in the select. |
| FrequencyCalculation.FormatAgreesWithOptions | app/Filament/Concerns/HasFrequencyCalculation.php:119-129 | The table label of each option code is that option's label in the select. Any other string is shown unchanged, as the label test expects (tests/Unit/Concerns/HasFrequencyCalculationTest.php:161-169). |
| FrequencyCalculation.Count | app/Filament/Concerns/HasFrequencyCalculation.php:86-109 | The loop counts nothing exactly when the running date is already past the end. A frequency that does not advance the date counts at most once. |
| FrequencyCalculation.Occurrences | app/Filament/Concerns/HasFrequencyCalculation.php:80-112 | 0 when start is after end. At least 1 otherwise. Exactly 1 for a frequency that breaks out of the loop. |
| FrequencyCalculation.CalculateOccurrences | app/Filament/Concerns/HasFrequencyCalculation.php:80-112 | The `while` loop that advances a copy of the start date returns the occurrence count. |
| FrequencyCalculation.CountDaily | app/Filament/Concerns/HasFrequencyCalculation.php:90-96 | With daily steps, the count is the number of days from start to end inclusive. |
| FrequencyCalculation.CountWeekly | app/Filament/Concerns/HasFrequencyCalculation.php:90-99 | With weekly steps, the count is the whole weeks between the dates plus one. |
| FrequencyCalculation.CountMonthly | app/Filament/Concerns/HasFrequencyCalculation.php:90-102 | With monthly steps and a start day up to 28, the count is the whole months between the dates plus one. |
| FrequencyCalculation.CountYearly | app/Filament/Concerns/HasFrequencyCalculation.php:90-105 | With yearly steps and a start date other than February 29, the count is the whole years between the dates plus one. |
| FrequencyCalculation.OccurrencesInWholeUnits | app/Filament/Concerns/HasFrequencyCalculation.php:90-109 | The count equals Carbon's diffInDays, diffInWeeks, diffInMonths or diffInYears plus one. For months the start day must be at most 28; for years the start date must not be February 29. |
| FrequencyCalculation.MonthEndDrift | app/Filament/Concerns/HasFrequencyCalculation.php:100-101 | Repeated addMonth from January 31 overflows to March 2, so January 31 to March 31 counts 2 monthly occurrences, not 3. |
| FrequencyCalculation.OccurrenceExamples | tests/Unit/Concerns/HasFrequencyCalculationTest.php:101-144 | The three counts the unit tests rely on are each 3: monthly Jan 1 to Mar 1 2024, daily Jan 1 to Jan 3 2024, yearly 2024-01-01 to 2026-01-01. |
| FrequencyCalculation.CalculateTotalAmount | app/Filament/Concerns/HasFrequencyCalculation.php:43-75 | The preview is the zero total exactly when the amount (missing reads 0) is at most 0. It is the amount itself exactly for a positive one-off. A missing date gives the per-occurrence amount, and so does a date that fails to parse. The period total appears exactly when both dates are present and parse; its count is the occurrence count and its total is amount times that count. |
| FrequencyCalculation.TotalAmountPreviewExamples | tests/Unit/Concerns/HasFrequencyCalculationTest.php:60-99 | The tests' zero-amount, one-off and missing-dates previews. |
| FrequencyCalculation.TotalAmountMonthlyExample | tests/Unit/Concerns/HasFrequencyCalculationTest.php:101-114 | 100 monthly from 2024-01-01 to 2024-03-01 totals 300 over 3 occurrences. |
| FrequencyCalculation.TotalAmountDailyExample | tests/Unit/Concerns/HasFrequencyCalculationTest.php:116-129 | 10 daily from 2024-01-01 to 2024-01-03 totals 30 over 3 occurrences. |
| FrequencyCalculation.TotalAmountYearlyExample | tests/Unit/Concerns/HasFrequencyCalculationTest.php:131-144 | 1000 yearly from 2024-01-01 to 2026-01-01 totals 3000 over 3 occurrences. |
| AccountEvolution.IsYearlyOccurrence | app/Filament/Widgets/AccountEvolutionChart.php:40-43 | For valid months: the current month matches exactly when it is a whole number of years (possibly none) at or after the anchor's month. |
| AccountEvolution.AmountForMonth | app/Filament/Widgets/AccountEvolutionChart.php:25-43 | Contribution by frequency: 0 for one-off and unknown codes; the amount for monthly; amount × 4.33 for weekly; amount × days in the month for daily. For yearly: the amount in the anchor's month in the anchor's year or later, 0 otherwise. A non-negative amount never yields more than 31 times itself. |
| AccountEvolution.YearlyAtMostOncePerYear | app/Filament/Widgets/AccountEvolutionChart.php:32-43 | Within any 12 consecutive chart months, a yearly item contributes in at most one. |
| AccountEvolution.YearlyFiresOncePerYear | app/Filament/Widgets/AccountEvolutionChart.php:32-43 | From the anchor's month on, every 12 consecutive chart months contain a month where a yearly item contributes its full amount. |
| AccountEvolution.DailyCountsEveryDay | app/Filament/Widgets/AccountEvolutionChart.php:29 | A daily item's monthly contribution is its amount times the number of daily occurrences from the first to the last day of that month. |
| AccountEvolution.WeeklyApproximation | app/Filament/Widgets/AccountEvolutionChart.php:30 | A calendar month holds 4 or 5 weekly occurrences, and the 4.33 approximation lies between 4 and 5 times the amount. |
| AccountEvolution.IsItemActiveForDate | app/Filament/Widgets/AccountEvolutionChart.php:48-62 | An end date before the month's first day makes an item inactive. When the end check passes, the item is active exactly when its start check passes: always without a start date; for a yearly item, in the start date's month from the start year on; for any other item, when it starts by the month's last day. |
| AccountEvolution.ActiveMonthsContiguous | app/Filament/Widgets/AccountEvolutionChart.php:48-62 | A non-yearly item's active chart months have no gaps. |
| AccountEvolution.YearlyActiveOncePerYear | app/Filament/Widgets/AccountEvolutionChart.php:50-53 | A yearly item with a start date is active in at most one of any 12 consecutive chart months. |
| AccountEvolution.SumKind | app/Filament/Widgets/AccountEvolutionChart.php:163-201 | Each `foreach` sum over one kind of flow equals that kind's total: the contributions of the account's loaded flows active in the month. |
| AccountEvolution.KindTotalAppend | app/Filament/Widgets/AccountEvolutionChart.php:166-171 | A kind's total over two lists of flows is the sum of the two totals. |
| AccountEvolution.DeltaIgnoresOthers | app/Filament/Widgets/AccountEvolutionChart.php:82-104 | Inactive or one-off flows and flows of other accounts leave an account's monthly change unchanged. |
| AccountEvolution.TransferMovesAmount | app/Filament/Widgets/AccountEvolutionChart.php:183-201 | A transfer between two accounts adds its monthly contribution to the receiving account's change and removes the same amount from the sending account's. |
| AccountEvolution.AdjustmentIndex | app/Filament/Widgets/AccountEvolutionChart.php:137-144 | The `keyBy('Y-m')` index of an account's active adjustments. Its own contract is empty; `AccountEvolution.AdjustmentIndexLastWins` states what it holds. |
| AccountEvolution.AdjustmentIndexLastWins | app/Filament/Widgets/AccountEvolutionChart.php:137-144 | A month key is in the adjustment index exactly when some active adjustment of the account falls in that month. The indexed value is the balance of the last such adjustment in list order. |
| AccountEvolution.LatestAdjustmentWins | app/Filament/Widgets/AccountEvolutionChart.php:137-144 | On the date-ordered list, the indexed balance is that of the adjustment with the latest date in the month. |
| AccountEvolution.BalanceWithoutAdjustment | app/Filament/Widgets/AccountEvolutionChart.php:159-205 | With no adjustment up to month i, the balance is the current balance plus the monthly changes of months 1 to i. In particular month 0 keeps the current balance. |
| AccountEvolution.BalanceFromAdjustment | app/Filament/Widgets/AccountEvolutionChart.php:146-208 | After an adjustment in month j and none up to month i, the balance is the adjusted balance plus the changes of months j+1 to i. |
| AccountEvolution.AdjustmentResetsHistory | app/Filament/Widgets/AccountEvolutionChart.php:151-157 | From an adjusted month on, the series does not depend on the account's starting balance. |
| AccountEvolution.ProjectAccount | app/Filament/Widgets/AccountEvolutionChart.php:131-208 | The per-account month loop produces the account's balance series. |
| AccountEvolution.ActiveAccounts | app/Filament/Widgets/AccountEvolutionChart.php:79 | The chart's accounts are exactly the active ones. |
| AccountEvolution.SumColumn | app/Filament/Widgets/AccountEvolutionChart.php:230-233 | The inner TOTAL loop sums month m across the account series. |
| AccountEvolution.GetData | app/Filament/Widgets/AccountEvolutionChart.php:106-254 | One label per month, each the first of the month i months from now. One series per active account, in order, holding that account's balance series. A final TOTAL series of the same length whose every entry is the sum of the accounts' entries for that month. |
| AccountEvolution.ForecastExample | app/Filament/Widgets/AccountEvolutionChart.php:146-208 | A 1000 balance with a 200 monthly rent gives 1000, 800, 600. An adjustment to 5000 in the second month gives 1000, 5000, 4800. |
| IncomeExpense.AmountForMonth | app/Filament/Widgets/IncomeExpenseChart.php:25-35 | This chart's own copy of the contribution by frequency: 0 for one-off and unknown codes; the amount for monthly; amount × 4.33 for weekly; amount × days in the month for daily; for yearly, the amount exactly in a matching month. A non-negative amount never yields more than 31 times itself. |
| IncomeExpense.IsYearlyOccurrence | app/Filament/Widgets/IncomeExpenseChart.php:40-43 | For valid months: the current month matches exactly when it is a whole number of years (possibly none) at or after the anchor's month. |
| IncomeExpense.SameContributionAsProjector | app/Filament/Widgets/IncomeExpenseChart.php:25-43 | This chart's contribution and yearly-match functions agree with the forecast chart's on every input. |
| IncomeExpense.CalculateRemainingPayments | app/Filament/Widgets/IncomeExpenseChart.php:48-57 | The remaining payments are 0 exactly for the one-off and unknown frequencies. |
| IncomeExpense.RemainingPaymentsCountOccurrences | app/Filament/Widgets/IncomeExpenseChart.php:48-57 | From the first of a month up to the end date, the remaining payments equal the occurrence count over that period. |
| IncomeExpense.IsFetched | app/Filament/Widgets/IncomeExpenseChart.php:62-85 | An item passes the monthly query exactly when it is active, not one-off and active for the month by the forecast chart's test, unless it is a non-yearly item that starts after the 1st of that month. The start bound is the first of the month because line 165 moves the shared date object back before the query runs. |
| IncomeExpense.Fetch | app/Filament/Widgets/IncomeExpenseChart.php:159-167 | The monthly query returns exactly the items that pass the filter, as described in "Behaviour modelled as written". |
| IncomeExpense.FetchedVersusProjector | app/Filament/Widgets/IncomeExpenseChart.php:62-85 | Every fetched item is loaded and active for the forecast chart. An active recurring item the forecast counts but the query misses is a non-yearly item starting after the 1st of that month. |
| IncomeExpense.MidMonthStartExample | app/Filament/Widgets/IncomeExpenseChart.php:163-166 | A monthly income starting on 2025-03-15 is active for the forecast in March but fetched only from April. |
| IncomeExpense.FindSpec | app/Filament/Widgets/IncomeExpenseChart.php:99 | An array lookup misses exactly when no entry has the key. A hit returns the value of an entry with that key. |
| IncomeExpense.PutFind | app/Filament/Widgets/IncomeExpenseChart.php:177 | After assigning a value to a name, the name reads that value and every other name reads as before. |
| IncomeExpense.PutShape | app/Filament/Widgets/IncomeExpenseChart.php:177 | Assigning to a new name appends it at the end. Assigning to an existing name keeps the keys and their order. |
| IncomeExpense.CollectMonth | app/Filament/Widgets/IncomeExpenseChart.php:169-179 | The loop over the fetched items produces the month total and the month's name-to-amount map. |
| IncomeExpense.CurrentItemsUnique | app/Filament/Widgets/IncomeExpenseChart.php:177 | The month's map has each name at most once. |
| IncomeExpense.CurrentItemsFind | app/Filament/Widgets/IncomeExpenseChart.php:173-179 | A name is missing from the map exactly when none of its items contributes a positive amount. Otherwise the map holds the contribution of the last item with that name that contributes one. |
| IncomeExpense.TotalMatchesCurrentItems | app/Filament/Widgets/IncomeExpenseChart.php:173-179 | When names are distinct, the month total is the sum of the map's amounts. |
| IncomeExpense.DuplicateNameExample | app/Filament/Widgets/IncomeExpenseChart.php:173-179 | Two items named alike with 100 and 250 give a total of 350 but a map with only 250. |
| IncomeExpense.FirstWhere | app/Filament/Widgets/IncomeExpenseChart.php:96 | The lookup returns the first fetched item with that name: no earlier item has it. It returns nothing exactly when no fetched item has that name. |
| IncomeExpense.GenerateTooltipDetails | app/Filament/Widgets/IncomeExpenseChart.php:90-126 | The two loops produce the tooltip details: the current items' lines in map order, then one terminated line per vanished name. |
| IncomeExpense.ClassifyCurrentIff | app/Filament/Widgets/IncomeExpenseChart.php:94-116 | For one current name, the new, modified and temporary lines are produced exactly under their own conditions, and never a terminated line. |
| IncomeExpense.NewIff | app/Filament/Widgets/IncomeExpenseChart.php:99-101 | A new line for a name and amount appears exactly when the current map has that pair and the previous map lacks the name. |
| IncomeExpense.ModifiedIff | app/Filament/Widgets/IncomeExpenseChart.php:102-107 | A modified line appears exactly when the name is in both maps with different amounts. Its difference is the current amount minus the previous one. |
| IncomeExpense.TemporaryIff | app/Filament/Widgets/IncomeExpenseChart.php:95-115 | A temporary line appears exactly when the amount is unchanged and the first fetched item of that name has an end date. It carries that end date and the remaining payments from the month to it. |
| IncomeExpense.TerminatedIff | app/Filament/Widgets/IncomeExpenseChart.php:119-123 | A terminated line for a name appears exactly when the name is in the previous map and not in the current one. |
| IncomeExpense.StableItemSilent | app/Filament/Widgets/IncomeExpenseChart.php:94-116 | An unchanged name without an end date produces no line at all. |
| IncomeExpense.TerminatedExactlyOnce | app/Filament/Widgets/IncomeExpenseChart.php:119-123 | A vanished name is reported terminated exactly once. Any other name is never reported terminated. |
| IncomeExpense.AllNewWithoutPrevious | app/Filament/Widgets/IncomeExpenseChart.php:99-101 | Against an empty previous map, every current entry gives exactly one new line, in map order. |
| IncomeExpense.ProcessMonth | app/Filament/Widgets/IncomeExpenseChart.php:159-182 | One month's query, sums and tooltip give that month's total, map and details. |
| IncomeExpense.GetData | app/Filament/Widgets/IncomeExpenseChart.php:140-224 | One label per month; income and expense series with one total per month; a month's details recorded exactly when non-empty. Each month compares against the previous month's map, starting from an empty one. |
| IncomeExpense.SeriesStep | app/Filament/Widgets/IncomeExpenseChart.php:210-223 | Appending a month's total and storing its details only when non-empty extends the series facts by that month. |
| IncomeExpense.FirstMonthAllNew | app/Filament/Widgets/IncomeExpenseChart.php:150-182 | In the first month every current item is reported as new. |
| IncomeExpense.MonthsApart | app/Filament/Widgets/IncomeExpenseChart.php:155 | Chart months less than 12 apart have different calendar months. Months exactly 12 apart share the month, one year later. |
| IncomeExpense.SingleItemCurrent | app/Filament/Widgets/IncomeExpenseChart.php:173-179 | A lone item appears in the month's map exactly when it is fetched and contributes a positive amount. |
| IncomeExpense.YearlyUnpaidBetween | app/Filament/Widgets/IncomeExpenseChart.php:173-179 | In the 11 months after a yearly item fires, its map is empty. |
| IncomeExpense.YearlyTerminatedNextMonth | app/Filament/Widgets/IncomeExpenseChart.php:119-123 | The month after a yearly item fires, its tooltip is a single terminated line. |
| IncomeExpense.YearlyPaidAgain | app/Filament/Widgets/IncomeExpenseChart.php:163-175 | A yearly item with no end date that fires in a month is fetched again twelve months later and contributes its full amount. |
| IncomeExpense.YearlyNewAYearLater | app/Filament/Widgets/IncomeExpenseChart.php:99-101 | Twelve months after a yearly item fires, its tooltip is a single new line. |
| IncomeExpense.YearlyItemFlickers | app/Filament/Widgets/IncomeExpenseChart.php:173-182 | A positive yearly item with no end date is reported terminated the month after it fires, and new again a year later. |

## Left out

- `round(…, 2)` and `number_format`: amounts are exact reals. The tooltip lines and previews are datatypes, not the formatted French strings.
- `$monthTotal` (`app/Filament/Widgets/AccountEvolutionChart.php:232`): the `?? 0` fallback is not modelled. It never applies, because `AccountEvolution.GetData` proves every series has one entry per label.
- The emoji, the sign and the gendered wording of the tooltip lines are left out:
  - "terminé"/"terminée" and the "(nouveau)"/"(nouvelle)" suffix come from the label argument;
  - a modified line's emoji and sign follow from its difference;
  - the temporary item's three lines are one value.
- Chart dataset styling and colours, `getFilters`, `getOptions` and the chart heading: presentation only.
- `getFrequencyFormComponents`, `getAmountFormComponent` and `getAmountCalculationPlaceholder`: they are form scaffolding. The placeholder only wraps the preview text in HTML.
- Eloquent queries, eager loading and `groupBy`/`keyBy`: modelled as filters and folds over sequences.
  - The order of query results is unspecified, so the model takes the order of the given sequence.
  - The `MONTH(...)`/`YEAR(...)` SQL functions are read from the date record.
- `orderBy('adjustment_date')`: the model does not sort. `AccountEvolution.LatestAdjustmentWins` takes date order as a precondition; `AccountEvolution.AdjustmentIndexLastWins` holds for any order.
- `Carbon::now()`: the current date is a parameter. The time of day is not modelled, so every date is at midnight.
- `Carbon::parse` on the form's date strings is modelled as an optional parse result, without the parsing itself. The `(float)` cast of the amount field is modelled as an optional number.
- Item names are compared as plain strings. PHP turns numeric-string array keys such as "12" into integers, and `firstWhere` compares with loose `==`. Neither coercion is modelled, so names that differ as strings but collide under PHP's rules are kept apart here.
- Years before 1 and dates that are not valid calendar dates are not modelled.
- Per-user scoping of the queries and the models' relations: data-layer concerns, not part of this model.
- `AccountEvolution.WeeklyApproximation` bounds the 4.33 factor by the real weekly counts (4 or 5). It does not claim that 4.33 equals either.
