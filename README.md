# SpendWise expense tracker: a verified model of its core

SpendWise is a small Flask web application for personal expense tracking.
Users record expenses in categories, set a budget for each category, month
and year, and view a dashboard, a budgets page and a yearly analytics page.
This project models the parts of it that compute something:

- the aggregations of the `dashboard`, `budgets` (GET) and `analytics` handlers;
- the store updates of `delete_expense`, the budget upsert and the start-up
  seeding of the twelve default categories;
- the validation rules of the registration, expense, category and budget forms;
- the chart colour generator of the front end.

The database is modelled as sequences of `Category(id, name)`,
`Expense(id, userId, categoryId, amount, date)` and
`Budget(id, userId, categoryId, month, year, amount)` records.
A query without `order_by` returns rows in stored order. Mutations are
methods of the class `Storage.Store`. The view handlers are methods that take
a snapshot of the tables, the current user and the month or year as
parameters. Amounts are exact `real`s. A Python dict built by a `+=` loop is
an insertion-ordered list of `(key, total)` entries. Every `order_by` and
`sorted` uses one insertion sort (`Sorting.SortBy`), proved to return a
sorted permutation of its input.

Modules:
- `Calendar`: dates, the proleptic Gregorian month length used by `calendar.monthrange`, and month and year windows.
- `Sorting`: the sort.
- `Records`: the records and the query filters.
- `Grouping`: the per-category dicts.
- `Dashboard`, `BudgetsView`, `Analytics`: the three view handlers.
- `Seeding` and `Storage`: the writes.
- `Forms`: the form rules.
- `Chart`: `generateChartColors`.

Behaviour of the code worth knowing, which the model keeps:

- **Year choices are fixed at load time.** `BudgetForm`'s year choices are
  computed once, when the class is defined (forms.py:54-55), not each time a
  form is built. The model takes that year as a separate `loadYear`
  parameter. `now` is used only for the defaulting in `__init__`.
- **Zero amounts are refused.** `DataRequired` treats `0.0` as missing
  (forms.py:30, 51), so an expense or a budget of amount 0 cannot be
  submitted. Negative amounts pass, because no range rule exists.
- **A failed required check hides earlier errors.** `DataRequired` clears a
  field's parse and not-a-choice errors before reporting that the field is
  required, so such a field shows the required error alone.
- **Negative budgets get 0 percent.** The dashboard gives 0 for any budget
  that is not positive, not only for a zero budget (routes.py:102).
- **No duplicate-violation handling.** The code never turns a store-level
  duplicate violation into a validation error, so the model does not either.

## Model

| member | source | states |
|---|---|---|
| Calendar.DaysInMonth | routes.py:71 | a month has between 28 and 31 days; February has 29 exactly in Gregorian leap years |
| Calendar.MonthStart | routes.py:70 | the window start is a valid date in the requested year and month |
| Calendar.MonthEnd | routes.py:71 | the window end is a valid date in the requested month, and the day after it is not in that month (it is the last day) |
| Calendar.MonthWindow | routes.py:70-77 | a valid date passes the `start_date <= date <= end_date` filter exactly when its year and month are the requested ones |
| Calendar.YearWindow | routes.py:313-317 | a valid date passes the January 1 to December 31 filter exactly when its year is the requested one |
| Calendar.YearLength | routes.py:295-297 | the twelve month lengths add up to 366 days in a leap year and 365 otherwise |
| Sorting.Insert | routes.py:325 | inserting adds exactly one element: length grows by one and the multiset gains `x` |
| Sorting.SortBy | routes.py:325 | sorting keeps the length and the multiset of elements |
| Sorting.InsertSorted | routes.py:325 | inserting into a sorted list under a total preorder keeps it sorted |
| Sorting.SortBySorted | routes.py:325 | the sort returns a sorted permutation of its input under any total preorder |
| Records.FindCategory | routes.py:84 | `expense.category` finds a category with the referenced id, or reports that none has it |
| Records.CategoryName | routes.py:84 | `expense.category.name`: the name of the category the id resolves to |
| Records.SpendingMembers | routes.py:73-77 | an expense is selected exactly when it is in the table, belongs to the user and its date is in the closed window |
| Records.CategorySpending | routes.py:257-262 | as `Spending`, additionally restricted to one category id |
| Records.OwnedBy | routes.py:113 | exactly the user's expenses, a sub-multiset of the table |
| Records.BudgetsFor | routes.py:91-95 | a budget is selected exactly when it is the user's for that month and year |
| Records.DateOrderIsTotalPreorder | routes.py:113 | newest-first date order is total and transitive, so the sort applies |
| Records.NameLeTotal | routes.py:246 | lexicographic name order is total |
| Records.NameLeTransitive | routes.py:246 | lexicographic name order is transitive |
| Records.NameOrderIsTotalPreorder | routes.py:246 | ordering categories by name is a total preorder |
| Records.CategoriesByNameOrdered | routes.py:246 | `order_by(Category.name)` returns every category once, in non-decreasing name order |
| Records.TotalNonNegative | routes.py:79 | with no negative amount the sum is not negative |
| Records.TotalSnoc | routes.py:79 | the sum of amounts grows by the amount of an added expense |
| Grouping.IndexOf | routes.py:85 | `k in d`: the first position holding key `k`, or none |
| Grouping.Get | routes.py:100 | `d.get(k, 0)`: 0 when no entry holds `k`, otherwise the value of the entry holding it |
| Grouping.Accumulate | routes.py:85-88 | one step keeps every key in its place; the length grows by one, the new entry being the item itself, exactly when the key was absent, and stays the same otherwise |
| Grouping.AccumulateKeys | routes.py:85-88 | one step keeps the keys distinct and adds exactly the item's key |
| Grouping.AccumulateGet | routes.py:85-88 | one step adds the item's amount to the value under its key and changes no other key's value |
| Grouping.AccumulateSum | routes.py:85-88 | one step adds the item's amount to the sum of the values |
| Grouping.Group | routes.py:82-88 | the dict has at most one entry per item |
| Grouping.GroupByCategory | routes.py:82-88 | the `+=` loop builds the dict that `Group` defines over the (name, amount) pairs of the expenses |
| Grouping.AddAmount | routes.py:85-88 | the `if name in d` update and the insert of a new key together are one `Accumulate` step |
| Grouping.GroupDistinct | routes.py:82-88 | the dict never holds a key twice |
| Grouping.GroupKeys | routes.py:82-88 | its keys are exactly the names occurring among the items |
| Grouping.GroupGet | routes.py:85-100 | `d.get(k, 0)` is the sum of the amounts under `k`, and 0 for an absent key |
| Grouping.GroupSum | routes.py:82-88 | the values add up to the sum of all the amounts |
| Grouping.ByCategoryName | routes.py:83-84 | one (category name, amount) pair per expense |
| Grouping.ByCategoryNameTotal | routes.py:79-88 | the pairs' amounts add up to the expenses' total |
| Grouping.ByCategoryNameKeys | routes.py:84 | a name occurs exactly when some expense's category has that name |
| Grouping.TotalOrderIsTotalPreorder | routes.py:325 | largest-total-first is a total preorder |
| Grouping.SortKeepsSum | routes.py:325 | sorting the category totals does not change their sum |
| Dashboard.MonthExpensesAreThatMonth | routes.py:70-77 | for valid dates, `monthly_expenses` holds exactly the user's expenses of that calendar month |
| Dashboard.BudgetRows | routes.py:97-110 | one row per budget, in order, each with its category name, amount, spent under that name (0 when absent), remaining and guarded percentage |
| Dashboard.ShowDashboard | routes.py:66-113 | the month's total, the per-category dict, one row per budget of the month in query order (name, amount, spent defaulting to 0, remaining = budget - spent, percentage with the zero guard) and the recent list |
| Dashboard.Recent | routes.py:113 | `limit(5)`: at most five expenses are listed |
| Dashboard.RecentShape | routes.py:113 | the recent list has min(5, count) of the user's expenses, from any month, each once at most, in non-increasing date order |
| Dashboard.RecentIsNewest | routes.py:113 | an expense of the user left out of the recent list is no newer than any listed one, and then five are listed |
| Dashboard.CategoriesAddUpToTotal | routes.py:79-88 | the dict's keys are distinct and are exactly the category names of the month's expenses, and its values add up to `total_spent` |
| Dashboard.OverBudget | routes.py:101-102 | for a positive budget: remaining below 0 exactly when percentage is above 100, and remaining 0 exactly when percentage is 100 |
| BudgetsView.FirstBudgetFor | routes.py:251 | `next(...)` gives the first budget of that category in list order, and None exactly when there is none |
| BudgetsView.ShowBudgets | routes.py:239-272 | one row per category in name order: `has_budget` exactly when the month has a budget for it; with one, the first budget's amount and id; without, 0 and None; `spent` is the category's total in the month window |
| BudgetsView.CountIdSorted | routes.py:246 | sorting the categories does not change how often an id occurs |
| BudgetsView.SpentOverPartition | routes.py:257-264 | with distinct category ids and resolved expenses, the per-category spends over a list of categories add up to the month's total |
| BudgetsView.RowsAddUpToMonthTotal | routes.py:250-272 | with distinct category ids, the rows' `spent` values add up to the dashboard's `total_spent` for that month |
| Analytics.MonthlyUpTo | routes.py:294-309 | the month loop yields one bucket per month run so far |
| Analytics.MonthlyBuckets | routes.py:295-309 | bucket `i` is month `i + 1` with the total of the user's expenses in that month's window |
| Analytics.MonthTotalIsShares | routes.py:295-305 | for valid dates, month `k`'s total is the sum over all expenses of their amount when the expense is the user's and dated in month `k` of the year, and 0 otherwise |
| Analytics.YearExpensesAreThatYear | routes.py:313-317 | for valid dates, the year query holds exactly the user's expenses dated in that calendar year |
| Analytics.YearTotalIsShares | routes.py:313-322 | for valid dates, the year's total is the sum of the expenses' amounts counted in months 1 to 12 |
| Analytics.SharesSplit | routes.py:295 | what the expenses add to months 1..k is what they add to months 1..k-1 plus what they add to month k |
| Analytics.MonthsTotalIsShares | routes.py:294-309 | for valid dates, the totals of months 1..k add up to what the expenses add to months 1..k |
| Analytics.MonthsPartitionYear | routes.py:294-317 | for valid dates the twelve monthly totals add up to the total of the year's expenses |
| Analytics.ShowAnalytics | routes.py:290-325 | exactly 12 monthly buckets as specified, and the year's per-category dict sorted by total |
| Analytics.CategoriesLargestFirst | routes.py:325 | `sorted_categories` holds the same entries as the dict, in non-increasing order of total |
| Analytics.MonthsAndCategoriesAgree | routes.py:294-325 | the monthly totals and the category totals have the same sum, the year's total |
| Seeding.MissingFrom | app.py:56-59 | the loop never adds more names than it is given |
| Seeding.MissingDefaults | app.py:54-59 | a name is to be added exactly when it is a default name and no existing category has it |
| Seeding.MissingFromMembers | app.py:56-59 | a default name is added exactly when it was not among the existing names |
| Seeding.DefaultsDistinct | app.py:48-52 | the twelve default names are pairwise distinct |
| Seeding.MissingFromDistinct | app.py:48-59 | distinct names yield distinct additions |
| Seeding.SeedAddsExactlyTheMissing | app.py:54-59 | after seeding every default name is present; the added names are exactly the defaults that were absent, each once |
| Seeding.MissingFromAllPresent | app.py:56-57 | when every name is already present nothing is added |
| Seeding.SeedIdempotent | app.py:54-59 | seeding again, over the names the first run left, adds nothing |
| Seeding.NewCategories | app.py:58-59 | one new row per added name, in order, with consecutive ids |
| Seeding.AppendKeepsUnique | app.py:54-59 | appending rows for distinct absent names, with ids above every existing one, keeps ids and names unique |
| Storage.FindExpense | routes.py:162 | `get_or_404`: the position of the expense with that id, or none when no expense has it |
| Storage.WithoutMembers | routes.py:169 | a row is kept exactly when its id is not the deleted one |
| Storage.WithoutRemovesOne | routes.py:169 | with unique ids, deleting removes exactly the one row and keeps the others in order |
| Storage.WithoutNoop | routes.py:162-169 | removing an id no row has changes nothing |
| Storage.FindBudget | routes.py:200-205 | `.first()` finds the first row of the (user, category, month, year) tuple, or reports there is none |
| Storage.FindBudgetAppended | routes.py:213-220 | a row added for an absent tuple is found at the end |
| Storage.UpsertChangesOnlyTheTuple | routes.py:207-221 | an existing row gets only its amount replaced, or else exactly one row is appended; every other row is unchanged |
| Storage.UpsertKeepsOneRowPerTuple | routes.py:199-223 | at most one row per tuple is preserved, and afterwards the tuple has exactly one row, holding the submitted amount |
| Storage.UpsertTwice | routes.py:199-223 | submitting a tuple twice equals submitting the second amount once |
| Storage.SeedValid | app.py:54-61 | seeding keeps category ids and names unique and below the id counter |
| Storage.Store.constructor | app.py:43 | an empty database satisfies the store's key constraints |
| Storage.Store.DeleteExpense | routes.py:159-173 | a missing id gives NotFound and another user's expense Forbidden, in both cases with no change; otherwise exactly that expense is removed; the other tables never change |
| Storage.Store.SetBudget | routes.py:199-224 | the budget table becomes `Upsert` of the old one, the id counter advances only on insert, and the key constraints still hold |
| Storage.Store.AddMissingCategories | app.py:54-59 | the loop appends `NewCategories` for the names absent before it started, and nothing else changes |
| Storage.Store.SeedDefaultCategories | app.py:48-61 | the existing rows are kept as they were, the missing defaults are appended, the key constraints hold, and nothing changes when all defaults exist |
| Forms.Process | forms.py:30-33 | processing a typed field: the default when nothing is sent, no data and a parse error when the text does not parse |
| Forms.RequiredText | forms.py:8-11 | `DataRequired` on text: a blank value gives only the required error and stops that field's checks |
| Forms.LengthCheck | forms.py:8 | `Length(min, max)` passes exactly when the length is within the bounds |
| Forms.MaxLengthCheck | forms.py:31 | `Length(max)` passes exactly when the value is at most that long |
| Forms.UniqueCheck | forms.py:14-22 | an inline check raises its message exactly when the value is already in use |
| Forms.ParseCheck | forms.py:30-33 | a parse error is reported exactly when the submitted text did not parse |
| Forms.AmountErrors | forms.py:30 | an amount passes exactly when it parsed and is non-zero; an absent or zero amount gets the required error alone, hiding a parse error; every error is on the amount field |
| Forms.ChoiceErrors | forms.py:50-55 | a select passes exactly when it parsed to a non-zero value among the choices; an absent or zero value gets the required error alone; "not a valid choice" appears exactly when a non-zero value is not offered; every error is on the select's field |
| Forms.UsernameErrors | forms.py:8-17 | every error of the username field is on that field |
| Forms.EmailErrors | forms.py:9-22 | every error of the email field is on that field |
| Forms.ConfirmErrors | forms.py:11 | every error of the confirmation field is on that field |
| Forms.RegistrationErrors | forms.py:7-22 | every error is on one of the form's four input fields |
| Forms.RegistrationAccepted | forms.py:7-22 | registration is accepted exactly when the username is present, 3 to 50 long and not taken, the email is present, well formed and not registered, and a present confirmation equals a present password |
| Forms.RegistrationMessages | forms.py:8-22 | the taken-username and registered-email messages, the mismatch and the length errors each appear exactly when their condition holds on a present value |
| Forms.ChoiceIds | forms.py:38 | the select values are the categories' ids, in the given order |
| Forms.ChoiceIdsOfCategories | forms.py:38 | an id is offered exactly when some existing category has it |
| Forms.CategoryChoiceAccepted | forms.py:32-38 | the category select passes exactly when a non-zero id of an existing category was sent |
| Forms.ExpenseForm.constructor | forms.py:33-38 | the built form offers the categories ordered by name and gives a missing date today's date |
| Forms.ExpenseErrors | forms.py:29-33 | every error is on the amount, description, category or date field |
| Forms.ExpenseAccepted | forms.py:29-38 | an expense is accepted exactly when its amount is a non-zero number, its description at most 200 long, its category an existing non-zero id and its date, if sent, parses |
| Forms.CategoryErrors | forms.py:40-47 | every error is on the name field |
| Forms.CategoryAccepted | forms.py:40-47 | a name is accepted exactly when it is present, at most 50 long and not exactly an existing name; the exists message appears exactly when a present name is taken |
| Forms.Range | forms.py:53-55 | `range(lo, hi)` lists `lo` up to `hi - 1` in order |
| Forms.MonthChoices | forms.py:52-53 | the month choices are exactly 1 to 12, in order |
| Forms.YearChoices | forms.py:54-55 | the year choices are exactly `loadYear - 1` to `loadYear + 2`, in order |
| Forms.ChoiceRanges | forms.py:52-55 | a month is offered exactly when it is 1 to 12, a year exactly when it is between `loadYear - 1` and `loadYear + 2` |
| Forms.DefaultIfUnset | forms.py:66-69 | a supplied non-zero value is left unchanged, an unset one (absent or 0) becomes the current one, and parse errors are kept |
| Forms.UnsetMonthAndYearTakeNow | forms.py:62-69 | a request without month and year gets the current ones, which pass while the current year is still among the choices |
| Forms.BudgetForm.constructor | forms.py:58-69 | the built form offers the categories ordered by name and defaults unset month and year to the current ones |
| Forms.BudgetErrors | forms.py:49-55 | every error is on the category, amount, month or year field |
| Forms.BudgetAccepted | forms.py:49-69 | a budget is accepted exactly when its category is an existing non-zero id, its amount a non-zero number and its month and year, after defaulting, are among the choices |
| Chart.HexDigit | chart.js:15 | each digit value is written as a lower-case hex digit |
| Chart.ToHex | chart.js:15 | `toString(16)` yields at least one lower-case hex digit |
| Chart.DigitValue | chart.js:15 | a digit's value is below 16 and names that digit |
| Chart.ToHexRoundTrip | chart.js:15 | reading the hex digits back gives the number drawn |
| Chart.ToHexLength | chart.js:15 | a number below 16^k has at most k hex digits |
| Chart.RandomColorAsWritten | chart.js:15 | as written, the colour is `#` followed by at least one lower-case hex digit, and those digits read back as the number drawn |
| Chart.ShortRandomColors | chart.js:15 | as written, any draw below 0x100000 gives a colour shorter than `#rrggbb` |
| Chart.RandomColorAsWrittenExample | chart.js:15 | as written, the draw 167 gives `#a7` |
| Chart.RandomColor | chart.js:15 | the padded colour is `#` followed by six characters |
| Chart.RandomColorRoundTrip | chart.js:15 | the padded colour is six hex digits that read back as the number drawn |
| Chart.SliceTo | chart.js:20 | `slice(0, end)` yields a prefix: `end` elements for `0 <= end <= length`, all of them past the length, and for a negative `end` all but the last `-end`, none when that removes everything |
| Chart.PaletteShape | chart.js:5-9 | the palette has 12 colours, each `#` and six digits |
| Chart.GenerateChartColors | chart.js:4-21 | for 0 to 12 slices, the palette's first `count`; for more, the whole palette in order and then one random colour per extra slice, `count` in all; a negative count cuts from the end as `slice` does; every entry starts with `#` |

## Left out

- Flask routing, templates, `flash`, `redirect`, `request.args` parsing and the login session are not modelled. The current user, month and year are parameters.
- The `home`, `register`, `login`, `logout`, `expenses` and `categories` handlers (routes.py:10-60, 134-157, 175-191) and `LoginForm` are not modelled. `register`, `expenses` (POST) and `categories` (POST) validate a form and add a row; `login` checks a password hash and adds nothing; the GET sides list the user's expenses newest first and the categories by name. Their form rules are modelled in `Forms`.
- Password hashing is not modelled: it is a foreign call.
- The `Email()` validator is library code. Its verdict is a boolean parameter of `Forms.RegistrationErrors`.
- The texts of WTForms' own messages are not modelled. Each built-in check is a `Problem` kind. The messages the forms raise themselves are modelled word for word.
- SQLAlchemy, the commit, the engine options and the store's unique constraints are not modelled. `Storage.Store.Valid` states those constraints as an invariant of the tables; the database is what enforces them.
- The race between two concurrent check-then-insert requests is not modelled: it is concurrency.
- `strftime` month names, `str(y)` year labels, `json.dumps` and the chart label lists (routes.py:116-130, 327-343) are not modelled: they are formatting.
- The budgets GET writing the filter month and year back into the form (routes.py:235-236) is not modelled: it only affects rendering.
- Amounts are exact reals, not binary floats, so rounding in sums and percentages is not modelled.
- Names are compared and ordered by code point. The database's collation is not modelled.
- Rows with equal sort keys are kept in their stored order, an order SQL does not promise.
- Sorting.SortBy: stability is not proved. The analytics ordering relies only on sortedness and permutation.
- `createDoughnutChart`, `createBarChart` and all of `scripts.js` are not modelled: they are thin wrappers over Chart.js and DOM handlers.
- `Math.random` is modelled as the sequence `draws` of its scaled values.
- Chart.GenerateChartColors: uses the corrected, zero-padded colour from the finding below. It takes an integer count; JavaScript's fractional or NaN counts are not modelled.
- Dashboard.MonthExpensesAreThatMonth, Analytics.YearExpensesAreThatYear, Analytics.MonthTotalIsShares, Analytics.YearTotalIsShares, Analytics.MonthsTotalIsShares, Analytics.MonthsPartitionYear, Analytics.MonthsAndCategoriesAgree: require every expense date to be a valid calendar date, which the `Date` column guarantees.

## Findings

| source | as written | input that shows it | evidently intended | confidence | as-written member | corrected member |
|---|---|---|---|---|---|---|
| chart.js:15 | the random colour is `#` plus the draw in hexadecimal, with no zero padding | the draw 167 gives `#a7`, and any draw below 0x100000 gives fewer than six digits, which is no colour or a different one | `#` followed by exactly six hex digits, zero-padded | not executed | Chart.RandomColorAsWrittenExample | Chart.RandomColorRoundTrip |
