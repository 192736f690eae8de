# Expense ledger: a Dafny model

This project models the bookkeeping core of a personal expense tracker. The tracker has a FastAPI backend and a React frontend. The model covers:

- **Dashboard aggregation** (`DashboardStats.jsx`, `SpendingChart.jsx`). The total, the count and the per-category sums of the fetched expenses. The top category, picked by a strict `>` against a running maximum that starts at 0. The budget percentage, capped at 100, and its bar colour. The pie chart's breakdown, sorted by value, descending, and its colour index.
- **Receipt text parsing** (`ocr.py`). The amount comes from the bottom-most line containing `total` with a `\d+\.\d{2}` match, or is 0. The store name is the first non-blank stripped line, or `Unknown Store`. The OCR text is an input; Tesseract is not part of this model.
- **The REST handlers of `main.py`**, over an in-memory ledger: a class holding the expense, budget and category tables as sequences. It covers:
  - expense creation under a fresh id;
  - the date filter that includes the whole end day;
  - newest-first order with skip and limit;
  - the export selection with its header row;
  - update and delete, with a 404 for an unknown id;
  - the singleton budget upsert and its default (and the server error the handler as written gives instead);
  - the category seed, create and delete.
- **The client state** of `App.jsx` and `ExpenseForm.jsx`, as classes whose handlers replace or bump their fields:
  - refresh counters;
  - the OCR draft slot and the edit slot;
  - the date filter;
  - `initialData = ocrData || editingExpense`;
  - the draft-to-form mapping with its `Receipt from …`, `Unknown Store` and `Uncategorized` fallbacks;
  - the create-versus-update choice and the reset after a submit.
- **URL construction** in `api.js`: the `getExpenses` query string built with `+=`, the `exportExpenses` parameter list joined by `&`, and the per-id paths. A parser reads a query string back, and the round trip is proved.
- **The chat analyst** (`ai_analyst.py`):
  - the query is lower-cased and stripped;
  - the regular expressions become scanners with proved meanings;
  - the intents are tried in a fixed order, with the store alternation as written (and, separately, as corrected);
  - the database sums become folds over the expense sequence;
  - the recent-transactions answer is built in a loop.

Amounts are Dafny `real`s. Timestamps are integer seconds. A calendar date is a day number `d`, whose midnight is `d * 86400`. JavaScript truthiness is written out: a string is falsy when empty, a number when zero, and an absent value always. Strings are `seq<char>`, and all character classes are ASCII.

Modules: `Text` (string helpers), `Expenses` (rows, totals, newest-first order), `Grouping` (the per-category fold shared by the dashboard and the chart), `DashboardStats`, `SpendingChart`, `Ocr`, `Backend`, `ExpenseForm`, `App`, `Api`, `Analyst`.

Three behaviours of the code that differ from what one might expect, and that the model keeps:

- `budgetProgress` is `0` when there is no budget or the limit is not positive; it is not a separate "unset" value. It is capped at 100 only from above.
- `App.jsx` commits whichever expense response arrives. The model has no stale-response guard (`App.AppState.ReceiveExpenses`).
- The default-category effect of `ExpenseForm.jsx` runs once at mount. Its closure sees the mount-time form, whose category is always empty. So a non-empty list always sets the first name (`ExpenseForm.Form.OnCategoriesLoaded`).

## Model

| member | source | states |
|---|---|---|
| Text.Lower | backend/services/ai_analyst.py:13 | lower-casing keeps the length and maps each character through ASCII `lower()` |
| Text.Strip | backend/services/ocr.py:56 | the result has no whitespace at either end, and is empty exactly when the input is all whitespace |
| Text.StripKeeps | backend/services/ocr.py:56 | stripping only removes characters: every character of the stripped line is one of the line |
| Text.JoinSplit | backend/services/ocr.py:30 | joining the pieces of `split('\n')` gives back the text |
| Text.SplitJoin | frontend/src/api.js:18 | splitting a `join('&')` of pieces without `&` gives back the pieces |
| Text.NatToStringRoundTrip | frontend/src/api.js:6 | the decimal rendering of `skip`/`limit`/an id reads back as the same number |
| Text.NatToStringInjective | frontend/src/api.js:78-86 | distinct numbers render to distinct strings |
| Expenses.TotalAppend | frontend/src/components/DashboardStats.jsx:7 | the sum of amounts of a concatenation is the sum of the two sums |
| Expenses.TotalPermutation | frontend/src/components/DashboardStats.jsx:7 | the sum of amounts does not depend on the order of the rows |
| Expenses.TotalNonNegative | frontend/src/components/DashboardStats.jsx:7 | with non-negative amounts the total is non-negative, and 0 for no rows |
| Expenses.InsertNewest | backend/main.py:57 | inserting a row into a newest-first list keeps it newest-first and adds exactly that row |
| Expenses.NewestFirst | backend/main.py:57 | `order_by(created_at desc)`: the result is ordered newest first and is a permutation of the rows |
| Expenses.NewestFirstLength | backend/main.py:57 | ordering keeps every row |
| Expenses.Window | backend/main.py:57 | `offset(skip).limit(limit)`: at most `limit` rows, none when `skip` passes the end, otherwise `min(limit, n - skip)` rows, row `k` being input row `skip + k` |
| Grouping.Keys | frontend/src/components/DashboardStats.jsx:12-15 | the keys of the accumulator object: pairwise distinct, one for every expense's category, never more than the expenses |
| Grouping.KeysFromExpenses | frontend/src/components/DashboardStats.jsx:12-15 | every key comes from some expense |
| Grouping.AbsentKeyTotal | frontend/src/components/DashboardStats.jsx:13 | a category no expense has sums to 0 |
| Grouping.GroupTotals | frontend/src/components/SpendingChart.jsx:8-15 | the in-place accumulation into a map, followed by `Object.entries`, yields the entries of the per-category breakdown in first-insertion order |
| Grouping.ObjectEntries | frontend/src/components/SpendingChart.jsx:14-15 | `Object.entries` of the accumulator: one entry per key, in key order, carrying that key's slot |
| Grouping.AccumulatedEntries | frontend/src/components/DashboardStats.jsx:12-15 | after the whole pass, the accumulator's entries are exactly the per-category breakdown |
| Grouping.EntriesMeaning | frontend/src/components/SpendingChart.jsx:9-15 | the entries are a breakdown: names distinct, one per category that occurs, each valued at the sum spent under it; there are none exactly when there are no expenses |
| Grouping.EntriesSumToTotal | frontend/src/components/SpendingChart.jsx:9-15 | the values of the breakdown add up to the total of all amounts |
| Grouping.EntryOfExpense | frontend/src/components/SpendingChart.jsx:9-12 | every expense's category has an entry |
| Grouping.ExpenseOfEntry | frontend/src/components/SpendingChart.jsx:14-15 | every entry's name is some expense's category |
| Grouping.EntriesNamesDistinct | frontend/src/components/SpendingChart.jsx:14-15 | no two entries share a name |
| Grouping.EntriesValues | frontend/src/components/DashboardStats.jsx:12-15 | each entry's value is the sum of the amounts of the expenses under exactly its name |
| DashboardStats.TopCategory | frontend/src/components/DashboardStats.jsx:17-25 | the strict-`>` scan from 0 yields `'-'` when no category total is positive, otherwise the first entry holding the maximum |
| DashboardStats.TopCategoryUnique | frontend/src/components/DashboardStats.jsx:20-24 | the top category is determined by the entries: two results of the scan are equal |
| DashboardStats.TopCategoryIsArgmax | frontend/src/components/DashboardStats.jsx:17-25 | over the expenses: `'-'` when no category total is positive, otherwise a category whose total is at least every category's total |
| DashboardStats.EmptyHasNoTopCategory | frontend/src/components/DashboardStats.jsx:17 | no expenses give `'-'` |
| DashboardStats.ComputeStats | frontend/src/components/DashboardStats.jsx:6-28 | `total` is the sum of the amounts, `count` the number of expenses, `topCategory` the top category of the exact-name breakdown |
| DashboardStats.BudgetProgress | frontend/src/components/DashboardStats.jsx:44-47 | 0 without a budget or with a limit not above 0; otherwise `total / limit * 100` capped at 100; never above 100, and not negative for a non-negative total |
| DashboardStats.DefaultBudgetShowsNA | frontend/src/components/DashboardStats.jsx:44-47 | the default budget (limit 0) and a card still without a budget both show 'N/A' and progress 0 |
| DashboardStats.ProgressNeverRed | frontend/src/components/DashboardStats.jsx:46-49 | because of the cap the colour is never red; it is yellow exactly when the progress exceeds 75 |
| DashboardStats.BudgetCard.constructor | frontend/src/components/DashboardStats.jsx:30 | the card starts without a budget |
| DashboardStats.BudgetCard.OnBudgetFetched | frontend/src/components/DashboardStats.jsx:32-42 | a fetched budget replaces the old one; a failed fetch leaves it |
| DashboardStats.BudgetCard.Progress | frontend/src/components/DashboardStats.jsx:44-47 | the card's percentage lies in [0, 100] for a non-negative total |
| SpendingChart.InsertByValue | frontend/src/components/SpendingChart.jsx:16 | inserting into a value-descending list keeps it descending, adds exactly that entry and its value |
| SpendingChart.SortByValue | frontend/src/components/SpendingChart.jsx:16 | `sort((a, b) => b.value - a.value)`: descending by value, a permutation of the entries, the same sum |
| SpendingChart.InsertStable | frontend/src/components/SpendingChart.jsx:16 | an inserted slice goes before the slices of equal value, and the slices of every value keep their order |
| SpendingChart.SortStable | frontend/src/components/SpendingChart.jsx:16 | the sort is stable, as JavaScript's is: for every value, the slices of that value keep their input order |
| SpendingChart.InsertKeepsNamesDistinct | frontend/src/components/SpendingChart.jsx:14-16 | inserting a new name keeps the names distinct |
| SpendingChart.SortKeepsNamesDistinct | frontend/src/components/SpendingChart.jsx:14-16 | sorting keeps the names distinct |
| SpendingChart.BreakdownReordered | frontend/src/components/SpendingChart.jsx:14-16 | any reordering of a breakdown with distinct names is still a breakdown |
| SpendingChart.ChartData | frontend/src/components/SpendingChart.jsx:7-17 | the chart data is a breakdown with falsy categories under 'Uncategorized', sorted by value descending, summing to the total; slices of equal value keep the first-insertion order of their categories; it is empty exactly when there are no expenses (the placeholder case, lines 19-25) |
| SpendingChart.FalsyCategoryIsUncategorized | frontend/src/components/SpendingChart.jsx:10 | an expense with an empty category is counted under 'Uncategorized' |
| SpendingChart.SliceColor | frontend/src/components/SpendingChart.jsx:43 | slice `i` takes `COLORS[i % 7]`, always one of the seven colours |
| Ocr.RunEnd | backend/services/ocr.py:38 | the end of the maximal run of digits starting at `i` |
| Ocr.MatchesAtMeaning | backend/services/ocr.py:38 | `\d+\.\d{2}` matches at `i` exactly over the greedy digit run, a dot and two digits |
| Ocr.Search | backend/services/ocr.py:38 | `re.search`: the leftmost position where the price pattern matches, or none when it matches nowhere |
| Ocr.SearchStartsAtRun | backend/services/ocr.py:38 | the leftmost match starts at the beginning of a run of digits |
| Ocr.MatchValue | backend/services/ocr.py:41 | the matched price is never negative |
| Ocr.ExtractAmount | backend/services/ocr.py:21-49 | the bottom-up loop returns the price of the bottom-most line containing `total` (any case) with a price match, or 0.0 when there is none; never negative |
| Ocr.BottomLineAmount | backend/services/ocr.py:33-41 | the price on the bottom-most qualifying line is the extracted amount |
| Ocr.NoLineAmount | backend/services/ocr.py:49 | without a qualifying line the amount is 0.0 |
| Ocr.ExtractedAmountUnique | backend/services/ocr.py:30-49 | the extracted amount is determined by the lines |
| Ocr.PriceRoundTrip | backend/services/ocr.py:38 | a price `w.cc` written after non-digit text is found and read back as `w + cc/100` |
| Ocr.SearchFrom | backend/services/ocr.py:38 | the search finds the first position that matches |
| Ocr.BottomPriceLine | backend/services/ocr.py:33-41 | when the last line is a `total` caption followed by `w.cc`, the amount is `w + cc/100`, whatever the lines above say |
| Ocr.SampleTotalLine | backend/test_ocr.py:10-23 | a receipt ending in `Total: 25.50` yields 25.5; the `Item 1 10.00` line above it plays no part |
| Ocr.FirstNonBlank | backend/services/ocr.py:56-57 | the first line that is non-empty after stripping, or none when all are blank |
| Ocr.ExtractStoreName | backend/services/ocr.py:51-60 | the store name is never empty and never starts or ends with whitespace |
| Ocr.StoreNameIsFirstLine | backend/services/ocr.py:56-59 | the store name is the first non-blank line, stripped |
| Ocr.StoreNameOfBlankText | backend/services/ocr.py:60 | all-blank text gives 'Unknown Store' |
| Ocr.StoreNameOfFirstLine | backend/services/ocr.py:56-59 | a text whose first line has content is named after that line, stripped |
| Ocr.ProcessReceipt | backend/services/ocr.py:62-72 | the result echoes the text, carries the extracted amount (non-negative) and store name, and the category 'Uncategorized' |
| Ocr.UnreadableReceipt | backend/services/ocr.py:49-60 | an empty OCR text gives amount 0.0 and 'Unknown Store' |
| Backend.Filtered | backend/main.py:47-55 | a row is selected exactly when it is in the table, at or after midnight of the start day, and before midnight of the day after the end day |
| Backend.SameDayRange | backend/main.py:48-55 | with start and end on the same day, exactly that day's rows are selected |
| Backend.ExportIsUnlimitedRead | backend/main.py:57-72 | the export selects what a read with no effective limit selects |
| Backend.NextId | backend/main.py:26-32 | a new row's id exceeds every id in the table, and is 1 for an empty table |
| Backend.NextCategoryId | backend/main.py:151-157 | likewise for categories |
| Backend.IndexOfId | backend/main.py:175-184 | `filter(id == …).first()`: the position of the row with that id, or none when no row has it |
| Backend.IndexOfCategory | backend/main.py:164 | the same lookup on the category table |
| Backend.Names | backend/main.py:141-149 | the names of the category rows, in order |
| Backend.DefaultCategoriesDistinct | backend/main.py:144 | the eight default names are distinct, so seeding respects the unique name column (models.py:26) |
| Backend.RemoveKeepsAscending | backend/main.py:178 | removing a row keeps the ids ascending |
| Backend.RemoveCategoryKeepsValid | backend/main.py:167 | removing a category keeps ids ascending and names distinct |
| Backend.Ledger.constructor | backend/main.py:24 | the tables start empty |
| Backend.Ledger.CreateExpense | backend/main.py:26-32 | the new row is appended with the given fields, the current time and an id no other row has; nothing else changes |
| Backend.Ledger.ReadExpenses | backend/main.py:39-58 | the rows are the date-filtered table, newest first, after `skip` rows and at most `limit` of them (a negative `skip` skips nothing and a negative `limit` keeps all rows, as SQLite treats them); each is a stored row within the range |
| Expenses.SqlWindow | backend/main.py:56 | `.offset(skip).limit(limit)` on any integers: at most `limit` rows for a non-negative limit, every row from the offset on for a negative one, nothing past the end |
| Backend.Ledger.ExportExpenses | backend/main.py:60-93 | the header is `ID, Date, Amount, Category, Store, Description`; the rows are newest first and exactly the filtered rows (as a multiset) |
| Backend.Ledger.UpdateExpense | backend/main.py:182-193 | 404 exactly when the id is unknown, and then nothing changes; otherwise the four fields are replaced in place, keeping id and `created_at` |
| Backend.Ledger.DeleteExpense | backend/main.py:173-180 | 404 exactly when no row has the id, and then nothing changes; otherwise exactly that row is removed |
| Backend.Ledger.GetBudget | backend/main.py:128-135 | as the handler evidently means it: the stored budget, or `0`/'monthly' when there is none |
| Backend.Ledger.GetBudgetAsWritten | backend/main.py:128-135 | as written: the stored budget, or a server error when there is none, because the unsaved default has no id and the response model requires one |
| Backend.BudgetAsWrittenDiffers | backend/main.py:128-135 | the two agree when a budget is stored; with none, the written handler fails where the meant one gives the default |
| Backend.Ledger.UpsertBudget | backend/main.py:113-126 | afterwards there is exactly one budget, the given one, and a later get returns it |
| Backend.Ledger.ReadCategories | backend/main.py:139-149 | a non-empty table is listed unchanged; an empty one is first seeded with the eight defaults in order, each coloured 'blue' (models.py:27) |
| Backend.Ledger.CreateCategory | backend/main.py:151-157 | a taken name fails the unique constraint (models.py:26) and stores nothing; otherwise the row is appended with a fresh id |
| Backend.Ledger.DeleteCategory | backend/main.py:162-169 | 404 exactly when no category has the id, and then nothing changes; otherwise exactly that row is removed |
| ExpenseForm.DraftOfReceipt | backend/services/ocr.py:67-72 | an upload response becomes a draft with no id, carrying its amount, category and store |
| ExpenseForm.DraftOfExpense | frontend/src/App.jsx:129 | an expense being edited becomes a draft carrying its id and fields |
| ExpenseForm.FormFromDraft | frontend/src/components/ExpenseForm.jsx:31-40 | amount `''` exactly when the draft's is 0; category from the draft, else the first loaded name, else 'Uncategorized'; description `Receipt from <store>` exactly when the store is truthy; store name never empty, 'Unknown Store' when the draft's is falsy |
| ExpenseForm.FormIgnoresDescription | frontend/src/components/ExpenseForm.jsx:36 | the draft's own description never reaches the form |
| ExpenseForm.ReceiptForm | frontend/src/components/ExpenseForm.jsx:34-37 | an OCR result fills in its store, `Receipt from <store>` and 'Uncategorized' |
| ExpenseForm.EditWithoutStore | frontend/src/components/ExpenseForm.jsx:36-37 | editing an expense without a store shows 'Unknown Store' and an empty description |
| ExpenseForm.SetField | frontend/src/components/ExpenseForm.jsx:42-45 | only the named field takes the typed value |
| ExpenseForm.ChooseRequest | frontend/src/components/ExpenseForm.jsx:50-60 | an update exactly when editing and the draft has a non-zero id, sent to that id; otherwise a create; both carry the form |
| ExpenseForm.ReceiptDraftCreates | frontend/src/components/ExpenseForm.jsx:50 | an OCR draft always creates, even while editing |
| ExpenseForm.EditUpdates | frontend/src/components/ExpenseForm.jsx:50-54 | editing a stored expense updates it under its id |
| ExpenseForm.Form.constructor | frontend/src/components/ExpenseForm.jsx:6-13 | the four fields start empty, with no categories |
| ExpenseForm.Form.OnCategoriesLoaded | frontend/src/components/ExpenseForm.jsx:15-29 | loaded categories are stored, and a non-empty list sets the category to its first name; a failure changes nothing |
| ExpenseForm.Form.OnInitialData | frontend/src/components/ExpenseForm.jsx:31-40 | a draft replaces the form by its mapping; no draft leaves it |
| ExpenseForm.Form.HandleChange | frontend/src/components/ExpenseForm.jsx:42-45 | the form changes in the named field only |
| ExpenseForm.Form.HandleSubmit | frontend/src/components/ExpenseForm.jsx:47-67 | the request is the create-or-update choice on the current form; success clears the four fields and reports the addition, failure keeps them and reports nothing |
| ExpenseForm.Form.CancelEdit | frontend/src/components/ExpenseForm.jsx:79-82 | cancel clears the four fields and keeps the categories |
| App.InitialDataOf | frontend/src/App.jsx:129 | the OCR draft when present, else the edited expense, else nothing |
| App.DraftWhileEditingCreates | frontend/src/App.jsx:129-130 | with an OCR draft present, a submit while editing creates a new expense |
| App.EditingUpdates | frontend/src/App.jsx:129-130 | without a draft, a submit while editing updates the edited expense |
| App.AppState.constructor | frontend/src/App.jsx:15-21 | counters at 0, every slot empty, no expenses |
| App.AppState.HandleDateChange | frontend/src/App.jsx:52-55 | kind 'start' sets only the start date, any other kind only the end date |
| App.AppState.HandleClearFilters | frontend/src/App.jsx:57-60 | both dates are cleared and nothing else changes |
| App.AppState.HandleExpenseAdded | frontend/src/App.jsx:62-66 | the list counter grows by exactly one and both slots are cleared, so the form has no initial data and is not editing |
| App.AppState.HandleUploadSuccess | frontend/src/App.jsx:68-70 | the newest OCR result replaces the draft and becomes the form's initial data; editing is unaffected |
| App.AppState.OnEdit | frontend/src/App.jsx:154 | the chosen expense fills the edit slot |
| App.AppState.OnCancelEdit | frontend/src/App.jsx:131 | the edit slot is cleared and the OCR draft is kept |
| App.AppState.OnBudgetUpdated | frontend/src/App.jsx:121 | the budget counter grows by one and the expense fetch's dependencies stay the same |
| App.AppState.OnRefreshList | frontend/src/App.jsx:144-155 | the list counter grows by one, so the expense fetch runs again |
| App.AppState.ReceiveExpenses | frontend/src/App.jsx:39-50 | a successful response replaces the expenses, whichever request it answers; a failure leaves them |
| App.Run | frontend/src/App.jsx:62-155 | over any sequence of handlers the counters never decrease and each grows by exactly the number of events that bump it |
| App.CountAppend | frontend/src/App.jsx:62-155 | one more event adds one bump exactly when it is a bumping handler |
| Api.ApiUrl | frontend/src/api.js:3 | the base URL is the environment's value when truthy, else `http://localhost:8000`; never empty |
| Api.Rendered | frontend/src/api.js:16-17 | each parameter renders as `key=value` |
| Api.ParseQuery | frontend/src/api.js:18 | the inverse reading: one parameter per `&`-separated piece |
| Api.ParamRoundTrip | frontend/src/api.js:16-17 | a rendered parameter whose key has no `=` reads back as itself |
| Api.QueryRoundTrip | frontend/src/api.js:18 | a `&`-joined list of plain parameters reads back as the same list |
| Api.DateParams | frontend/src/api.js:7-8 | `start_date` present exactly when the start is truthy, `end_date` exactly when the end is, start first |
| Api.ExpenseParams | frontend/src/api.js:6-8 | `skip` and `limit` always first, in that order, followed by the date parameters |
| Api.GetExpensesUrl | frontend/src/api.js:5-8 | the URL built with `+=` is the base, `/expenses/?` and the `&`-joined parameter list |
| Api.ExpensesQueryRead | frontend/src/api.js:6-8 | with dates free of `&`, the query string reads back as the parameter list |
| Api.ExpenseParamsKeys | frontend/src/api.js:6-8 | `skip` then `limit` lead; `start_date` and `end_date` occur exactly when truthy, start before end |
| Api.DefaultExpensesUrl | frontend/src/api.js:5-6 | the defaults give `…/expenses/?skip=0&limit=100` |
| Api.ExportUrl | frontend/src/api.js:13-18 | pushing the present dates and joining them gives the bare path without parameters, and otherwise one `?` followed by the `&`-joined list |
| Api.ExportQueryRead | frontend/src/api.js:14-18 | no `?` without dates; otherwise the part after the single `?` reads back as exactly the present date parameters |
| Api.ExpensePathId | frontend/src/api.js:78-86 | update and delete target the same URL: the base, `/expenses/`, and the id in decimal, which reads back as the id |
| Api.ExpensePathInjective | frontend/src/api.js:78-86 | distinct ids give distinct expense URLs |
| Api.CategoryPathId | frontend/src/api.js:66-69 | the category delete URL is the base, `/categories/`, and the id, which reads back as the id |
| Analyst.NormalizeMeaning | backend/services/ai_analyst.py:13 | the normalized query has no whitespace at its ends, and every character in it is the lower-cased form of a character of the query, never an upper-case letter |
| Analyst.InOrderLater | backend/services/ai_analyst.py:16 | a match of `w1.*w2…` from a later position is one from an earlier position |
| Analyst.FindInOrderMeaning | backend/services/ai_analyst.py:16 | the scanner for `w1.*w2.*…` succeeds exactly when the words occur in order, without overlap, on one line |
| Analyst.InOrderSecond | backend/services/ai_analyst.py:16 | a match of the total pattern contains its second word |
| Analyst.TotalQueryMeaning | backend/services/ai_analyst.py:16 | the total test holds exactly when some line has `total…spent` or `how much…spent…total` |
| Analyst.RunEnd | backend/services/ai_analyst.py:21-30 | the end of the maximal run of `\s` or `\w` characters |
| Analyst.CaptureWithMeaning | backend/services/ai_analyst.py:21-30 | `kw\s+(\w+)` matches at a position exactly when a capture is produced; the capture is the longest word run after the whitespace, and its start is unique |
| Analyst.SpaceRunBeforeWord | backend/services/ai_analyst.py:21-30 | in any match, the whitespace run is maximal and the word ends within the maximal word run |
| Analyst.CaptureFrom | backend/services/ai_analyst.py:21-30 | an alternation tries its alternatives in order: no capture exactly when none matches, otherwise the first that does |
| Analyst.FirstAlternativeWins | backend/services/ai_analyst.py:21-30 | when the first alternative matches, it gives the capture, whatever the later ones would give |
| Analyst.SearchFrom | backend/services/ai_analyst.py:21-30 | `re.search` reports the leftmost matching position |
| Analyst.Group | backend/services/ai_analyst.py:21-32 | `group(1)` is the capture at the leftmost matching position, and there is none exactly when nothing matches |
| Analyst.LeftmostUnique | backend/services/ai_analyst.py:21-32 | there is only one leftmost match |
| Analyst.GroupAtLeftmost | backend/services/ai_analyst.py:21-32 | `group(1)` is the capture at whichever position is the leftmost match |
| Analyst.LeftmostAfterNoA | backend/services/ai_analyst.py:30 | with no `a` before a matching position, the store pattern's leftmost match is there |
| Analyst.CaptureAtKeyword | backend/services/ai_analyst.py:21-30 | a capture starts at an occurrence of one of the keywords |
| Analyst.AsWrittenCapturesThe | backend/services/ai_analyst.py:30 | as written, at an `at the` the first alternative `at` already matches and captures the word starting with `the` |
| Analyst.AtCapturesNextWord | backend/services/ai_analyst.py:30 | wherever `at the` occurs, `at` followed by whitespace matches as well, and its group is the word run starting at `the` |
| Analyst.AtTheAsWritten | backend/services/ai_analyst.py:30 | as written, a question `<pre>at the <w>` with no `a` in `pre` yields the store name "the" |
| Analyst.AsWrittenStoreIsThe | backend/services/ai_analyst.py:30 | as written, where the leftmost `a` starts `at the ` the store is "the" |
| Analyst.StoreWordsCorrected | backend/services/ai_analyst.py:30 | with the longer alternative first, an `at the` match captures the word after `the`, and otherwise the result is as written |
| Analyst.AtTheCorrected | backend/services/ai_analyst.py:30 | corrected, a question `<pre>at the <w>` with no `a` in `pre` yields the store name `w` |
| Analyst.CorrectedStoreIsWord | backend/services/ai_analyst.py:30 | corrected, where the leftmost `a` starts `at the ` followed by a word to the end, the store is that word |
| Analyst.AtTheQuery | backend/services/ai_analyst.py:16-33 | with no `n` or `f`, a question `<pre>at the <w>` reaches the store branch: "the" as written, `w` as corrected |
| Analyst.HowMuchAtTheUber | backend/services/ai_analyst.py:16-33 | "how much at the uber" asks for the store "the" as written and "uber" as corrected, and as written is answered for "the" |
| Analyst.NoCaptureWithoutA | backend/services/ai_analyst.py:30 | no `a…` keyword captures at a position not holding `a` |
| Analyst.ClassifyPrecedence | backend/services/ai_analyst.py:15-39 | for either store alternation, each intent is chosen exactly when its own test passes and every earlier one fails: total, then category (a captured word and neither "store" nor "shop"), then store, then recent, then the fallback; the category and store are the captured words |
| Analyst.CategoryWordFollowsKeyword | backend/services/ai_analyst.py:21-26 | the category is the word run after the leftmost `on`/`in`/`for` and whitespace, from the first of the three that matches there |
| Analyst.MissingSpentLetterNotTotal | backend/services/ai_analyst.py:16 | both total patterns need `spent`, so a query lacking one of its letters does not ask for the total |
| Analyst.NoGroupWithoutKeywords | backend/services/ai_analyst.py:21-30 | without any keyword there is no capture |
| Analyst.NoNOrFNoCategory | backend/services/ai_analyst.py:21 | without `n` and `f` no category is captured |
| Analyst.NoTNoStore | backend/services/ai_analyst.py:30 | without `t` no store is captured, in either order of the alternatives |
| Analyst.NoTNoRecent | backend/services/ai_analyst.py:36 | without `t` neither "recent" nor "last transaction" occurs |
| Analyst.NoKeyLettersIsUnknown | backend/services/ai_analyst.py:16-39 | a query without `t`, `n` and `f` matches no intent, as written and as corrected |
| Analyst.NormalizedLacks | backend/services/ai_analyst.py:13 | a character no query letter lower-cases to is absent from the normalized query |
| Analyst.GreetingsQualify | backend/services/test_ai.py:28-29 | "hello" and "help" are written with greeting letters only |
| Analyst.GreetingsAreUnknown | backend/services/test_ai.py:28-29 | a query written only with the letters of "hello" and "help" (either case) matches no intent, as written and as corrected |
| Analyst.SumOfAll | backend/services/ai_analyst.py:42 | summing over every row gives the total |
| Analyst.SumOfNone | backend/services/ai_analyst.py:42-55 | `sum(...) or 0.0`: no selected row gives 0 |
| Analyst.SumOfPositive | backend/services/ai_analyst.py:47-55 | with positive amounts the sum is non-negative, and positive once a row is selected |
| Analyst.LikeFrom | backend/services/ai_analyst.py:55 | the `contains` scan succeeds exactly when the pattern matches (with `_` matching any character) at some position |
| Analyst.ContainingStoreMatches | backend/services/ai_analyst.py:55 | a store whose lower-cased name contains the lower-cased query name is selected |
| Analyst.Capitalize | backend/services/ai_analyst.py:51-59 | `capitalize()`: the first character upper-cased, the rest lower-cased, the length kept |
| Analyst.CategoryNotFoundIff | backend/services/ai_analyst.py:45-51 | with positive amounts, "couldn't find any spending for the category" is the answer exactly when no row's category equals the name ignoring case |
| Analyst.StoreNotFoundIff | backend/services/ai_analyst.py:53-59 | with positive amounts, "couldn't find any spending at" is the answer exactly when no row's store contains the name |
| Analyst.LineOf | backend/services/ai_analyst.py:68-70 | a line shows the row's date and amount, and its store or 'Unknown Store' when that is falsy |
| Analyst.LinesOf | backend/services/ai_analyst.py:67-70 | one line per row, in order |
| Analyst.RecentTransactionsOf | backend/services/ai_analyst.py:61-71 | the loop that appends one line per row builds the recent-transactions answer |
| Analyst.AppendLines | backend/services/ai_analyst.py:67-70 | the loop appends one line per row, in order, giving the lines of those rows |
| Analyst.RecentReplyLength | backend/services/ai_analyst.py:62-64 | "No recent transactions found." exactly for an empty ledger; otherwise `min(3, n)` lines |
| Analyst.RecentReplyNewestFirst | backend/services/ai_analyst.py:62 | the lines are newest first and the first is at least as recent as every row |
| Analyst.RecentLinesFromTable | backend/services/ai_analyst.py:62-70 | every line shows some stored row |
| Analyst.Analyze | backend/services/ai_analyst.py:12-39 | the answer is the one for the intent of the normalized query, with the store alternation as written |
| Analyst.GreetingsStillLearning | backend/services/test_ai.py:28-29 | such a query, "hello" and "help" among them, gets the "I'm still learning!" answer (line 39), as written and as corrected |

## Left out

- Network and transport are not modelled: axios calls, `window.open`, FastAPI routing and CORS, and the upload endpoint's temporary file (`main.py:95-111`). A response enters the model as an `Option` parameter, `None` standing for a failed request.
- Asynchrony and the order in which responses resolve are not modelled, because the code has no stale-response guard. `ReceiveExpenses` commits whatever response it is given.
- `clearExpenses` (`api.js:73-76`) is not modelled, because the backend has no route for it.
- The create, upload, budget, chat and category-list calls of `api.js` are not modelled. They are single fixed paths around I/O.
- OCR itself (`extract_text_from_image`, Tesseract, PIL) is not part of this model. The recognised text is an input.
- SQLAlchemy sessions and `database.py` are replaced by sequences. `created_at`'s server default is the `now` parameter of `CreateExpense`.
- Ids follow SQLite's rule: one more than the largest id in the table. So the id of a deleted newest row is used again.
- Ties in `ORDER BY created_at DESC` are modelled in table order. The database leaves their order unspecified.
- Floating point is not modelled. Amounts are exact reals, so `float()`, `parseFloat`, `toFixed`, `:.2f` and `strftime` formatting are left out. An answer carries the numbers and the date, not the formatted text.
- ExpenseForm.Form.HandleSubmit: the amount is sent as the form's text or number, because `parseFloat` is left out.
- The CSV writer's quoting and the date formatting of the export are left out. `ExportExpenses` returns the header and the selected rows.
- Analyst.Normalize: lower-casing, stripping, `\d`, `\s` and `\w` are ASCII-only. Python's are Unicode-aware. The whitespace set is Python's ASCII one, U+001C to U+001F included; non-ASCII spaces such as U+00A0 are not whitespace here.
- Backend.Filtered: timestamps are compared as instants. SQLite stores `created_at` as `YYYY-MM-DD HH:MM:SS` text and the bounds are bound as `... 00:00:00.000000`, so the text comparison excludes a row stamped exactly at midnight of the start day and includes one stamped exactly at midnight after the end day. These one-second edges are not modelled.
- Analyst.TotalQueryMeaning: the regex `.` is modelled as not crossing a newline, as in Python. The pattern may still match on any one line.
- The dashboard's `Object.entries` order is first-insertion order. The JavaScript quirk that lists integer-like keys first is left out.
- React rendering, hook scheduling, the theme toggle and the other UI components are not modelled.
- App.AppState.ReceiveExpenses: does not model which request a response answers, because the source does not track it.
- Backend.Ledger.CreateCategory: a taken name fails the unique constraint of `models.py:26`. The source surfaces this as a server error; the model returns `Conflict` and stores nothing.
- Grouping.GroupTotals: category names that are members of `Object.prototype` (`constructor`, `toString`, `valueOf`, `__proto__`, ...) are not modelled. In the source, `acc[cat] || 0` reads the inherited member for such a name, so the sum for it is a string concatenation or the assignment is lost; the model treats every name as an ordinary key.

## Findings

| source | as written | input that shows it | evidently intended | confidence | as-written member | corrected member |
|---|---|---|---|---|---|---|
| backend/services/ai_analyst.py:30 | the store pattern lists the alternative `at` before `at the`, so at an `at the` the shorter one matches and the capture is the word `the` | the query "how much at the uber" asks for the store "the" | the store is the word after "at the", here "uber" | high, not executed | Analyst.AtTheAsWritten (and Analyst.AsWrittenCapturesThe, Analyst.HowMuchAtTheUber); `Analyst.Classify` and `Analyst.Analyze` keep the written order | Analyst.AtTheCorrected (and Analyst.StoreWordsCorrected, Analyst.AtTheQuery, through `Analyst.ClassifyCorrected`) |
| backend/main.py:128-134 | with no budget row the handler returns an unsaved `models.Budget` whose `id` is unset, while the declared response model `schemas.Budget` requires an integer `id` (schemas.py:29), so response validation fails and the request ends in a server error | `GET /budget/` on a database without a budget | the default budget with limit 0 and period 'monthly', as the handler's comment says | high, not executed | Backend.Ledger.GetBudgetAsWritten (and Backend.BudgetAsWrittenDiffers) | Backend.Ledger.GetBudget (and DashboardStats.DefaultBudgetShowsNA); the rest of the model uses the default; the dashboard shows 'N/A' either way, since a failed fetch leaves it without a budget |
