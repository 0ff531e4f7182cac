# KhataTracker dashboard: a Dafny model

KhataTracker is a personal expense tracker. Its dashboard page (`app/dashboard/page.jsx`) holds four
pieces of sequential logic, and this project models and verifies them:

- **Preset seeding** (`insertPresetsifNeeded`). For each entry of the preset catalogue, in list order:
  - upsert the category keyed `(user_id, name)` with "ignore duplicates";
  - fall back to a single-row lookup when the upsert returns no row;
  - upsert the entry's subcategories in one batch keyed `(category_id, name)`.

  After the loop, the user's `has_presets` flag is set. The store is modelled as two tables of rows
  plus the `has_presets` column (`PresetStore.Db`). A `PresetStore.Store` object holds those tables as
  fields and logs every call it receives. A `Seeding.Faults` value says which calls answer with an
  error.
- **Totals** (`calculateTotals`). One pass over the expense rows adds each amount to three totals:
  - `daily`, when the 10-character date prefix of `created_at` equals today's;
  - `monthly`, when the 7-character month prefix equals this month's;
  - `cy`, when the instant lies in the closed window from 1 January 00:00:00.000 to 31 December
    23:59:59.999 of the current year.
- **The expense modal's form state** (`openModal`, `closeModal`, the category effect). It is a
  `Form` object with one field per piece of React state. Each method is one handler, and each
  handler is tied to a function on a `FormState` value.
- **Submission** (`handleSubmit`). The guard rejects a blank title or a missing or non-numeric
  amount before any call. Otherwise the handler builds the update or insert record and closes the
  modal on success.

The page also has small pure helpers: `currencySign`, and the subcategory options of the form's second
select.

Modules follow the page's parts. Each module has one file:

| file | module | part of the page |
|---|---|---|
| wrappers.dfy | Wrappers | `Option` |
| currency.dfy | Currency | `currencySign` |
| catalog.dfy | Catalog | `categories.find`, the subcategory filter, the category effect |
| aggregation.dfy | Aggregation | `calculateTotals`, the calendar-year window |
| form.dfy | ExpenseForm | trimming and the numeric test, `openModal`, `closeModal`, `handleSubmit` |
| store.dfy | PresetStore | the tables, the semantics of each store call, the `Store` object |
| seeding.dfy | Seeding | `insertPresetsifNeeded` and what it guarantees |

Inputs that come from outside the page are parameters:

- the signed-in user is an `Option<UserId>`;
- `new Date().toISOString()` is `nowIso`, and the local year is `year`;
- the preset list is `presets`;
- store errors are `Faults`, or a `writeFails` flag;
- the rows a fetch returned are `fetched`.

Three behaviours of the code that the model keeps as written:

- `closeModal` clears only the title, amount, category, subcategory, description and edited
  expense. `createdAt`, `recurringType` and `modeOfPayment` keep their values.
- The submit guard accepts any amount that `parseFloat` does not turn into NaN, including negative
  amounts and "Infinity".
- Neither the insert nor the update writes `mode_of_payment`, so a saved record does not round-trip
  that field.

## Model

| member | source | states |
|---|---|---|
| Currency.CurrencySign | app/dashboard/page.jsx:40-47 | USD, EUR and INR map to `$`, `€` and `₹`; the sign is non-empty exactly for those three codes, and every other code gives the empty string |
| Currency.SignIdentifiesCurrency | app/dashboard/page.jsx:40-47 | two codes with the same non-empty sign are the same code, so the sign never confuses currencies |
| Catalog.FindByName | app/dashboard/page.jsx:152 | `find` returns nothing exactly when no category carries the name; otherwise it returns the first category carrying it |
| Catalog.NamesFor | app/dashboard/page.jsx:396-397 | the filter keeps only names of rows with the chosen `category_id`, never more names than rows, and every row when all carry that id |
| Catalog.NamesForMembership | app/dashboard/page.jsx:396-397 | a name is among the filtered names exactly when some subcategory row with that `category_id` carries it |
| Catalog.NamesForAppend | app/dashboard/page.jsx:396-397 | filtering distributes over concatenation, so the options keep the order of `allSubcategories` |
| Catalog.SubcategoryOptions | app/dashboard/page.jsx:393-400 | no options unless a known category is chosen; otherwise a name is offered exactly when a row of the first matching category carries it |
| Catalog.AfterCategoryChange | app/dashboard/page.jsx:150-168 | an empty category clears the options and the choice. An unknown category changes nothing. A known one shows the fetched names (none when the fetch gave nothing) and keeps the chosen subcategory exactly when an expense is being edited. The choice is only ever kept or cleared |
| Catalog.EditKeepsStaleSubcategory | app/dashboard/page.jsx:160 | while editing, the stored subcategory survives even when the fresh list does not offer it |
| Aggregation.Prefix | app/dashboard/page.jsx:178-179 | `slice(0, n)` is the first n characters, or the whole string when it is shorter |
| Aggregation.SameDayIsSameMonth | app/dashboard/page.jsx:178-182 | equal 10-character prefixes give equal 7-character prefixes |
| Aggregation.YearLength | app/dashboard/page.jsx:174-175 | the day count between consecutive 1 Januaries is 366 in a Gregorian leap year and 365 otherwise |
| Aggregation.Millis | app/dashboard/page.jsx:174-175 | `new Date(y, m, d, h, mi, s, ms)` as milliseconds on the local clock, with the month counted from 1 |
| Aggregation.WindowIsHalfOpenYear | app/dashboard/page.jsx:183-186 | `cyEnd` + 1 ms is the next year's `cyStart`, so the closed window is exactly the half-open year |
| Aggregation.YearStart | app/dashboard/page.jsx:174 | `cyStart` is midnight at the start of the year's first day, and 1 January 1970 is instant 0 |
| Aggregation.YearEnd | app/dashboard/page.jsx:175 | `cyEnd` lies inside the year and is one millisecond before the next year's `cyStart` |
| Aggregation.InCalendarYear | app/dashboard/page.jsx:184 | `expDate >= cyStart && expDate <= cyEnd`, the closed calendar-year test |
| Aggregation.CalendarYearBoundary | app/dashboard/page.jsx:174-186 | 31 December 23:59:59.999 and 1 January 00:00:00.000 of the year are counted; the next year's first millisecond and the millisecond before the year are not |
| Aggregation.Counts | app/dashboard/page.jsx:178-186 | a row counted for today is in this month too, and the year window counts exactly the instants from this year's start up to, not including, the next year's start |
| Aggregation.Total | app/dashboard/page.jsx:176-190 | a total is zero when its window counts no row, and never negative when no amount is |
| Aggregation.Aggregate | app/dashboard/page.jsx:189 | the fold starts from zero, so no rows give zero for all three totals |
| Aggregation.CalculateTotals | app/dashboard/page.jsx:170-192 | the single-pass loop computes, for each total, the sum of the amounts of exactly the rows that total counts |
| Aggregation.TotalAppend | app/dashboard/page.jsx:176-190 | a total over two lists of rows is the sum of their totals |
| Aggregation.TotalMonotone | app/dashboard/page.jsx:176-190 | with non-negative amounts, a window counting fewer rows gives a total no larger |
| Aggregation.DailyWithinMonthly | app/dashboard/page.jsx:178-182 | with non-negative amounts, `daily` never exceeds `monthly` |
| Aggregation.ExampleTotal | app/dashboard/page.jsx:176-190 | on the three-row example, a total is the sum of the amounts of the rows its window counts |
| Aggregation.ExampleDaily | app/dashboard/page.jsx:181 | the example's daily total on 14 October 2026 is 100 |
| Aggregation.ExampleMonthly | app/dashboard/page.jsx:182 | the example's monthly total is 150 |
| Aggregation.ExampleYearly | app/dashboard/page.jsx:184-186 | the example's calendar-year total is 150; the row from 2025 is outside the window |
| Aggregation.AggregationExample | app/dashboard/page.jsx:170-192 | the example's totals are 100, 150 and 150 |
| ExpenseForm.TrimStart | app/dashboard/page.jsx:230 | the result is a suffix of the input that starts with a non-whitespace character, and everything cut off is whitespace |
| ExpenseForm.TrimEnd | app/dashboard/page.jsx:230 | the result is a prefix of the input that ends with a non-whitespace character, and everything cut off is whitespace |
| ExpenseForm.IsJsSpace | app/dashboard/page.jsx:230 | the ECMAScript WhiteSpace and LineTerminator characters that `trim` and `parseFloat` skip |
| ExpenseForm.Trim | app/dashboard/page.jsx:230 | `trim()` is no longer than its input, starts and ends with a non-whitespace character when non-empty, and leaves a string without whitespace as it is |
| ExpenseForm.TrimEmptyIffBlank | app/dashboard/page.jsx:230 | `trim()` is empty exactly when every character is ECMAScript whitespace |
| ExpenseForm.ParsesAsNumber | app/dashboard/page.jsx:230 | a string `parseFloat` reads as a number has a non-whitespace character |
| ExpenseForm.AmountAccepted | app/dashboard/page.jsx:230 | the empty amount is refused, and an accepted typed amount is not blank |
| ExpenseForm.SubmitAccepts | app/dashboard/page.jsx:230 | the guard passes exactly when the title has a non-whitespace character and the amount is accepted |
| ExpenseForm.BlankTitleRejected | app/dashboard/page.jsx:230 | an empty or all-space title is rejected whatever the amount |
| ExpenseForm.AcceptedExample | app/dashboard/page.jsx:230 | title "Coffee" with amount "10" passes the guard |
| ExpenseForm.SignedFractionExample | app/dashboard/page.jsx:230 | amounts such as " -.5" and "Infinity" pass the numeric test, as `parseFloat` reads them |
| ExpenseForm.RejectedAmountExamples | app/dashboard/page.jsx:230 | the amounts "abc" and "" are rejected |
| ExpenseForm.OrEmpty | app/dashboard/page.jsx:197-204 | the empty-string default of `expense.title`, `expense.category` and the other text properties: the value when present, otherwise the empty string |
| ExpenseForm.Opened | app/dashboard/page.jsx:194-216 | opening always shows the modal, records the argument as the edited expense and leaves the fetched subcategories alone |
| ExpenseForm.Closed | app/dashboard/page.jsx:218-226 | closing hides the modal and drops the edited expense, and keeps the date, the recurrence and the payment mode |
| ExpenseForm.CategoryChanged | app/dashboard/page.jsx:150-168 | the category effect changes only the options and the chosen subcategory. The choice is kept or cleared. An empty category clears both. A known category shows the fetched names and clears the choice unless an expense is edited |
| ExpenseForm.WriteFor | app/dashboard/page.jsx:240-260 | an update exactly when an expense is being edited, on that expense's id; otherwise an insert for the user. Both carry every listed form field, and `is_recurring` is set exactly when a recurrence is chosen |
| ExpenseForm.Submitted | app/dashboard/page.jsx:228-268 | rejected exactly when the guard fails; stopped exactly when it passes without a user; otherwise the write is `WriteFor` of the form, failing exactly when the store errs. Only a saved write closes the modal; every other outcome leaves the form as it was |
| ExpenseForm.RejectedIffInvalid | app/dashboard/page.jsx:230-233 | a submission is rejected exactly when the title is all whitespace or the amount fails the guard, and then the form is left as it was |
| ExpenseForm.RecurringFlagOnEveryWrite | app/dashboard/page.jsx:244-257 | every issued write, update or insert, has `is_recurring` exactly when a recurrence is chosen, and carries the category and subcategory |
| ExpenseForm.SubmitKeepsFormOnError | app/dashboard/page.jsx:261-266 | an error reply leaves every field in place; a saved write closes the modal |
| ExpenseForm.PaymentModeNotWritten | app/dashboard/page.jsx:244-258 | the chosen payment mode has no effect on what is written |
| ExpenseForm.EditRoundTrip | app/dashboard/page.jsx:194-245 | opening an expense and saving it unchanged updates its row with the fields it was opened with, the date cut to ten characters |
| ExpenseForm.CreateInserts | app/dashboard/page.jsx:205-259 | opening for a new expense resets every field and dates it today; a valid submission then inserts a row for the user |
| ExpenseForm.AddButtonNeverInserts | app/dashboard/page.jsx:306 | as written, the Add Expense button opens the form in edit mode with an empty date, and a valid submission from it is an update of a row without an id |
| ExpenseForm.IntendedAddButtonInserts | app/dashboard/page.jsx:205-259 | with the intended argument, the form is dated today and a valid submission inserts a row for the user |
| ExpenseForm.Form.constructor | app/dashboard/page.jsx:10-23 | the fields start at their `useState` initial values |
| ExpenseForm.Form.OpenModal | app/dashboard/page.jsx:194-216 | the new field values are those of `Opened` |
| ExpenseForm.Form.LoadExpense | app/dashboard/page.jsx:196-204 | each field is loaded from the expense with an empty default; the amount is kept only when it is non-zero, and the date is cut to ten characters |
| ExpenseForm.Form.ResetForNew | app/dashboard/page.jsx:205-215 | every field is empty and the date is today's ten-character date |
| ExpenseForm.Form.CloseModal | app/dashboard/page.jsx:218-226 | the new field values are those of `Closed`; the date, recurrence and payment mode are unchanged |
| ExpenseForm.Form.OnCategoryChange | app/dashboard/page.jsx:150-168 | the new options and subcategory are those of `AfterCategoryChange` |
| ExpenseForm.Form.HandleSubmit | app/dashboard/page.jsx:228-268 | the outcome and the new field values are those of `Submitted` |
| PresetStore.Valid | app/dashboard/page.jsx:64-106 | the table invariant: no `(user_id, name)` or `(category_id, name)` key twice, ids distinct and below the next id, every subcategory on a category of its user |
| PresetStore.EmptyDb | app/dashboard/page.jsx:59-117 | a store with no rows satisfies the table invariant |
| PresetStore.CategoryMatches | app/dashboard/page.jsx:81-85 | the rows of the lookup all carry the user and the name, and there are none exactly when the key is absent |
| PresetStore.MatchesOfUniqueKey | app/dashboard/page.jsx:81-86 | with unique keys, the lookup finds at most one row, and it finds the row of the key when there is one |
| PresetStore.UpsertCategoryCall | app/dashboard/page.jsx:64-70 | an error exactly when the call fails and then nothing changes; no row exactly when the key is present and then nothing changes; otherwise one new row for the user and the name is appended. The subcategories and flags are untouched |
| PresetStore.LookupCategoryCall | app/dashboard/page.jsx:81-90 | a returned row is in the table and carries the requested user and name |
| PresetStore.InsertOne | app/dashboard/page.jsx:101-106 | one batch row: its key is present afterwards and a present key changes nothing. At most one row is appended, the draft's own row with the next id. The categories and flags are untouched |
| PresetStore.InsertSubcategories | app/dashboard/page.jsx:101-106 | a batch only appends, at most one row per draft, and every appended row carries the category, name and user of one of the drafts. The categories and flags are untouched |
| PresetStore.UpsertSubcategoriesCall | app/dashboard/page.jsx:101-106 | a failed batch changes nothing. A batch only appends subcategories, each the row of one of its drafts, and leaves the categories and flags alone |
| PresetStore.PresetFlagCall | app/dashboard/page.jsx:113-116 | the flag update touches no table and no other user's flag. A user's existing row gets its flag set unless the call fails, and a failure changes nothing |
| PresetStore.UpsertCategoryProperties | app/dashboard/page.jsx:64-72 | the upsert keeps the invariants and only appends. "No row" means the key was present and nothing changed. An error changes nothing. A returned row is the new row of the key |
| PresetStore.InsertOneProperties | app/dashboard/page.jsx:101-106 | one batch row keeps the invariants, only appends, and leaves its key present |
| PresetStore.InsertSubcategoriesProperties | app/dashboard/page.jsx:101-106 | a batch keeps the invariants (no key twice, every row on a category of its user), only appends, leaves the categories alone, and leaves every key of the batch present |
| PresetStore.InsertSubcategoriesNoOp | app/dashboard/page.jsx:101-106 | a batch whose keys are all present changes nothing |
| PresetStore.Store.UpsertCategory | app/dashboard/page.jsx:64-70 | the new tables and the reply are those of `UpsertCategoryCall`, and the call is logged |
| PresetStore.Store.SelectCategory | app/dashboard/page.jsx:81-86 | the tables are unchanged, the reply is that of `LookupCategoryCall`, and the call is logged |
| PresetStore.Store.UpsertSubcategories | app/dashboard/page.jsx:101-106 | the new tables are those of `UpsertSubcategoriesCall`, and the call is logged |
| PresetStore.Store.UpdatePresetFlag | app/dashboard/page.jsx:113-116 | the new flag map is that of `PresetFlagCall`, and the call is logged |
| Seeding.ResolveCategory | app/dashboard/page.jsx:64-92 | the upsert is always issued; the lookup follows exactly when the upsert succeeds on a key already present. A resolved row is in the table with the entry's user and name. Subcategories and flags are untouched |
| Seeding.SeedEntry | app/dashboard/page.jsx:63-109 | one entry issues one to three calls. The first is its category upsert, no later call is another category upsert, and none is the flag update. The flags are untouched |
| Seeding.SeedEntries | app/dashboard/page.jsx:62-110 | the loop issues at least one and at most three calls per preset in total, never the flag update, and leaves the flags alone |
| Seeding.SeedRun | app/dashboard/page.jsx:59-117 | without a user nothing is called and nothing changes. With a user the run issues at least one and at most three calls per preset in total, plus the flag update, which comes last |
| Seeding.SubcategoryBatch | app/dashboard/page.jsx:96-100 | the batch has one row per preset subcategory name, in order, each on the resolved category for the user |
| Seeding.SeedOneEntry | app/dashboard/page.jsx:63-109 | one pass of the loop body changes the tables and the log exactly as `SeedEntry` says |
| Seeding.SeedStep | app/dashboard/page.jsx:62-110 | one pass of the loop keeps the loop invariant |
| Seeding.StepKeepsInvariant | app/dashboard/page.jsx:62-110 | doing entry `i` as `SeedEntry` says carries the loop invariant from `i` to `i + 1` |
| Seeding.SeedAll | app/dashboard/page.jsx:62-110 | the loop changes the tables and the log exactly as `SeedEntries` says |
| Seeding.InsertPresetsIfNeeded | app/dashboard/page.jsx:59-117 | the routine changes the tables and the log exactly as `SeedRun` says |
| Seeding.CoversEntryMonotone | app/dashboard/page.jsx:64-106 | rows are only appended, so an entry that is fully present stays present |
| Seeding.ResolveCategoryProperties | app/dashboard/page.jsx:64-92 | upsert and lookup keep the invariants and only append. The resolved row is the entry's key. The entry is skipped exactly when the upsert fails, or when the category already existed and the lookup fails, and then nothing changed |
| Seeding.SeedEntryProperties | app/dashboard/page.jsx:63-109 | one entry keeps the invariants and only appends. An entry none of whose calls fail is afterwards fully present |
| Seeding.SeedEntriesProperties | app/dashboard/page.jsx:62-110 | the loop keeps the invariants, so no key appears twice, and only appends. Every entry whose own calls succeed ends fully present, whatever failed for the other entries |
| Seeding.SeedRunProperties | app/dashboard/page.jsx:59-117 | the routine keeps the invariants and never removes or changes a row. Every preset whose calls succeed ends fully present |
| Seeding.SeedEntryNoOp | app/dashboard/page.jsx:63-109 | an entry already present changes nothing, whichever of its calls fail |
| Seeding.SeedEntriesNoOp | app/dashboard/page.jsx:62-110 | on a store where every preset is present, the loop changes nothing |
| Seeding.SeedRunOnSeededStore | app/dashboard/page.jsx:59-117 | on a store where every preset is present, a run leaves both tables as they are, whichever calls fail |
| Seeding.SeedRunIdempotent | app/dashboard/page.jsx:59-117 | after a run whose calls all succeed, a second run over the same presets leaves the store exactly as the first left it, even if some of its own calls fail |
| Seeding.FlagCallIdempotent | app/dashboard/page.jsx:113-116 | setting the flag a second time changes nothing, whether that call fails or not |
| Seeding.SeedEmptyStoreTwice | app/dashboard/page.jsx:59-117 | seeding an empty store twice gives the same tables as seeding it once, with no key twice |
| Seeding.SeedEntryRequests | app/dashboard/page.jsx:64-106 | an entry starts with its category upsert. It issues a subcategory batch exactly when its category was resolved and it has subcategories. That batch is `SubcategoryBatch` of the entry on the resolved category |
| Seeding.SkippedEntryChangesNothing | app/dashboard/page.jsx:74-90 | an entry whose upsert fails, or whose lookup fails, changes nothing and issues no subcategory batch |
| Seeding.EveryEntryProcessed | app/dashboard/page.jsx:62-110 | whatever fails, the loop issues one category upsert per preset, in list order |
| Seeding.FlagSetAfterLoop | app/dashboard/page.jsx:112-116 | with a user, the flag update is the last call, whatever failed. It sets the user's flag unless the update fails, and no other user's flag changes. Without a user, nothing is called |

## Left out

- JSX rendering, Bootstrap markup and the `modal-open` body class are user interface only.
- `supabase.auth.getUser` is the `user` parameter.
- The Supabase client is the abstract store of `PresetStore` and the `writeFails` flag.
- Each store call is atomic, and the calls are sequential.
- The races between seeding, `fetchCategories`, `fetchAllSubcategories` and the category effect are concurrency, which this model does not cover.
- `fetchExpenses`, `fetchCategories`, `fetchAllSubcategories` and the refresh after a save or delete are reads whose results are inputs: the rows for `CalculateTotals`, the categories and `allSubcategories` for `Catalog`, and `fetched` for the category effect.
- `handleDelete` is an unconditional delete by id followed by a refresh. It has no logic beyond the store call.
- The currency fetch is I/O. Its `'INR'` default is `Currency.DefaultCurrency`.
- The preset list (`components/presets.jsx`) is not part of this model; it is the `presets` parameter.
- Logging, `alert` and the `status` fields of the batch reply are left out, because nothing depends on them.
- The `.single()` lookup fails when more than one row matches. Under the key invariant that case cannot arise (`PresetStore.MatchesOfUniqueKey`).
- Seeding.SeedOneEntry: the loop body is a method of its own, and each `return` in it stands for the source's `continue`.
- `new Date()`, `toISOString` and the time zone are left out. `nowIso` is the given ISO string, and the current year is an input. `createdTime` is the local-clock instant `new Date(created_at)` denotes. The model keeps the source's asymmetry: a UTC prefix for today and the month, and the local year for the window.
- Aggregation.CalculateTotals: amounts are exact reals, not doubles. `parseFloat` of a stored amount, including a NaN from a malformed row, is not modelled.
- ExpenseForm.Form.HandleSubmit: the written `amount` is the form's amount field (text or number) as validated, not the double `parseFloat` makes of it.
- ExpenseForm.ParsesAsNumber models only whether `parseFloat` yields NaN (optional whitespace and sign, then a digit, a dot and a digit, or `Infinity`), not the value it yields.
- The browser's constraint validation is not modelled. The `required` attributes at app/dashboard/page.jsx:364, 372, 378, 389 and 423 stop a submit with an empty title, amount, category, subcategory or payment mode before `handleSubmit` runs. `ExpenseForm.Submitted` therefore also accepts an empty category or mode.
- Seeding.SeedRunIdempotent: ids come from the abstract counters `nextCategoryId` and `nextSubcategoryId`, which advance only on an insert. A real serial or identity column also uses up a value on a skipped conflict, so for a real store the equality covers the tables and the flags only.
- Date strings are sequences of characters. There is no Unicode normalisation.
- `expense.amount || ''` on a row's numeric amount (app/dashboard/page.jsx:198) keeps the amount when it is present and non-zero, and otherwise gives the empty text. NaN is out of scope because amounts are reals.

## Findings

| source | as written | input that shows it | evidently intended | confidence | as-written member | corrected member |
|---|---|---|---|---|---|---|
| app/dashboard/page.jsx:306 | `onClick={openModal}` passes React's click event as `openModal`'s `expense` argument. The modal therefore opens in edit mode, with an empty date, and a submit issues `update(...).eq('id', undefined)` instead of an insert | click "Add Expense", type title "Coffee" and amount "10", choose a category, a subcategory and a payment mode, submit | `onClick={() => openModal()}`: a blank form dated today whose submission inserts a new row | high (not executed) | ExpenseForm.AddButtonNeverInserts | ExpenseForm.IntendedAddButtonInserts |
