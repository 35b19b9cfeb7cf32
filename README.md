# Expense tracker ledger — a Dafny model

This project models the ledger logic of the Expense Tracker application. That logic
is spread over six files:

- the static dashboard script `dashboard.js`;
- the React page `src/pages/Dashboard.jsx`;
- the stand-alone component `src/components/ExpenseTracker.jsx`;
- the CSV helpers `src/csvUtils.js`;
- the table component `src/ExpenseTable.jsx`;
- the server's expense handlers `server/controllers/expenseController.js`.

Each of these files has its own module: `DashboardScript`, `DashboardPage`,
`ExpenseTracker`, `CsvUtils`, `ExpenseTable` and `ExpenseController`.
Shared modules hold what several files rely on:

- `Text` holds JavaScript's `trim`, `split` and `join`.
- `Numbers` holds `parseFloat`, number printing, `x || 0` and NaN.
- `Dates` holds ISO date text, the order the sorts use, month labels and `getMonth`.
- `Sorting` is a stable sort by a comparator, as `Array.prototype.sort` is.
- `Grouping` holds the `forEach`-into-an-object loops: the keys in insertion order, the per-key groups and sums, and the fixed-size slot arrays.
- `Wrappers` holds Option.

Some state is updated in place in the source. That state is a class here:

- the `dashboard.js` globals and form inputs are `DashboardScript.Dashboard`;
- the two React components' `useState` values are `DashboardPage.Page` and `ExpenseTracker.Tracker`;
- the server's `expenses` table is `ExpenseController.ExpensesTable`.

Loops that change variables are methods with loop invariants. These are:

- the running balance of the tables;
- the grouping by month;
- the per-category and per-month tallies;
- the twelve chart slots, which are an `array`.

Each method is proved equal to a specification function. The properties claimed in
the source are proved about those functions:

- The sorts keep every row, order the rows by date, and keep rows with the same date in their original order.
- The groups partition the entries, so the per-group sums add up to the totals.
- The running balance of row `k` is the net of rows `0..k`.
- A CSV file that was written reads back as the same entries.
- Each server handler touches only the caller's rows.

Representation choices:

- Money is a whole number of paise (hundredths of a rupee).
- A JavaScript number that may be NaN is `Numbers.Num`.
- Dates are strings. `new Date(a) - new Date(b)` is modelled as the text order `Dates.DateLe`. That order is proved to be chronological on ISO dates, where a date is read by its written year, month and day (`Dates.IsoOrderIsChronological`).

The source's variants differ from one another, and the model follows each file's code:

- `Dashboard.jsx` does not reset the balance at the start of each month. It runs across all months (`DashboardPage.WithBalancesAt`).
- `ExpenseTracker.jsx` does reset it for each month (`ExpenseTracker.MonthRowsAt`).
- The component's CSV export writes no newline after the header, so an empty export differs from `createCSVFile`'s file (`ExpenseTracker.BuildCsvEmpty`).
- `addExpense` reads a description from the request but never stores it. Created rows have a NULL description (`ExpenseController.NewRow`).
- `handleAddEntry` in `ExpenseTracker.jsx` appends without sorting and keeps the date input. The page version inserts, re-sorts and clears the date.

## Model

| member | source | states |
|---|---|---|
| Text.Trim | src/csvUtils.js:11 | `trim()` gives the infix of the text that has only white space before and after it, and no white space at either of its own ends |
| Text.Split | src/csvUtils.js:11-13 | `split(sep)` gives at least one piece, and joining the pieces gives back the text |
| Text.SplitJoin | src/csvUtils.js:11-13 | splitting a join gives the parts back when no part holds the separator |
| Text.SplitCount | src/csvUtils.js:11 | a split has one piece more than the text has separators |
| Text.SplitPieces | src/csvUtils.js:13 | no piece of a split holds the separator |
| Numbers.OrZero | dashboard.js:115-116 | `x \|\| 0` on a number is the number, or 0 for NaN |
| Numbers.FormatAmount | src/csvUtils.js:30 | a printed amount is non-empty, ends with a digit and starts with a digit or `-` |
| Numbers.FormatAmountAvoids | src/csvUtils.js:30 | a printed amount holds no comma, newline or other separator character |
| Numbers.ParseFormatAmount | src/csvUtils.js:16-17 | `parseFloat` of a printed amount is that amount |
| Numbers.ParseFormat | src/components/ExpenseTracker.jsx:66-67 | `parseFloat` of a printed number is that number, NaN included |
| Numbers.NumAdd | src/components/ExpenseTracker.jsx:106 | a sum is NaN exactly when an operand is, and otherwise the sum of the values |
| Numbers.NumSub | src/components/ExpenseTracker.jsx:106 | a difference is NaN exactly when an operand is, and otherwise the difference of the values |
| Numbers.InputAmount | src/components/ExpenseTracker.jsx:29-30 | an empty input counts as 0, and any other input is read with `parseFloat` |
| Numbers.InputAmountOfAmount | src/pages/Dashboard.jsx:44-45 | an input holding a printed amount gives that amount |
| Dates.IsoOrderIsChronological | dashboard.js:119 | on ISO dates the sort order is year, then month, then day |
| Dates.DateLeTransitive | dashboard.js:119 | the date order is transitive |
| Dates.DateLeTotal | dashboard.js:119 | any two dates are comparable |
| Dates.DateLeAntisymmetric | dashboard.js:119 | two dates that are ordered both ways are equal |
| Dates.MonthIndex | src/pages/Dashboard.jsx:108 | `getMonth()` is in 0..11 for a readable date, and is the no-slot value for an unreadable one |
| Dates.MonthIndexOfIso | src/pages/Dashboard.jsx:108 | `getMonth()` of a readable date is its month less one |
| Dates.MonthLabelSame | src/pages/Dashboard.jsx:80-83 | two readable dates share a month label exactly when they share year and month |
| Dates.MonthLabelInvalid | dashboard.js:363 | the label of every unreadable date differs from the label of every readable one |
| Dates.MonthLabelMonotone | src/pages/Dashboard.jsx:80-83 | dates in order have month labels in order |
| Dates.Slice7IsMonthLabel | src/components/ExpenseTracker.jsx:18 | on readable dates `slice(0, 7)` is the month label |
| Dates.ByDateTotalPreorder | dashboard.js:119 | the date comparator is a total preorder |
| Sorting.SortBySorted | src/ExpenseTable.jsx:6 | sorting keeps every element and orders the result |
| Sorting.SortByStable | src/ExpenseTable.jsx:6 | sorting keeps elements that compare equal in their original order |
| Sorting.SortBySortedInput | src/pages/Dashboard.jsx:50 | sorting an already sorted list leaves it as it is |
| Sorting.TiedWithSnoc | src/pages/Dashboard.jsx:49-50 | appending an element adds it last among the elements tied with it |
| Grouping.Group | src/components/ExpenseTracker.jsx:15-23 | the grouping loop gives the keys in first-seen order and, for each key, exactly its members in their order |
| Grouping.Tally | dashboard.js:468-474 | the tally loop gives the keys in first-seen order and, for each key, the sum over its members |
| Grouping.FirstKeysSelect | src/components/ExpenseTracker.jsx:19 | a key is listed exactly when its group is non-empty |
| Grouping.FirstKeysDistinct | src/components/ExpenseTracker.jsx:19 | each key is listed once |
| Grouping.GroupSums | dashboard.js:372-373 | reading out the totals gives one sum per listed key, over that key's group |
| Grouping.PartitionSum | dashboard.js:362-373 | the group sums add up to the sum over all members |
| Grouping.PartitionCount | src/components/ExpenseTracker.jsx:17-21 | the group sizes add up to the number of members |
| Grouping.BucketsAt | src/pages/Dashboard.jsx:104-111 | slot `j` holds the sum over the members whose key is `j` |
| Grouping.BucketsTotal | src/pages/Dashboard.jsx:104-111 | the slots add up to the sum over the members that have a slot |
| Grouping.AddAt | src/pages/Dashboard.jsx:109-110 | adding to a slot changes that slot alone; an index that is not a slot (a `NaN` month) leaves the array as it was |
| Grouping.FillBuckets | src/pages/Dashboard.jsx:104-111 | one pass fills two fresh arrays of `n` slots with the buckets of the two value functions (income and expense) |
| DashboardScript.CategoryInfo | dashboard.js:225 | the badge shown is the entry's category, or 'Other' |
| DashboardScript.CategoryInfoListed | dashboard.js:14-25 | the badge is one of the listed categories |
| DashboardScript.CategoryInfoKnown | dashboard.js:225 | a listed category is shown as itself |
| DashboardScript.CategoryInfoUnknown | dashboard.js:225 | an unlisted category is shown as 'Other' |
| DashboardScript.ChartLabelUnknown | dashboard.js:427-430 | an unlisted chart category is labelled by its key |
| DashboardScript.RawRowsCases | dashboard.js:111 | the rows come from `expenses` if it is an array, else from the first truthy of `data` and `items`, else there are none; loading fails exactly when that value is not an array |
| DashboardScript.OrText | dashboard.js:117-118 | `s \|\| d` is `s` unless it is missing or empty |
| DashboardScript.NormalizeRow | dashboard.js:112-118 | normalising keeps id and date, turns NaN amounts into 0, keeps a non-empty category and makes a missing or empty one 'Other', and keeps a non-empty description and makes a missing or empty one '' |
| DashboardScript.LoadIsSortedPermutation | dashboard.js:112-119 | loading keeps one normalised entry per row and sorts them by date |
| DashboardScript.LoadIsStable | dashboard.js:119 | entries with the same date keep the order of the response |
| DashboardScript.FilteredIsCategory | dashboard.js:215-217 | with a category selected the table holds exactly that category's entries, each as often as in the ledger |
| DashboardScript.FilteredSnoc | dashboard.js:215-217 | filtering keeps the entries in order |
| DashboardScript.AmountCell | dashboard.js:229-230 | an amount cell shows '-' exactly for 0 |
| DashboardScript.TableRowsAt | dashboard.js:219-235 | row `k` shows entry `k` and the net of entries `0..k` |
| DashboardScript.SummaryBalanceIsNet | dashboard.js:247-252 | the summary balance is the net of all entries, and its count is the number of entries |
| DashboardScript.LastRowIsSummary | dashboard.js:219-222 | with every category shown, the last row's balance is the summary balance |
| DashboardScript.MonthlyDataValues | dashboard.js:362-369 | each month's totals are the income and expense sums of that month's entries |
| DashboardScript.CollectMonthly | dashboard.js:361-371 | the loop leaves the month keys in first-seen order and each month's running totals as `MonthlyData` defines them |
| DashboardScript.MonthlyBarsPartition | dashboard.js:362-373 | the income bars add up to the total income, and the expense bars to the total expense |
| DashboardScript.SpendingSum | dashboard.js:420 | the entries with a positive expense add up to the positive part of every expense |
| DashboardScript.DoughnutPartition | dashboard.js:419-431 | the doughnut slices add up to the positive expenses |
| DashboardScript.PiePartition | dashboard.js:468-480 | the pie slices add up to total income plus total expense |
| DashboardScript.PasswordCheckProceeds | dashboard.js:592-610 | the password is changed exactly when all fields are filled, the new password has at least 6 characters, and the confirmation matches |
| DashboardScript.PasswordCheckOrder | dashboard.js:597-610 | the verdict is "fill all fields" exactly when a field is empty, "too short" exactly when all are filled and the new password has fewer than 6 characters, and "mismatch" exactly when all are filled, the new password has at least 6 characters and the confirmation differs |
| DashboardScript.AmountText | dashboard.js:520-521 | the edit field is empty exactly for a 0 amount |
| DashboardScript.AmountTextRoundTrip | dashboard.js:520-521 | reading the edit field back with `parseFloat(..) \|\| 0` gives the amount |
| DashboardScript.EditFormRoundTrip | dashboard.js:514-538 | saving the edit modal unchanged sends the entry's own data |
| DashboardScript.FreshFormData | dashboard.js:641-645 | a reset form sends today's date, no amounts, 'Other' and no description |
| DashboardScript.Dashboard.constructor | dashboard.js:5-8 | the ledger starts empty, with 'All' selected and no entry being edited |
| DashboardScript.Dashboard.LoadExpenses | dashboard.js:73-119 | the entries become the loaded rows when the body can be read, and stay as they were otherwise |
| DashboardScript.Dashboard.FilterByCategory | dashboard.js:281-282 | only the selected category changes |
| DashboardScript.Dashboard.RenderExpenses | dashboard.js:211-235 | the rendered rows are the table of the filtered entries |
| DashboardScript.Dashboard.UpdateSummary | dashboard.js:247-255 | the summary is over every entry, and its balance is their net |
| DashboardScript.Dashboard.BarChart | dashboard.js:357-373 | the months in first-seen order, with their income and expense sums |
| DashboardScript.Dashboard.DoughnutChart | dashboard.js:416-431 | the categories with spending in first-seen order, with their expense sums |
| DashboardScript.Dashboard.PieChart | dashboard.js:465-480 | every category in first-seen order, with its income plus expense |
| DashboardScript.Dashboard.OpenEditModal | dashboard.js:514-523 | for an unknown id nothing changes; otherwise the first entry with that id fills the modal |
| DashboardScript.Dashboard.CloseEditModal | dashboard.js:529-532 | no entry is being edited any more |
| DashboardScript.Dashboard.SaveEdit | dashboard.js:535-556 | with an empty date nothing is sent; otherwise the edited data is sent for the current id and the modal closes |
| DashboardScript.Dashboard.Submit | dashboard.js:624-646 | with an empty date nothing is sent; otherwise the form data is sent and the form reset |
| DashboardPage.SortedByDateProperties | src/pages/Dashboard.jsx:27-29 | the sort keeps every row, orders by date, and keeps ties in order |
| DashboardPage.AddedRowComesLast | src/pages/Dashboard.jsx:49-50 | after an add the list holds the old rows and the new one, sorted, and the new row follows the old rows of its date |
| DashboardPage.WithBalancesAt | src/pages/Dashboard.jsx:87-93 | record `k` carries row `k` and the balance over rows `0..k` of all months |
| DashboardPage.RecordMonths | src/pages/Dashboard.jsx:80-85 | the group months are the rows' months in first-seen order |
| DashboardPage.RecordOfRow | src/pages/Dashboard.jsx:90-93 | every record is a row with the cumulative balance up to it |
| DashboardPage.GroupedRecord | src/pages/Dashboard.jsx:85-90 | a grouped record is one of the records, in the group of its own month |
| DashboardPage.EveryRowGroupedOnce | src/pages/Dashboard.jsx:79-94 | the group sizes add up to the number of rows |
| DashboardPage.GroupTotalsOfMonth | src/pages/Dashboard.jsx:181-182 | a month's totals are the income and expense sums of its rows |
| DashboardPage.SlotOfRow | src/pages/Dashboard.jsx:108 | slot `j` collects the rows of month `j + 1` |
| DashboardPage.ChartSlot | src/pages/Dashboard.jsx:104-111 | slot `j` holds the sums over the rows in that month of year |
| DashboardPage.ChartTotals | src/pages/Dashboard.jsx:104-111 | when every date is readable, the twelve slots add up to the totals |
| DashboardPage.Page.constructor | src/pages/Dashboard.jsx:11-16 | the page starts empty and loading |
| DashboardPage.Page.LoadExpenses | src/pages/Dashboard.jsx:24-36 | the entries become the answered rows sorted by date, or stay as they were when the request fails; loading ends either way |
| DashboardPage.Page.HandleAddEntry | src/pages/Dashboard.jsx:38-60 | with an empty date nothing is sent; otherwise the request is sent, and on success the row is inserted, the list is re-sorted and the inputs are cleared |
| DashboardPage.Page.GroupByMonth | src/pages/Dashboard.jsx:74-97 | the months in first-seen order, each with its records and the cumulative balance |
| DashboardPage.Page.ChartData | src/pages/Dashboard.jsx:99-111 | the twelve slots of income and of expense |
| ExpenseTracker.GroupsKeepEveryEntry | src/components/ExpenseTracker.jsx:15-23 | the month groups together hold every entry |
| ExpenseTracker.BalanceValue | src/components/ExpenseTracker.jsx:106 | the balance is NaN exactly when some amount is, and otherwise the net sum |
| ExpenseTracker.Cell | src/components/ExpenseTracker.jsx:110-111 | a cell shows '-' exactly for 0 or NaN |
| ExpenseTracker.MonthRowsAt | src/components/ExpenseTracker.jsx:91-112 | row `k` of a month shows item `k` and the balance of that month's items `0..k` |
| ExpenseTracker.FirstRowOfMonth | src/components/ExpenseTracker.jsx:91 | the balance starts again from 0 in each month |
| ExpenseTracker.Tables | src/components/ExpenseTracker.jsx:90 | one table per month key |
| ExpenseTracker.MonthTable | src/components/ExpenseTracker.jsx:105-115 | the loop's rows are the month's rows |
| ExpenseTracker.BuildCsvEmpty | src/components/ExpenseTracker.jsx:45-47 | an empty export is the header alone, with no newline after it |
| ExpenseTracker.BuildCsvIsSerialize | src/components/ExpenseTracker.jsx:45-47 | on non-empty finite entries the export is the text `writeCSVFile` writes |
| ExpenseTracker.CsvAmount | src/components/ExpenseTracker.jsx:66-67 | a missing or empty field reads 0, and any other field is read with `parseFloat` |
| ExpenseTracker.ParseCsvCount | src/components/ExpenseTracker.jsx:61 | one entry per line after the header |
| ExpenseTracker.ParseItemMissingAmounts | src/components/ExpenseTracker.jsx:63-67 | a line without commas is a date with zero amounts |
| ExpenseTracker.ParseItemText | src/components/ExpenseTracker.jsx:46-67 | a written line reads back as its item |
| ExpenseTracker.ParseCsvBuildCsv | src/components/ExpenseTracker.jsx:44-70 | an exported file reads back as the same entries, NaN amounts included |
| ExpenseTracker.Tracker.constructor | src/components/ExpenseTracker.jsx:5-13 | no entries, and the date input set to today |
| ExpenseTracker.Tracker.HandleAddEntry | src/components/ExpenseTracker.jsx:25-35 | refused without a date or without both amounts; otherwise the entry is appended and the amount inputs are cleared |
| ExpenseTracker.Tracker.OpenCsv | src/components/ExpenseTracker.jsx:55-73 | the entries become what the file reads as |
| ExpenseTracker.Tracker.Render | src/components/ExpenseTracker.jsx:75-120 | the rendered tables are the month tables of the entries |
| CsvUtils.RowText | src/csvUtils.js:30 | a written line ends with a digit, and holds a newline only if the date does |
| CsvUtils.SerializeStartsWithHeader | src/csvUtils.js:29-30 | every save starts with the header and a newline |
| CsvUtils.SerializeEmpty | src/csvUtils.js:29-30 | saving nothing writes what `createCSVFile` writes |
| CsvUtils.SerializeTrimmed | src/csvUtils.js:29-30 | a non-empty save has no white space at either end |
| CsvUtils.SplitSerialize | src/csvUtils.js:30 | a save splits into the header and one line per row |
| CsvUtils.AmountField | src/csvUtils.js:16-17 | a missing or unreadable amount reads 0 |
| CsvUtils.ParseLine | src/csvUtils.js:13-17 | the date read is trimmed |
| CsvUtils.ParseCount | src/csvUtils.js:11 | one record per line after the header |
| CsvUtils.ParseLineMissingAmounts | src/csvUtils.js:13-17 | a line without commas is a date with zero amounts |
| CsvUtils.ParseEmptyFile | src/csvUtils.js:42-43 | the file `createCSVFile` writes reads as no records |
| CsvUtils.ParseRowText | src/csvUtils.js:13-17 | a written line reads back as its record |
| CsvUtils.ParseSerialize | src/csvUtils.js:11-30 | a saved file reads back as the saved records when every date is clean |
| ExpenseTable.SortedCopyProperties | src/ExpenseTable.jsx:6 | the sorted copy keeps every entry, orders by date, and keeps ties in order |
| ExpenseTable.Signed | src/ExpenseTable.jsx:21-22 | income adds the amount, and any other type subtracts it |
| ExpenseTable.RowFor | src/ExpenseTable.jsx:26-30 | the expense cell is filled exactly for 'Expense', the income cell exactly for 'Income', and an empty description shows '-' |
| ExpenseTable.RowsAt | src/ExpenseTable.jsx:20-30 | row `i` shows entry `i` and the signed sum of entries `0..i` |
| ExpenseTable.OtherTypeLowersBalance | src/ExpenseTable.jsx:22-28 | an entry of another type fills no amount cell but lowers the balance |
| ExpenseTable.Render | src/ExpenseTable.jsx:3-37 | the rendered rows are the rows of the sorted copy |
| ExpenseController.Code | server/controllers/expenseController.js:31 | the handlers answer 200, 201, 400 or 404 |
| ExpenseController.Amount | server/controllers/expenseController.js:42-43 | a missing amount is stored as 0 |
| ExpenseController.CategoryOr | server/controllers/expenseController.js:44 | a missing category is stored as 'Other' |
| ExpenseController.NewestFirstTotalPreorder | server/controllers/expenseController.js:7 | `ORDER BY date DESC, id DESC` is a total preorder |
| ExpenseController.ListingProperties | server/controllers/expenseController.js:6-9 | the listing holds exactly the caller's rows, newest first |
| ExpenseController.ListingStrict | server/controllers/expenseController.js:7 | with distinct ids, a later row has an earlier date, or the same date and a lower id |
| ExpenseController.NewRow | server/controllers/expenseController.js:37-45 | an inserted row has the caller, the date, the amounts or 0, the category or 'Other', and no description |
| ExpenseController.Locate | server/controllers/expenseController.js:69-72 | the check finds a row with that id owned by the caller, or there is none |
| ExpenseController.Revised | server/controllers/expenseController.js:81-84 | the update keeps id and owner and rewrites the rest from the body |
| ExpenseController.UpdateOneRow | server/controllers/expenseController.js:81-84 | with distinct ids the update rewrites exactly the located row |
| ExpenseController.DeleteWhereMembers | server/controllers/expenseController.js:105-108 | the delete keeps exactly the rows that do not match |
| ExpenseController.DeleteWhereFresh | server/controllers/expenseController.js:105-108 | deleting keeps the ids distinct and fresh |
| ExpenseController.DeleteWhereNone | server/controllers/expenseController.js:105-115 | when nothing matches, nothing is deleted |
| ExpenseController.DeleteWhereOne | server/controllers/expenseController.js:105-115 | with distinct ids at most one row goes |
| ExpenseController.DeleteLeavesOthers | server/controllers/expenseController.js:106 | other users' rows are untouched by a delete |
| ExpenseController.UpdateLeavesOthers | server/controllers/expenseController.js:82 | other users' rows are untouched by an update |
| ExpenseController.AddLeavesOthers | server/controllers/expenseController.js:38 | other users' rows are untouched by an insert |
| ExpenseController.SummaryMonthsProperties | server/controllers/expenseController.js:134-142 | the summary months are the caller's months, each once, latest first |
| ExpenseController.SummaryTotals | server/controllers/expenseController.js:134-142 | the monthly totals add up to the caller's total income and total expense |
| ExpenseController.SummaryIncomeColumn | server/controllers/expenseController.js:135-137 | summary row `j` holds month `j`'s income and expense sums |
| ExpenseController.SummaryNet | server/controllers/expenseController.js:138 | the net balance is income less expense |
| ExpenseController.ExpensesTable.constructor | server/controllers/expenseController.js:37-38 | an empty table whose ids start at 1 |
| ExpenseController.ExpensesTable.GetExpenses | server/controllers/expenseController.js:4-22 | 200 with exactly the caller's rows, newest first |
| ExpenseController.ExpensesTable.AddExpense | server/controllers/expenseController.js:25-60 | 400 without a date; otherwise 201 and one new row with a fresh id |
| ExpenseController.ExpensesTable.UpdateExpense | server/controllers/expenseController.js:63-98 | 404 unless the id is the caller's; otherwise exactly that row is rewritten |
| ExpenseController.ExpensesTable.DeleteExpense | server/controllers/expenseController.js:101-128 | the matching row goes; 404 when there was none |
| ExpenseController.ExpensesTable.GetExpensesSummary | server/controllers/expenseController.js:131-157 | the monthly summary, with net equal to income minus expense in every row |

## Left out

- Rendering: the DOM, `innerHTML`, React elements, the chart objects and their options, the theme, the profile menu and the category filter buttons are not modelled. Only the data they display is.
- `renderLineChart` is not modelled. It maps each entry to a label and the two amounts, with no logic beyond `|| 0`.
- Dates.MonthIndexOfIso, Dates.MonthLabelSame: the model assumes a time zone at or east of UTC. `new Date` reads a date-only ISO text as UTC midnight, but `getMonth()` and `toLocaleString`/`toLocaleDateString` read local time (src/pages/Dashboard.jsx:80-83, 108; dashboard.js:363). West of UTC, an entry dated the first of a month therefore falls in the previous month's slot and label. The same assumption stands behind DashboardPage.SlotOfRow, DashboardPage.ChartSlot and DashboardScript.MonthlyDataValues. The `slice(0, 7)` and `TO_CHAR` month keys do not depend on the time zone.
- Locale formatting is not modelled. This covers `toLocaleString` and `toLocaleDateString` for month labels, which are modelled as the `YYYY-MM` prefix (`Dates.MonthLabel`) with one label for unreadable dates. It also covers `toFixed(2)` and the `Rs.` and `₹` prefixes.
- Number printing is modelled only for amounts in whole paise. Amounts with more than two decimals are not modelled. `parseFloat` is modelled without exponents or `Infinity`, and digits after the second decimal are dropped.
- DashboardScript.RawRow: `Number(..)` on the response fields is modelled by giving each amount as a `Num`. The text-to-number conversion itself is not modelled.
- Dates.DateLe: `new Date(..)` is modelled as ISO text. It does not model V8's lenient parsing of other formats. It also does not model the NaN comparison a sort gets for an unreadable date: unreadable dates are ordered by their text.
- Dates.IsoOrderIsChronological, Dates.MonthIndexOfIso, Dates.MonthLabelSame, Dates.Slice7IsMonthLabel, DashboardPage.SlotOfRow, DashboardPage.ChartSlot, DashboardScript.MonthlyDataValues: a date whose day lies past the end of its month (`2024-02-30`, which `Dates.IsIsoDate` accepts as V8's parser does) is read by its written month. V8 carries the extra days over, so `new Date("2024-02-30")` is 1 March 2024. Its `getMonth()` is 2, not 1 (src/pages/Dashboard.jsx:108), and its label is March 2024 (src/pages/Dashboard.jsx:80-83, dashboard.js:363). The model gives slot 1 and the February label. Its `slice(0, 7)` key in src/components/ExpenseTracker.jsx:18 stays `2024-02`, so there the key and the label part ways. The comparators at dashboard.js:119 and src/ExpenseTable.jsx:6 return 0 for `2024-02-30` against `2024-03-01`, and the stable sort keeps them in input order; the model puts `2024-02-30` first by its text. A date picker and a PostgreSQL DATE column never produce such a date, and modelling the carry-over needs the length of each month and the leap-year rule, which the model leaves out.
- Dashboard.jsx amounts are whole numbers. A string amount from the server, which `+=` would concatenate, is not modelled.
- Dashboard.jsx chart data: a row whose date cannot be read adds to none of the twelve slots. In the source it sets a property `NaN` on the array, and the chart does not show that property.
- The 12 month-name labels of the chart are not modelled: they are constants of the locale.
- Grouping.Tally, Grouping.Group: the source's `{}` objects inherit from `Object.prototype`, and the model treats every key as a plain own key, listed in insertion order. This misses several cases:
  - `Object.keys` puts integer-like keys before the others.
  - A key that names an inherited member behaves differently. A category `__proto__` passes the `!totals[k]` test, its `+=` changes nothing and it is missing from the chart (dashboard.js:420-424, 469-473). A category `constructor` or `toString` appends the amount to the inherited function's text. A CSV date such as `valueOf` makes the grouping call `.push` on a function, so the render throws (src/components/ExpenseTracker.jsx:19-20).
  - None of these keys is modelled.
- Network, clocks and files are not modelled:
  - the fetch wrappers, authentication, `loadUser`, the 401 and 90-second timeout handling, and `logout`;
  - `alert`;
  - the clock behind `setTodayDate` and `new Date()`, which is a parameter;
  - `FileReader`, `Blob`, the save-file picker and XLSX export.
  - A file that was chosen is a `text` parameter. Building the file (`BuildCsv`, `Serialize`) is modelled, but writing it is not.
- DashboardScript.Dashboard.SaveEdit, DashboardScript.Dashboard.Submit: `expenses` stays as it was: the reload after update, delete and add (dashboard.js:159) is not modelled, because it is a network round trip. Deleting an entry in `dashboard.js` is also not modelled: it is only a request.
- DashboardScript.PasswordCheck: lengths are counted in characters, not in UTF-16 code units.
- ExpenseTable.Entry: the amount is printed as given, so `Rs. ${amount}` formatting is not modelled.
- Sorting.SortBy: the sorts are modelled as a stable sort function, not as in-place sorting of the array. `Dashboard.jsx`'s `data.expenses.sort` also reorders the response object, and no one reads that again.
- ExpenseController.ExpensesTable: the database is a sequence of rows with a serial id. These are not modelled:
  - SQL type checks, so a date PostgreSQL would reject is stored as text;
  - the 500 answers on a database error;
  - `updated_at` and the other timestamps;
  - the `RETURNING` rows beyond the one returned.
  - `updateExpense` does not check the date, and neither does the model.
- ExpenseController.SummaryMonths: the month of a row is `date[..7]`, standing for `TO_CHAR(date, 'YYYY-MM')`.
