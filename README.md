# Expense records API: a verified model of its core

This project models the core of an Express/Drizzle back end that keeps personal expense
records. Users register with an emailed verification code and log in with a scrypt-hashed
password. They keep expense records, each tied to a category and an optional sub-category,
import records in bulk from a CSV file, list them with filters and an ordering, and read a
dashboard of figures: a card summary, a bar chart of spending by month or year, and a pie
chart by category or sub-category.

The model is written in Dafny, one module per part of the source:

- `Common`, `Calendar`: JavaScript semantics the controllers rely on. This covers `Number`,
  `parseInt`, `trim`, `split`, and the `Date` constructor with its month and day overflow,
  its 0..99 year rule and a fixed local zone offset `tz`.
- `DateParse`: `parseDate` from `src/lib/dateParse.ts`.
- `Crypto`: the `v1:salt:hash` scrypt envelope of `src/lib/crypto.ts`, over an
  uninterpreted key derivation function.
- `DashboardQuery`, `ExpenseRecordQuery`: the zod query schemas.
- `Grouping`, `Sorting`: the insertion-ordered `Map` the charts fill, and the stable
  descending sort of the pie chart.
- `Dashboard`: the three dashboard handlers.
- `Amounts`: `parseFloat(x).toString()` and the `numeric(12, 2)` amount column.
- `Paging`: the `limit`/`offset` arithmetic of the listings.
- `ExpenseListing`, `ExpenseStore`, `BulkImport`: the expense-record controller.
- `Auth`: the registration, verification-code, password-reset and login handlers.
- `Categories`, `SubCategories`: the category and sub-category controllers.

Modelling choices:

- Money is an integer number of cents.
- A JavaScript `Date` is its time value in UTC milliseconds, and `None` is an Invalid Date.
- The clock, the random draws, the id generator and the email sender are parameters.
- A database table is a sequence in table order (for the listings) or a map keyed by id
  (for the single-row handlers). A constraint the database enforces turns the handler's
  result into `Thrown`.
- A handler that changes state is a method of a class. Its fields are the module-level maps
  or the table. Its `ensures` ties the response and the new state to a pure outcome function,
  and the lemmas are about those functions.

Where the code does not do what its own names, schema or design evidently mean, the model
follows the code. It also states the corrected behaviour beside it (see "## Findings").

## Model

| member | source | states |
|---|---|---|
| DateParse.ParseDate | src/lib/dateParse.ts:1-12 | text with fewer than three "-"-separated parts gives an Invalid Date |
| DateParse.DateFields | src/lib/dateParse.ts:2 | some exactly when there are at least three parts and each of the first three reads as a number, and then those three numbers; none when a part is missing or not a number |
| DateParse.SplitDateText | src/lib/dateParse.ts:2 | splitting the text `y-m-d` on "-" gives back exactly its three numerals |
| DateParse.DateFieldsOfText | src/lib/dateParse.ts:2 | the fields read from `y-m-d` are y, m and d |
| DateParse.ParseStart | src/lib/dateParse.ts:3-11 | the start bound of `y-m-d` is 07:00 local time on that date, years 0..99 read as 1900..1999 |
| DateParse.ParseEnd | src/lib/dateParse.ts:3-11 | the end bound is 06:59:59.999 local time on the following calendar day, across month and year ends |
| DateParse.HourThirtyIsNextDay | src/lib/dateParse.ts:4-5 | hour 30 of a day is hour 6 of the next day |
| DateParse.EndMinusStart | src/lib/dateParse.ts:1-12 | for the same text, a valid end bound lies exactly 23:59:59.999 after the start bound |
| Crypto.HexLower | src/lib/crypto.ts:27-32 | the hex spelling has two lowercase hex digits per byte |
| Crypto.HexDecode | src/lib/crypto.ts:44 | `Buffer.from(s, "hex")` yields at most half as many bytes as there are characters |
| Crypto.HexRoundTrip | src/lib/crypto.ts:27-48 | decoding the lowercase hex of any bytes gives those bytes back |
| Crypto.GenerateScryptHash | src/lib/crypto.ts:27-32 | the stored string is `v1`, the salt and the hex of the derived key, joined by colons |
| Crypto.VerifyScryptHash | src/lib/crypto.ts:34-48 | never a 4xx: the result is a value exactly when the version is `v1`, a hash field is present and it decodes to a key of the right length, and otherwise a throw; the value is true exactly when the re-derived key equals the stored one |
| Crypto.VerifyGenerated | src/lib/crypto.ts:27-48 | verifying a candidate against a generated hash compares the keys the two passwords derive with its salt |
| Crypto.VerifyOwnHash | src/lib/crypto.ts:27-48 | the password a hash was generated from verifies against it |
| DashboardQuery.OptionalString | src/types/dashboard.ts:4 | an absent value decodes to none, a string to itself, and anything else fails |
| DashboardQuery.StringWithDefault | src/types/dashboard.ts:13 | an absent value decodes to the default, a string to itself, and anything else fails |
| DashboardQuery.DecodePeriodType | src/types/dashboard.ts:6 | only "monthly" and "yearly" decode, and an absent value defaults to monthly |
| DashboardQuery.DecodeGroupBy | src/types/dashboard.ts:15 | only "category" and "subCategory" decode, and an absent value defaults to category |
| DashboardQuery.DecodeFlag | src/types/dashboard.ts:7-9 | only "true" and "false" decode, and an absent value defaults to false |
| DashboardQuery.DecodeBarChartQuery | src/types/dashboard.ts:3-10 | the query decodes exactly when each of its four fields does, and then to those fields' values |
| DashboardQuery.DecodePieChartQuery | src/types/dashboard.ts:12-19 | the query decodes exactly when each of its four fields does, the year defaulting to the load year |
| DashboardQuery.EmptyBarChartQuery | src/types/dashboard.ts:3-10 | an empty query decodes to no filters, monthly periods and high expenses excluded |
| DashboardQuery.EmptyPieChartQuery | src/types/dashboard.ts:12-19 | an empty query decodes to the load year, no month, grouping by category and high expenses excluded |
| DashboardQuery.BarChartIgnoresOtherKeys | src/types/dashboard.ts:3-10 | keys outside the schema never change the decoded bar-chart query |
| ExpenseRecordQuery.DecodeSortBy | src/types/expenseRecord.ts:7 | only the four orderings decode, and an absent value is no ordering |
| ExpenseRecordQuery.DecodeExpenseQuery | src/types/expenseRecord.ts:3-12 | the query decodes exactly when each optional string field is absent or a string |
| ExpenseRecordQuery.EmptyQueryDecodes | src/types/expenseRecord.ts:3-12 | the empty query decodes, with every field unset |
| ExpenseRecordQuery.OtherKeysIgnored | src/types/expenseRecord.ts:3-12 | a key outside the schema never changes the decoded query |
| ExpenseRecordQuery.PageParametersDropped | src/types/expenseRecord.ts:4-5 | `page` and `pageSize` are no longer in the schema and are dropped by the decode |
| Grouping.GroupAllKeys | src/controllers/dashboardController.ts:137-151 | the map's keys are distinct, and a key has an entry exactly when some item has that key |
| Grouping.GroupAllTotals | src/controllers/dashboardController.ts:245-268 | each entry holds the sum and the number of the items with its key |
| Grouping.GroupAllOrder | src/controllers/dashboardController.ts:137-151 | entries come in the order in which their keys first appear among the items |
| Grouping.GroupAllSums | src/controllers/dashboardController.ts:137-151 | the entries together hold every item's amount, counted once |
| Sorting.SortDesc | src/controllers/dashboardController.ts:270-271 | the sort is a permutation of its input |
| Sorting.SortDescSorted | src/controllers/dashboardController.ts:270-271 | the sorted entries come in non-increasing key order |
| Sorting.SortDescStable | src/controllers/dashboardController.ts:270-271 | entries with equal keys keep their relative order |
| Sorting.SortDescSum | src/controllers/dashboardController.ts:270-280 | sorting keeps any sum over the entries |
| Dashboard.Filter | src/controllers/dashboardController.ts:36 | the kept records are exactly those of the input that the condition accepts |
| Dashboard.FilterAppend | src/controllers/dashboardController.ts:36 | filtering a concatenation filters each part |
| Dashboard.FilterIgnores | src/controllers/dashboardController.ts:36 | records the filter rejects, appended after the others, change nothing |
| Dashboard.OwnedBy | src/controllers/dashboardController.ts:36 | the selected records are exactly the user's |
| Dashboard.EarliestDate | src/controllers/dashboardController.ts:30-37 | `MIN(expense_date)` is none for no rows; otherwise it is one of the dates and not after any of them |
| Dashboard.TotalDays | src/controllers/dashboardController.ts:53-56 | the day count is the whole days covering the elapsed time, and at least 1 |
| Dashboard.Average | src/controllers/dashboardController.ts:58 | the average times the day count gives back the total |
| Dashboard.CardOf | src/controllers/dashboardController.ts:30-68 | no records give the all-zero card; otherwise the total is the records' sum, the day count is `max(ceil(elapsed / day), 1)` since the earliest date, and the average times the day count is the total |
| Dashboard.ZeroTotalCard | src/controllers/dashboardController.ts:40-58 | records whose amounts sum to zero still get a day count of at least one and a zero average |
| Dashboard.GetDashboardCardData | src/controllers/dashboardController.ts:17-68 | 401 exactly without a user id; it never throws; otherwise the card of the user's records |
| Dashboard.CardIgnoresOtherUsers | src/controllers/dashboardController.ts:36 | other users' records never change the card |
| Dashboard.GroupLoop | src/controllers/dashboardController.ts:137-151 | the loop's map equals the insertion-ordered grouping of the items, and its total is their sum |
| Dashboard.BarRecords | src/controllers/dashboardController.ts:115-129 | the selected records are exactly those in the window, owned, in the chosen categories and below the threshold unless high ones are included |
| Dashboard.BarItems | src/controllers/dashboardController.ts:140-146 | each record becomes its `Y` or `Y-M` bucket and its amount, in order |
| Dashboard.Points | src/controllers/dashboardController.ts:163-166 | one data point per map entry, in map order |
| Dashboard.GetDashboardBarchart | src/controllers/dashboardController.ts:72-170 | the handler's answer equals the bar-chart specification, checks in order: 401, 400, invalid window, 404 "No data", the grouped sums |
| Dashboard.BarChartTotals | src/controllers/dashboardController.ts:137-162 | the total is the records' sum, the points add up to it, there is at least one point, and the average times the number of periods is the total |
| Dashboard.BarChartBuckets | src/controllers/dashboardController.ts:137-151 | one point per distinct bucket among the records, holding that bucket's sum |
| Dashboard.BucketPresent | src/controllers/dashboardController.ts:137-151 | a bucket key has a data point exactly when some selected record falls in that bucket |
| Dashboard.BarChartOrder | src/controllers/dashboardController.ts:137-166 | points come in the order their buckets first appear among the records |
| Dashboard.BarChartNoData | src/controllers/dashboardController.ts:131-135 | the answer is 404 "No data" exactly when no record passes the filter |
| Dashboard.BarChartBadQuery | src/controllers/dashboardController.ts:85-91 | for an authenticated user, the answer is 400 "Invalid query parameter." exactly when the query does not parse |
| Dashboard.WeeklyIsRejected | src/types/dashboard.ts:3-8 | a `periodType` outside the enum, such as "weekly", does not parse |
| Dashboard.BarChartIgnoresOtherUsers | src/controllers/dashboardController.ts:117 | other users' records never change the bar chart |
| Dashboard.BarWindowStartDate | src/controllers/dashboardController.ts:101-113 | the monthly window starts on the 1st eleven months back, across year ends; the yearly one starts on January 1st six years back |
| Dashboard.SevenOClockUtcDay | src/controllers/dashboardController.ts:108 | for zones up to UTC+7, the 07:00 start falls on the same UTC date |
| Dashboard.MonthKeyInjective | src/controllers/dashboardController.ts:142-144 | two monthly bucket keys are equal exactly when their years and months are |
| Dashboard.YearParam | src/controllers/dashboardController.ts:197 | an absent `year` parameter gives NaN |
| Dashboard.MonthParam | src/controllers/dashboardController.ts:198-200 | a month is used exactly when the parameter is a non-empty text parsing to a non-zero number |
| Dashboard.PieRecords | src/controllers/dashboardController.ts:226-238 | the selected records are exactly the owned ones within the window's dates, below the threshold unless high ones are included |
| Dashboard.PieItems | src/controllers/dashboardController.ts:245-262 | each record becomes its category's or sub-category's name, found by a left join, and its amount |
| Dashboard.Slices | src/controllers/dashboardController.ts:270-280 | one slice per entry, with its label, total, count and percentage of the grand total |
| Dashboard.GetDashboardPiechart | src/controllers/dashboardController.ts:173-292 | the handler's answer equals the pie-chart specification, checks in order: 401, 404 bad query, invalid window, 404 "No Data", the slices |
| Dashboard.SlicesSums | src/controllers/dashboardController.ts:270-280 | the slices' amounts add up to the entries' totals |
| Dashboard.SlicesPercentages | src/controllers/dashboardController.ts:274-277 | the slices' percentages add up to the percentage of the sum of their totals |
| Dashboard.PieChartTotals | src/controllers/dashboardController.ts:245-285 | the total is the records' sum, and the slices' amounts and counts add up to the total and the number of records |
| Dashboard.PieChartPercentages | src/controllers/dashboardController.ts:274-277 | the percentages add up to 100 when the total is positive, and are all 0 otherwise |
| Dashboard.PieChartOrder | src/controllers/dashboardController.ts:270-271 | slices come in non-increasing order of amount, ties in first-appearance order |
| Dashboard.PieChartGroups | src/controllers/dashboardController.ts:245-268 | one slice per distinct group name among the records, holding that group's sum and count |
| Dashboard.PieChartBadQuery | src/controllers/dashboardController.ts:186-192 | for an authenticated user, the answer is 404 "Invalid query parameter." exactly when the query does not parse |
| Dashboard.CurrencyGroupingRejected | src/types/dashboard.ts:10-20 | a `groupBy` outside the enum, such as "currency", does not parse |
| Dashboard.PieChartNoData | src/controllers/dashboardController.ts:240-243 | the answer is 404 "No Data" exactly when no record passes the filter |
| Dashboard.PieChartIgnoresOtherUsers | src/controllers/dashboardController.ts:228-238 | other users' records never change the pie chart |
| Dashboard.PieMonthWindow | src/controllers/dashboardController.ts:202-208 | in UTC+7 a month's window is exactly the days of that month |
| Dashboard.PieMonthWindowInUtc | src/controllers/dashboardController.ts:205-207 | in UTC the same window's end falls on the 1st of the following month |
| Dashboard.PieMonthMembership | src/controllers/dashboardController.ts:202-238 | in UTC+7 a record is in a month's window exactly when its date lies in that month |
| Dashboard.PieMonthChoice | src/controllers/dashboardController.ts:198-207 | an absent or empty `month` selects the whole year, and the numeral of a month from 1 to 12 selects that month |
| Dashboard.PieChartAbsentYearThrows | src/controllers/dashboardController.ts:197-208 | as written, a query without `year` passes the schema and then throws "Invalid time value" |
| Dashboard.PieChartAbsentYearIsLoadYear | src/types/dashboard.ts:13 | with the schema's decoded year, a query without `year` is answered as one naming the load year |
| Amounts.Normalize | src/controllers/expenseRecordController.ts:262 | the result is the shortest spelling of the same value |
| Amounts.ParseFloat | src/controllers/expenseRecordController.ts:262 | `parseFloat` finds a number only when digits follow the optional sign, before or after the point |
| Amounts.AmountText | src/controllers/expenseRecordController.ts:262 | "NaN" when nothing is read; otherwise the canonical spelling of the number read |
| Amounts.ParseDecimalText | src/controllers/expenseRecordController.ts:262 | `parseFloat` reads back exactly the decimal a spelling was made from |
| Amounts.AmountTextIdempotent | src/controllers/expenseRecordController.ts:262 | re-serialising the stored spelling gives itself |
| Amounts.AmountTextValue | src/controllers/expenseRecordController.ts:262 | the stored spelling denotes the number that was read |
| Amounts.NumericCents | src/db/schema/expense-record.ts:10 | a value the `numeric(12, 2)` column accepts lies within 10^10 units either way |
| Amounts.NumericOfCentsText | src/db/schema/expense-record.ts:10 | the column stores exactly an amount written with two decimals |
| Amounts.ImportedCents | src/controllers/expenseRecordController.ts:262 | an imported amount with at most two decimals reaches the column unchanged |
| Paging.NumberParam | src/controllers/categoryController.ts:13-14 | an absent or non-text parameter is NaN; a text one is `Number` of it |
| Paging.NumberOr | src/controllers/expenseRecordController.ts:109-113 | the number when the parameter is one, else the default |
| Paging.CeilDiv | src/controllers/categoryController.ts:43 | `Math.ceil(x / d)` is the least r with x <= r * d |
| Paging.PageRows | src/controllers/categoryController.ts:33-36 | a negative offset is refused; otherwise the rows after the offset, at most `limit` of them, in order |
| Paging.TotalPages | src/controllers/categoryController.ts:43 | the page count is a number exactly when the page size is a non-zero number |
| Paging.Paginate | src/controllers/categoryController.ts:33-45 | the response counts every row and echoes the page; it fails exactly when the offset is negative |
| Paging.TotalPagesBounds | src/controllers/categoryController.ts:43 | with a positive page size there are just enough pages for the rows |
| Paging.RowOnItsPage | src/controllers/categoryController.ts:33-36 | row i is entry i mod pageSize of page i / pageSize + 1 |
| Paging.Unpaged | src/controllers/categoryController.ts:33-36 | without a page and a page size the one page holds every row |
| Paging.PageAfterLast | src/controllers/categoryController.ts:33-36 | a page after the last one is empty |
| ExpenseListing.Listed | src/controllers/expenseRecordController.ts:35-49 | each listed row is the projection of the selected record at the same position |
| ExpenseListing.DateFilter | src/controllers/expenseRecordController.ts:89-107 | the date range applies exactly when both bounds are present and not blank |
| ExpenseListing.LastFilterPriority | src/controllers/expenseRecordController.ts:68-107 | the filter in force as written is the date range if it applies, else the sub-category, the category, the reason |
| ExpenseListing.WhereSteps | src/controllers/expenseRecordController.ts:68-107 | the chain of `.where` calls leaves in force exactly the last filter the query sets |
| ExpenseListing.Matching | src/controllers/expenseRecordController.ts:51-107 | the matching rows are exactly the table's rows satisfying every condition |
| ExpenseListing.Select | src/controllers/expenseRecordController.ts:51-107 | the query runs exactly when every condition can be sent (no Invalid Date bound) |
| ExpenseListing.Ordered | src/controllers/expenseRecordController.ts:56-66 | the ordering is a permutation of the selected rows |
| ExpenseListing.ListingAsWritten | src/controllers/expenseRecordController.ts:18-123 | a query that does not parse gives 400 |
| ExpenseListing.Listing | src/controllers/expenseRecordController.ts:18-123 | a query that does not parse gives 400 |
| ExpenseListing.GetExpenseRecord | src/controllers/expenseRecordController.ts:18-123 | the handler's answer equals the listing as written |
| ExpenseListing.OrderedListing | src/controllers/expenseRecordController.ts:56-66 | the listed rows are in the order asked for and are a permutation of the selection |
| ExpenseListing.ListingNeverPages | src/controllers/expenseRecordController.ts:109-119 | as written, whatever `page` and `pageSize` say, the listing holds every selected row and no page count |
| ExpenseListing.ReasonFilterReplaced | src/controllers/expenseRecordController.ts:68-87 | as written, with a category filter the reason parameter changes nothing |
| ExpenseListing.ReasonAndCategory | src/controllers/expenseRecordController.ts:68-87 | a reason and a category give both filters, the category last |
| ExpenseListing.FiltersDoNotCombine | src/controllers/expenseRecordController.ts:68-87 | as written, a row without a reason is listed for a query asking for a reason and its category |
| ExpenseListing.FiltersCombine | src/controllers/expenseRecordController.ts:68-87 | as intended, the same row is left out |
| ExpenseListing.ListingMatchesAll | src/controllers/expenseRecordController.ts:51-107 | as intended, every listed row satisfies every filter the query turns on |
| ExpenseListing.ListingDefaults | src/controllers/expenseRecordController.ts:109-119 | as intended, without paging parameters the first ten ordered rows and the page count |
| ExpenseStore.FindById | src/controllers/expenseRecordController.ts:125-145 | the row stored under the id, or 404 with the id in the message |
| ExpenseStore.AmountColumn | src/db/schema/expense-record.ts:10 | an amount is stored exactly when the column accepts its text, as that many cents |
| ExpenseStore.DateColumn | src/db/schema/expense-record.ts:7-9 | as intended, a date is stored exactly when the body's text reads as a date |
| ExpenseStore.CreateAsWritten | src/controllers/expenseRecordController.ts:147-186 | as written: 400 for an unknown category, then an unknown sub-category; otherwise the insert throws, on the text date or on the missing one, and never succeeds |
| ExpenseStore.CreateNeverSucceeds | src/controllers/expenseRecordController.ts:180-183 | every body the intended create would store makes the create as written throw on its date |
| ExpenseStore.CreateOutcome | src/controllers/expenseRecordController.ts:147-186 | as intended: 400 for an unknown category, then an unknown sub-category; success exactly when the insert's columns are valid, the row carrying the new id and creation time |
| ExpenseStore.CreateIgnoresBodyId | src/controllers/expenseRecordController.ts:180-183 | the id in the body plays no part |
| ExpenseStore.UpdateRefusal | src/controllers/expenseRecordController.ts:306-348 | 404 for an unknown id, 400 without a body, then 400 for a truthy unknown category or sub-category |
| ExpenseStore.UpdateOutcomeAsWritten | src/controllers/expenseRecordController.ts:295-370 | 404 for an unknown id; a success is the as-written patch of the stored row |
| ExpenseStore.UpdateOutcome | src/controllers/expenseRecordController.ts:295-370 | 404 for an unknown id; a success is the intended patch of the stored row |
| ExpenseStore.PatchSetsOwnValues | src/controllers/expenseRecordController.ts:350-362 | the intended patch changes a field only when the body sets it, to the body's value, and keeps the id and creation time |
| ExpenseStore.PatchAsWrittenUsesDescription | src/controllers/expenseRecordController.ts:350-362 | as written, the date never changes, and every other field that changes takes the description |
| ExpenseStore.CurrencyTakesDescription | src/controllers/expenseRecordController.ts:355 | as written, a body setting the currency stores the description as the currency |
| ExpenseStore.UncheckedCategoryStored | src/controllers/expenseRecordController.ts:322-358 | as written, the category that passes the check is not the one stored, so a record can name a category that does not exist |
| ExpenseStore.UpdateKeepsNamesKnown | src/controllers/expenseRecordController.ts:322-362 | the intended update keeps every record naming existing categories |
| ExpenseStore.CreateKeepsNamesKnown | src/controllers/expenseRecordController.ts:156-183 | creation keeps every record naming existing categories |
| ExpenseStore.ExpenseRecordTable.constructor | src/db/schema/expense-record.ts:5-25 | the table starts with the given rows, each under its own id |
| ExpenseStore.ExpenseRecordTable.GetById | src/controllers/expenseRecordController.ts:125-145 | the row under the id, or 404 |
| ExpenseStore.ExpenseRecordTable.Create | src/controllers/expenseRecordController.ts:147-186 | the response is the create as written, with the two lookups in order; the table does not change |
| ExpenseStore.ExpenseRecordTable.Update | src/controllers/expenseRecordController.ts:295-370 | the response is the as-written update outcome, and only a success replaces that row |
| ExpenseStore.ExpenseRecordTable.Delete | src/controllers/expenseRecordController.ts:372-402 | 404 for an unknown id; otherwise exactly that row goes and is returned |
| BulkImport.Rejection | src/controllers/expenseRecordController.ts:230-253 | a row is turned away exactly when a name is unknown, the category being checked first |
| BulkImport.AcceptedRows | src/controllers/expenseRecordController.ts:230-268 | the accepted rows are exactly those of the file that pass both checks |
| BulkImport.FirstRejection | src/controllers/expenseRecordController.ts:230-253 | there is no error exactly when every row is accepted |
| BulkImport.ImportAsWritten | src/controllers/expenseRecordController.ts:189-291 | without a file, 400 and nothing inserted; the file is removed exactly when one was sent |
| BulkImport.Import | src/controllers/expenseRecordController.ts:189-291 | rows are inserted only on a 200 response |
| BulkImport.ReadRows | src/controllers/expenseRecordController.ts:230-268 | the `data` callback builds the batch of accepted rows and records the first error |
| BulkImport.HandleBulkExpenseRecord | src/controllers/expenseRecordController.ts:189-291 | the handler's outcome equals the as-written import |
| BulkImport.BatchOrder | src/controllers/expenseRecordController.ts:255-268 | the batch keeps file order |
| BulkImport.BatchEntries | src/controllers/expenseRecordController.ts:255-268 | each batch entry comes from an accepted row, with its names, currency, amount text and noon date |
| BulkImport.NoonKeepsTheDate | src/controllers/expenseRecordController.ts:256-257 | local noon of the parsed date falls on that date in UTC |
| BulkImport.AsWrittenPartialInsert | src/controllers/expenseRecordController.ts:230-290 | as written, a file with a rejected row still has its accepted rows inserted |
| BulkImport.PartialInsertExample | src/controllers/expenseRecordController.ts:230-290 | a two-row file whose first row is rejected inserts the second |
| BulkImport.ImportAllOrNothing | src/controllers/expenseRecordController.ts:189-291 | as intended, rows reach the table only when every row of the file is accepted |
| BulkImport.ImportRejects | src/controllers/expenseRecordController.ts:230-253 | as intended, the file is turned away with the first rejected row's error |
| Auth.GenerateCode | src/controllers/authController.ts:17-19 | the code is six decimal digits, between 100000 and 999999 |
| Auth.CodeRefusal | src/controllers/authController.ts:72-88 | a code is accepted exactly when an entry exists, the code matches and it has not expired, the code being compared first |
| Auth.EmailColumn | src/db/schema/user.ts:7 | `varchar(255)`: a fitting email is stored as it is, excess trailing spaces are cut, and any other longer email is refused |
| Auth.Register | src/controllers/authController.ts:21-64 | a known email gives 403 and changes nothing; otherwise the pending entry, holding the password or its absence, with a new code expiring in five minutes, 404 if the email cannot be sent |
| Auth.VerifyCode | src/controllers/authController.ts:66-96 | a refused code or an absent password changes nothing (the latter throws); success exactly when the email fits the column and its stored value is not taken, inserting the user with the hashed password and deleting the entry; otherwise a throw that leaves the hash in the entry |
| Auth.VerifyEmail | src/controllers/authController.ts:185-227 | an unknown email gives 404 and changes nothing; otherwise a reset entry with a new code |
| Auth.VerifyCodeAndResetPassword | src/controllers/authController.ts:229-268 | a refused code changes nothing, and neither does an absent password, which throws; success exactly otherwise, storing the hashed new password and deleting the entry |
| Auth.Login | src/controllers/authController.ts:98-139 | 400 without both fields; success exactly for a known email whose stored hash verifies the password |
| Auth.RegisterVerifyLogin | src/controllers/authController.ts:21-139 | for an email of at most 255 characters, registering, confirming the code in time and logging in with the same password succeeds |
| Auth.LongEmailNeverRegisters | src/controllers/authController.ts:66-96 | an email over 255 characters that does not end in a space is accepted by `register` but its insert throws, leaving the users as they were and the hash in the entry |
| Auth.AbsentPasswordNeverRegisters | src/controllers/authController.ts:21-96 | a registration without a password is confirmed with a throw at the hash, and nothing changes |
| Auth.ResetThenLogin | src/controllers/authController.ts:185-268 | after a reset the new password logs in, and an old one deriving a different key does not |
| Auth.ExpiredEntryStays | src/controllers/authController.ts:72-88 | an expired entry is refused and stays in the map |
| Auth.AuthController.constructor | src/controllers/authController.ts:13-14 | both pending maps start empty |
| Auth.AuthController.HandleRegister | src/controllers/authController.ts:21-64 | the response and new state are those of `Register` |
| Auth.AuthController.HandleVerifyCode | src/controllers/authController.ts:66-96 | the response and new state are those of `VerifyCode` |
| Auth.AuthController.HandleVerifyEmail | src/controllers/authController.ts:185-227 | the response and new state are those of `VerifyEmail` |
| Auth.AuthController.HandleVerifyCodeAndResetPassword | src/controllers/authController.ts:229-268 | the response and new state are those of `VerifyCodeAndResetPassword` |
| Auth.AuthController.HandleLogin | src/controllers/authController.ts:98-139 | the answer is that of `Login`, and nothing changes |
| Categories.NameFilter | src/controllers/categoryController.ts:29-31 | a non-string name throws; a filter is set exactly for a name that is not blank |
| Categories.Named | src/controllers/categoryController.ts:29-31 | the kept rows are exactly those whose name contains the filter, ignoring case |
| Categories.PageKeepsOrder | src/controllers/categoryController.ts:26-36 | a page of rows in order keeps that order and holds only those rows |
| Categories.CategoryPage | src/controllers/categoryController.ts:8-49 | a non-string name makes the listing throw |
| Categories.CategoryPageContents | src/controllers/categoryController.ts:26-36 | a listed page holds matching rows, newest first |
| Categories.UnpagedWithoutParameters | src/controllers/categoryController.ts:13-14 | as written, without parameters every matching row comes back on one page with no page numbers |
| Categories.IntendedIsFirstPage | src/controllers/categoryController.ts:13-14 | as intended, without parameters the listing is page 1 of 10 rows |
| Categories.IntendedDefaults | src/controllers/categoryController.ts:13-45 | as intended, the first ten rows newest first, and enough pages for all of them |
| Categories.GetCategory | src/controllers/categoryController.ts:8-49 | the handler's answer equals the listing as written |
| Categories.FindById | src/controllers/categoryController.ts:68-88 | the row under the id, or 404 with the id in the message |
| Categories.CreateOutcome | src/controllers/categoryController.ts:90-102 | the insert succeeds exactly for a name, an unused id and an unused name; the new row's fields |
| Categories.Patch | src/controllers/categoryController.ts:131-139 | a truthy name or description replaces the stored one; the id and creation time stay |
| Categories.UpdateOutcome | src/controllers/categoryController.ts:104-147 | 404 for an unknown id, 400 without a body; success exactly when the patched name is unused |
| Categories.DeleteOutcome | src/controllers/categoryController.ts:149-179 | 404 for an unknown id; a referenced category cannot go; success returns the row |
| Categories.CreateKeepsValid | src/db/schema/category.ts:5-19 | creating keeps every row under its id and every name unique |
| Categories.UpdateKeepsValid | src/db/schema/category.ts:5-19 | updating keeps the table valid and leaves the other rows as they were |
| Categories.CategoryTable.constructor | src/db/schema/category.ts:5-19 | the table starts with the given rows |
| Categories.CategoryTable.GetById | src/controllers/categoryController.ts:68-88 | the answer is that of `FindById` |
| Categories.CategoryTable.Create | src/controllers/categoryController.ts:90-102 | the response is the create outcome, and only a success adds its row |
| Categories.CategoryTable.Update | src/controllers/categoryController.ts:104-147 | the response is the update outcome, and only a success replaces the row |
| Categories.CategoryTable.Delete | src/controllers/categoryController.ts:149-179 | the response is the delete outcome, and only a success removes exactly that row |
| SubCategories.Joined | src/controllers/subCategoryController.ts:30 | the joined rows are exactly the sub-categories whose category exists, with that category's name |
| SubCategories.JoinKeepsAll | src/controllers/subCategoryController.ts:30 | when every category exists the join drops nothing |
| SubCategories.SubCategoryPage | src/controllers/subCategoryController.ts:8-54 | a non-string name makes the listing throw |
| SubCategories.SubCategoryPageContents | src/controllers/subCategoryController.ts:30-40 | a listed page holds joined, matching rows, newest first |
| SubCategories.IntendedDefaults | src/controllers/subCategoryController.ts:13-14 | as intended, without parameters the first ten joined rows, newest first |
| SubCategories.UnpagedWithoutParameters | src/controllers/subCategoryController.ts:13-14 | as written, without parameters every joined row comes back on one page |
| SubCategories.GetSubCategory | src/controllers/subCategoryController.ts:8-54 | the handler's answer equals the listing as written |
| SubCategories.FindById | src/controllers/subCategoryController.ts:56-76 | the row under the id, or 404 with the id in the message |
| SubCategories.CreateOutcome | src/controllers/subCategoryController.ts:78-93 | the insert succeeds exactly for a name, an unused id, an unused name and an existing category |
| SubCategories.Patch | src/controllers/subCategoryController.ts:122-131 | a truthy name, description or category id replaces the stored one |
| SubCategories.UpdateOutcome | src/controllers/subCategoryController.ts:95-139 | 404 for an unknown id, 400 without a body; success exactly when the patched row keeps the constraints |
| SubCategories.CreateKeepsValid | src/db/schema/sub-category.ts:5-25 | creating keeps ids, unique names and the foreign key |
| SubCategories.UpdateKeepsValid | src/db/schema/sub-category.ts:5-25 | updating keeps the table valid and leaves the other rows as they were |
| SubCategories.SubCategoryTable.constructor | src/db/schema/sub-category.ts:5-25 | the table starts with the given rows |
| SubCategories.SubCategoryTable.GetById | src/controllers/subCategoryController.ts:56-76 | the answer is that of `FindById` |
| SubCategories.SubCategoryTable.Create | src/controllers/subCategoryController.ts:78-93 | the response is the create outcome, and only a success adds its row |
| SubCategories.SubCategoryTable.Update | src/controllers/subCategoryController.ts:95-139 | the response is the update outcome, and only a success replaces the row |

## Left out

**Runtime and middleware**
- Asynchrony and the Express `next` chain are not modelled. A handler is one function from its inputs to a response.
- Where a handler can call `next` twice or write after responding, only the first response is modelled.
- The error middleware is reduced to the status and message of the error.
- The authentication middleware is not part of this model. The user id is a parameter, and "" stands for a missing one.
- The JWT token and its cookie are not part of this model, and neither are `logout` and `getme`.
- `getAllCategory` is not part of this model.
- `express.json` giving `{}` rather than no body is not distinguished: the body is present or absent.
- JSON `null` and non-string body fields are not modelled. Body fields are strings or absent.
- `Auth` handlers take `email` and `code` as present strings; only the password may be absent. An absent code would fail the comparison like a wrong one. What Drizzle does with an `undefined` email in `eq` is not part of this model.
- The query string is taken to be parsed by the extended (`qs`) parser. A one-element array such as `?page[]=5` is not modelled: `Number(["5"])` is 5, while `Structured` reads as NaN.
- `ExpenseListing.QueryErrorMessage` is one constant text. The handler sends zod's `parseResult.error.message`, a JSON list of the failed checks, which the model does not build.
- `ExpenseStore.ExpenseBody`, `Categories.CategoryBody` and `SubCategories.SubCategoryBody` keep only the fields the handlers read. The create handlers insert the whole body, so other column keys it carries, such as `createdAt` and `updatedAt`, would be stored. The model drops them and always uses the defaults.

**Clock, randomness and outside services**
- The clock is a parameter `now`, read once per handler.
- `Math.random` is a real in [0, 1), and the id generator is a parameter.
- The salt draw is a parameter.
- Email sending is a parameter giving its error, if any.
- scrypt is an uninterpreted function of the password and the salt.

**Dates and amounts**
- `Dashboard.CardOf` and `Dashboard.Slices`: results are exact rationals. The `toFixed(2)` rounding of averages, percentages and totals is not modelled, because floating point is out of scope.
- `Amounts.AmountText` covers decimals of at most 15 significant digits. Exponent forms, `Infinity` and values whose `toString` switches to exponent notation are outside the model (`None`).
- `Amounts.NumericCents`: in the column, those forms give `NotModelled`. The handlers treat that as a rejected insert.
- `ExpenseStore.DateColumn`: the intended create and update turn the body's date text into a date through the parameter `dateOf`. As written, create never gets that far.
- `Dashboard.CardOf`: the driver is taken to return `SUM` of a numeric as a text, as the PostgreSQL drivers Drizzle supports do. A present sum is then truthy even when it spells zero. The file that picks the driver, src/db/index.ts, is not part of this model.
- `Common.JsNumber`: fractions, exponents and the 0x, 0o and 0b prefixes read as NaN, though `Number("1.5")` is 1.5 and `Number("1e1")` is 10. This affects the listings' `page` and `pageSize` and the parts of a date filter, which the model handles for integer texts only.
- `Common.JsParseInt`: a `0x` or `0X` prefix reads as 0, though `parseInt("0x1F")` is 31 in JavaScript, because the model reads decimal digits only. This affects `Dashboard.YearParam` and `Dashboard.MonthParam`: a hexadecimal `year` or `month` selects year or month 0 in the model.
- `Common.Lower` folds the ASCII letters only. The `ILIKE` filters are case-insensitive in the model for ASCII text only; other letters compare as they are.
- `date-fns` `parse(s, "M/d/yyyy")` is the parameter `parseMdy`.

**Database**
- A table in a listing is a sequence in table order. A query without `ORDER BY`, and ties in an ordered one, keep that order. PostgreSQL does not promise this.
- `ILIKE` patterns are a case-insensitive substring test. `%` and `_` in the text are not treated as wildcards.
- The database's error messages are replaced by one constant text. A handler's `Thrown` result stands for any rejected statement.
- The expense-record listing is not filtered by user, as in the code.
- Sub-category deletion (`deleteSubCategory`) is left out. Its reference check queries the category table's id column, and the model has no table of references for it.
- The 500 branches on a failed category or sub-category lookup in the bulk import cannot be reached from the model's inputs and are left out.
- Users are keyed by email. An id collision on user insert is not modelled.
- `Records.ExpenseRecord` carries `userId`, `categoryId` and `subCategoryId`, which the dashboard filters and joins on. src/db/schema/expense-record.ts does not declare these columns, so against that schema the queries would fail. The model keeps them as optional fields, and a missing one matches nothing.

**CSV parsing**
- The CSV parser is replaced by its output: the rows, each with every column, and whether a parse error ends the stream.
- Removal of the uploaded file is the flag `fileRemoved`.

## Findings

| source | as written | input that shows it | evidently intended | confidence | as-written member | corrected member |
|---|---|---|---|---|---|---|
| src/controllers/expenseRecordController.ts:350-362 | each truthy field of the update body is stored as `data.description`, and `expenseDate` is written to a non-column `name` | a body with currency "EUR" and description "lunch" stores the currency "lunch" | each field takes its own value | high (not executed) | ExpenseStore.CurrencyTakesDescription | ExpenseStore.PatchSetsOwnValues |
| src/controllers/expenseRecordController.ts:322-358 | the category that is checked is not the one stored | a known category name with a description naming no category stores an unknown category | the checked name is stored, keeping every record's category known | high (not executed) | ExpenseStore.UncheckedCategoryStored | ExpenseStore.UpdateKeepsNamesKnown |
| src/controllers/dashboardController.ts:197 | the window's year is `parseInt(req.query.year)`, the raw parameter | a pie-chart query without `year`: NaN gives an Invalid Date, and `toISOString` throws | the schema's decoded year, defaulting to the current year | high (not executed) | Dashboard.PieChartAbsentYearThrows | Dashboard.PieChartAbsentYearIsLoadYear |
| src/controllers/categoryController.ts:13-14 | `Number(req.query.page) ?? 1`: `Number(undefined)` is NaN, which is not nullish, so the default never applies | a listing request without `page` and `pageSize` is not paged, and its page numbers are NaN | page 1 of 10 rows | high (not executed) | Categories.UnpagedWithoutParameters | Categories.IntendedDefaults |
| src/controllers/subCategoryController.ts:13-14 | the same `Number(x) ?? d` defaults | a listing request without `page` and `pageSize` | page 1 of 10 rows | high (not executed) | SubCategories.UnpagedWithoutParameters | SubCategories.IntendedDefaults |
| src/controllers/expenseRecordController.ts:109-119 | `parseResult.data.page` and `pageSize` are read, but the schema no longer has those fields | any listing request with `page=2&pageSize=5` | the page asked for | high (not executed) | ExpenseListing.ListingNeverPages | ExpenseListing.ListingDefaults |
| src/controllers/expenseRecordController.ts:68-107 | each `.where` replaces the previous one, so only the last filter applies | a row with no reason, and a query with a reason and that row's category: the row is listed | every filter applies | high (not executed) | ExpenseListing.FiltersDoNotCombine | ExpenseListing.FiltersCombine |
| src/controllers/expenseRecordController.ts:180-183 | the raw body is inserted, so `expenseDate` reaches the mode-"date" column as a string, whose encoder calls `toISOString` on it and throws; without a date the NOT NULL column refuses the row | any body whose category and sub-category exist, such as one with date "2024-01-15", amount "12.50" and currency "USD" | the date text is converted to a date and the record is created | high (not executed) | ExpenseStore.CreateNeverSucceeds | ExpenseStore.CreateKeepsNamesKnown |
| src/controllers/expenseRecordController.ts:230-290 | a rejected row sends 400, but the rows accepted so far are still inserted at the end of the stream | a two-row file whose first row names an unknown category | no row is inserted unless every row is accepted | medium (not executed) | BulkImport.PartialInsertExample | BulkImport.ImportAllOrNothing |
