# Monthly transaction queries of the sales dashboard server

This project models the read endpoints of the dashboard's Express server as
pure functions over the `Transaction` collection. The collection is a
`seq<Transaction>` in its natural (insertion) order. The four endpoints are:

- `GET /api/transactions`: an optional month window and an optional exact
  `_id` lookup, then `skip`/`limit` pagination.
- `GET /api/statistics`: the month's total sale amount, sold count and
  unsold count.
- `GET /api/bar-chart`: ten fixed price buckets counted over the month.
- `GET /api/pie-chart`: the month's records grouped by category.

Modules, one per component of the query layer:

- `Calendar` (`calendar.dfy`): `new Date(year, monthIndex, 1)` in local
  time, including two behaviours of JavaScript's `Date`. A year from 0 to 99
  means 1900–1999. A month index outside 0..11 moves the year by
  `monthIndex / 12`, rounded down, so index 12 is January of the next year
  and index -1 December of the previous one. Also holds the half-open month
  window `[first of month, first of next month)`.
- `Wrappers`, `Collection` (`collection.dfy`): the record, the query
  document (a conjunction of optional conditions), object spread
  (`Merge`), `find`, `countDocuments` and `$sum`.
- `Listing`, `Statistics`, `BarChart`, `PieChart`: one module per endpoint.
- `SampleMonth`: three concrete records and the answers for November 2022.

Query-string values are strings in JavaScript. `month` and `search` are
therefore `None` only when absent or empty, the two falsy cases. A month of
"0" is truthy: the listing then filters on December of the previous year
(`Calendar.MonthWindowOutOfRange`).

Three behaviours of the code worth stating outright:

- `year` is applied in every endpoint, the listing included (line 45).
- The histogram's buckets 2–9 all start at `100k + 1`, and the last one
  starts at 901 (lines 93–101). So no bucket counts prices in [100, 101),
  [200, 201), …, [900, 901), and the bucket labelled "900-above" counts
  prices from 901.
- `search` narrows the month filter (the object spread at line 51). It does
  not replace it.

## Model

| member | source | states |
|---|---|---|
| `Calendar.FirstOfMonth` | Server/server.js:67-68 | `new Date(year, idx, 1)` is a valid local midnight on day 1, and its month number is `FullYear(year) * 12 + idx`. So an index of 12 is January of the next year, and -1 is December of the previous one. |
| `Calendar.MonthWindow` | Server/server.js:88-89 | Both bounds are valid instants. The start is in month `FullYear(year) * 12 + month - 1`, and the end is exactly one month later. |
| `Calendar.MonthWindowSelectsMonth` | Server/server.js:73 | For any integer month, a valid `dateOfSale` meets `$gte start, $lt end` if and only if it is in calendar month `FullYear(year) * 12 + month - 1`. |
| `Calendar.MonthWindowIsCalendarMonth` | Server/server.js:113-117 | For months 1–12, the window holds exactly the instants whose year is `FullYear(year)` and whose month is `month`. |
| `Calendar.MonthWindowHalfOpen` | Server/server.js:67-73 | The window contains its start but not its end, and its end is the next month's start. |
| `Calendar.MonthWindowBounds` | Server/server.js:88-89 | For months 1–12, the start is the first of the month. The end is the first of the next month, and for December it is 1 January of the next year. |
| `Calendar.MonthWindowOutOfRange` | Server/server.js:45 | Month 0 (the truthy "0") gives a window starting 1 December of the previous year. Month 13 gives one starting 1 January of the next year. |
| `Calendar.TwoDigitYear` | Server/server.js:67 | Years 0–99 produce windows in 1900–1999. |
| `Collection.Find` | Server/server.js:55 | `find` returns only records of the collection that meet every condition, and every such record. It is never longer than the collection. |
| `Collection.Merge` | Server/server.js:51 | The spread result keeps every condition of the right-hand query: a record it matches meets that query. Spreading a bare `_id` condition adds just that condition. |
| `Collection.MergeIsConjunction` | Server/server.js:51 | Spreading two queries with no field in common matches exactly the records that meet both. |
| `Collection.FindMerge` | Server/server.js:49-52 | A merged query finds the same records, in the same order, as filtering by one query and then by the other. |
| `Collection.CountDocuments` | Server/server.js:76-77 | The count is at most the collection's size, and it is 0 if and only if no record of the collection meets the query. |
| `Collection.CountSoldSplit` | Server/server.js:76-77 | `countDocuments` with `sold: true` plus `countDocuments` with `sold: false` equals the count without a `sold` condition. |
| `Collection.SumPrices` | Server/server.js:74 | With non-negative prices the `$sum` is non-negative and at least as large as every single price. |
| `Collection.SumPricesAppend` | Server/server.js:74 | The `$sum` over two runs of records is the sum of the two runs' sums. |
| `Collection.FindByIdAtMostOne` | Server/server.js:50 | When ids are unique, a query with an `_id` condition finds at most one record. |
| `Listing.ListingQuery` | Server/server.js:44-52 | The query has no `sold` or `price` condition. A record matches it if and only if it is in the month's window when a month is given, and its `_id` equals `search` when `search` is truthy. |
| `Listing.SkipCount` | Server/server.js:42-43 | The skip is 0 if and only if the page is 1 or `perPage` is 0. It is negative if and only if the page is below 1 with a positive `perPage`, or above 1 with a negative `perPage`. |
| `Listing.Skip` | Server/server.js:55 | `skip(n)` drops the first `n` records and keeps the rest in order, or returns nothing when `n` passes the end. |
| `Listing.Limit` | Server/server.js:55 | `limit(n)` keeps a prefix of the input. The prefix has `min(len, abs(n))` records, or all of them when `n` is 0. |
| `Listing.ListTransactions` | Server/server.js:42-60 | The handler answers 500 exactly when `(page - 1) * perPage` is negative. Otherwise it returns only records of the collection that match the listing query. |
| `Listing.ListingSelects` | Server/server.js:44-52 | A record is selected (before pagination) if and only if it is in the collection, and it is in the month when a month is given, and its `_id` equals `search` when `search` is truthy. No other field is compared. |
| `Listing.NoFilterListsAll` | Server/server.js:44-46 | With no month and no search, the selection is the whole collection in order. |
| `Listing.SearchWithinMonth` | Server/server.js:49-52 | With a month and a search, the selection is the month's records filtered again by `_id` (an intersection). |
| `Listing.SearchAtMostOne` | Server/server.js:49-52 | When ids are unique, a search selects at most one record, and a successful reply holds at most one. |
| `Listing.Pagination` | Server/server.js:42-55 | A successful page is the contiguous run of the selection starting at `(page - 1) * perPage`, in collection order. Its length is `min(abs(perPage), remaining)`: all remaining records when `perPage` is 0, and none when the skip passes the end. |
| `Listing.DefaultPaging` | Server/server.js:42 | Without `page` and `perPage`, the reply is the first ten selected records. |
| `Listing.ListedPage` | Server/server.js:43-55 | For a positive `perPage`, page `k` of the handler is `Page(selection, perPage, k)`. |
| `Listing.PagesTile` | Server/server.js:43-55 | Pages 1 to `k` concatenated are the first `k * perPage` records of the selection, so no record is repeated or skipped between pages. |
| `Statistics.TotalGroups` | Server/server.js:72-75 | The `$group` stage yields at most one group, and none exactly when nothing matches. |
| `Statistics.GetStatistics` | Server/server.js:65-78 | `totalSaleAmount` is the sum of the prices of the month's records, and it is 0 when the month has none. |
| `Statistics.SoldCounts` | Server/server.js:76-77 | `totalSoldItems` and `totalNotSoldItems` are the numbers of the month's records with `sold` true and with `sold` false. |
| `Statistics.SoldPlusUnsold` | Server/server.js:76-77 | `totalSoldItems + totalNotSoldItems` equals the number of records in the window. |
| `Statistics.TotalNonNegative` | Server/server.js:72-78 | With non-negative prices, the total sale amount is non-negative. |
| `Statistics.OtherMonthsIgnored` | Server/server.js:72-77 | Adding a record outside the window changes none of the three figures. |
| `BarChart.GetBarChart` | Server/server.js:91-102 | The response has exactly 10 entries, and their labels follow the bucket order. |
| `BarChart.BarCountIsBucketOfMonth` | Server/server.js:92-101 | Each count is the number of the month's records whose price meets that bucket's bounds. |
| `BarChart.BarChartLabels` | Server/server.js:92-101 | The labels are "0-100", "101-200", …, "801-900", "900-above", in that order. |
| `BarChart.BucketBounds` | Server/server.js:92-101 | Bucket 0 is [0, 100). Buckets 1–8 are [100i + 1, 100i + 100). Bucket 9 is [901, ∞). |
| `BarChart.BucketsDisjoint` | Server/server.js:92-101 | No price lies in two buckets. |
| `BarChart.CoveredIffNotInGap` | Server/server.js:92-101 | Some bucket holds a price if and only if the price is non-negative and not in [100, 901) with an integer part that is a multiple of 100. |
| `BarChart.GapExamples` | Server/server.js:92-101 | 100, 200, 900, 100.5 and -1 fall in no bucket. 99.99, 150 and 901 are counted, and 900.5 is not in bucket "801-900". |
| `BarChart.BarCountsSum` | Server/server.js:91-102 | The ten counts sum to the number of the month's records whose price is in no gap, which is at most the number of records in the window. |
| `PieChart.GroupByCategory` | Server/server.js:118 | Groups have distinct categories and each counts at least one record. The count of every category equals its number of records, and the counts sum to the number of records. |
| `PieChart.GetPieChart` | Server/server.js:111-125 | The groups have distinct categories and each counts at least one record. Each category's count is its number of records in the month, and the counts sum to the number of records in the window. |
| `PieChart.TallyCount` | Server/server.js:118 | Adding a record of category `c` raises the count of `c` by one and leaves every other count unchanged. |
| `PieChart.PieChartPartitionsMonth` | Server/server.js:116-119 | Every record of the window is counted in exactly one group. Each group's count is at least 1 and equals the number of the month's records of its category. The counts sum to the number of records in the window. |
| `PieChart.EmptyMonthNoGroups` | Server/server.js:116-119 | A month without records yields no groups. |
| `SampleMonth.SampleWindows` | Server/server.js:67-68 | With sales on 5 and 20 November 2022 and on 1 December 2022, November holds the first two and December holds the third. |
| `SampleMonth.SampleStatistics` | Server/server.js:72-78 | For those records, November 2022 gives a total of 200, one sold and one unsold. |
| `SampleMonth.SampleBarChart` | Server/server.js:92-93 | A price of 50 is counted in "0-100" and a price of 150 in "101-200". |
| `SampleMonth.SamplePieChart` | Server/server.js:116-119 | Categories X and Y each form one group with count 1. |

## Left out

- `/api/init-database` (lines 28–38) is left out. It fetches a remote JSON
  file and bulk-inserts it, which is only I/O.
- `/api/combined-data` (lines 128–142) is left out. It issues four HTTP
  requests concurrently and merges their bodies, and neither the HTTP calls
  nor the concurrency is modelled.
- Express, CORS, the Mongoose connection and schema set-up, the start-up
  code and the `console.log` calls (lines 1–25, 69–70, 144–147) are
  framework wiring and logging.
- Failures of the database (a lost connection or a failed query), which the
  catch blocks turn into status 500, are not modelled. The only 500 modelled
  is the database refusing a negative `skip`.
- Non-numeric `month`, `year`, `page` or `perPage`, which JavaScript turns
  into `NaN` and an invalid `Date`, are not modelled. The same holds for a
  `month` given without a `year` in the listing. All four parameters are
  integers here.
- Listing.SkipCount: does not model the non-integer strings for which
  `(page - 1) * perPage` (numeric coercion) and `parseInt(perPage)`
  (truncation) would disagree, because the parameters are integers here.
- Prices are exact reals. IEEE floating-point rounding in `$sum` is not
  modelled, and neither is `|| 0` turning a `NaN` total into 0.
- Instants are in the server's local time. The conversion of stored UTC
  `dateOfSale` values to local time is not modelled, and neither are
  daylight-saving shifts or the limited range of `Date`.
- Mongoose casts `search` to an ObjectId, and a string that is not a valid
  ObjectId makes the query fail. That cast is not modelled: ids are strings
  compared by equality.
- Records always have a boolean `sold` and a numeric `price`. Documents with
  missing or null fields, for which `totalSoldItems + totalNotSoldItems`
  could fall short of the window's size, are not modelled.
- `find` returns records in collection order, which the database's default
  order is not guaranteed to match. The order of the pie chart's groups is
  undefined in the database. The model builds one particular order, and
  every property about groups is stated independently of it.
- The dashboard's React components only fetch and render JSON and are not
  part of this model. That includes its 0-based month values `'00'`–`'11'`,
  which the server reads as 1-based.
