# Bee Cycle sales dashboard: filter and aggregate pipeline

A Dafny model of the data logic in the Streamlit script `app.py`. The script
shows the "Dashboard Analisis Penjualan Bee Cycle". It loads a sales table and
normalises its column names. On the "Overview Dashboard" page it narrows the
table by a date range and a list of regions. From the narrowed table it then
computes three headline figures (total sales, number of orders, units sold) and
the data for three charts (a sales trend, sales per product category and sales
per region). The other page, "Prediksi Penjualan", only passes the full table
through.

The table is a `seq<Record>` in file order. A record has the columns the
dashboard reads: `order_detail_id`, `order_date`, `territory_groups`,
`category`, `quantity` and `totalprice_rupiah`. Amounts are whole Rupiah
(`int`). A date is a whole day `(year, month, day)`. The widgets become plain
inputs: the date-range widget's value is a `seq<Date>` whose length the model
tests, the region multiselect's value is a `seq<string>`, and the page radio is
a `Page`.

Modules, one per stage of the script:

- `Columns`: header normalisation (lower-case, spaces to underscores).
- `Dates`: days, months, chronological order, the "YYYY-MM" month label and
  its inverse.
- `Orderings`: strict total orders; Python's string order.
- `Table`: the record type, row selection by a mask (`Where`), column sums.
- `Filters`: the date stage, the region stage and the page switch.
- `Metrics`: total sales, distinct orders, units sold.
- `GroupBy`: `groupby(col)['totalprice_rupiah'].sum()` as a sorted
  (key, total) table.
- `Aggregates`: the category, region and trend charts' data.
- `Dashboard`: the whole overview page, with a worked example.

Points where the code's behaviour differs from what one might expect. The
model follows the code in each case.

- The trend chart is titled "Total Penjualan per Bulan" (total sales per
  month), but app.py:98-99 groups by the full `order_date`. The month
  relabelling at app.py:101-102 does not merge groups. So the series has one
  point per distinct day, and several points can carry the same month label.
  `Dashboard.ExampleTrend` shows two January days giving two "2024-01" points
  rather than one January total.
- A date selection of any length other than two (the widget yields a single
  date while the user is still picking the range) disables the date filter
  entirely (app.py:63-64). It does not filter to that one day.
- Dates are whole days. The filter bounds are midnight timestamps
  (app.py:58-59), and with whole-day dates `start <= order_date <= end` keeps
  rows dated on the end day exactly, as the model states.

## Model

| member | source | states |
|---|---|---|
| `Columns.LowerChar` | app.py:26 | the lower-cased character is never an upper-case ASCII letter; upper-case letters move up by 32 code points (`A` becomes `a`), others are unchanged |
| `Columns.Lower` | app.py:26 | same length; each character is the lower-case of the original one |
| `Columns.ReplaceSpaces` | app.py:27 | same length; each space becomes `_`, every other character is kept |
| `Columns.NormalizeColumn` | app.py:26-27 | a normalised header has the original length, contains no space and no upper-case ASCII letter, and each character is the lower-cased original or `_` for a space |
| `Columns.NormalizeIdempotent` | app.py:26-27 | normalising twice equals normalising once |
| `Columns.NormalizeIdentifies` | app.py:26-27 | two headers of equal length normalise to the same name exactly when they agree character by character up to ASCII case and space versus underscore |
| `Columns.NormalizeHeaders` | app.py:26-27 | the header row keeps its column count and order: header `i` becomes the normalisation of the original header `i`, character by character (lower-cased, a space turned into `_`), so it has its original length, no space and no upper-case ASCII letter |
| `Columns.NormalizeHeadersIdempotent` | app.py:26-27 | normalising the header row again changes nothing |
| `Dates.PeriodOfMonotone` | app.py:101-103 | a later day never falls in an earlier month |
| `Dates.DateLessIsStrictTotalOrder` | app.py:98-99 | chronological order on days is a strict total order, so grouping by day has one sorted place per day |
| `Dates.FormatPeriod` | app.py:104 | the month label is 7 characters, four digits, a dash and two digits, and reads back as the month it was made from |
| `Dates.LabelInjective` | app.py:104 | two month labels are equal exactly when they name the same month |
| `Orderings.StringLessIsStrictTotalOrder` | app.py:123-125 | Python's string order (by code point, prefix first) is a strict total order, so text group keys sort without ties |
| `Table.Where` | app.py:61-62 | a mask selection is a subsequence of the table that holds every row satisfying the mask exactly as often as the table does, and no other row |
| `Table.WhereIdempotent` | app.py:73-74 | selecting with the same mask twice equals selecting once |
| `Table.WhereWhere` | app.py:61-74 | selecting with one mask and then another equals selecting with their conjunction |
| `Table.WhereCommutes` | app.py:61-74 | two selections can be applied in either order with the same result, row for row |
| `Table.WhereAll` | app.py:73-74 | a mask that holds for every row keeps the whole table unchanged |
| `Table.SumByPartition` | app.py:85 | the sums of a column over a selection and over its complement add up to the sum over the whole table |
| `Table.SumByWhereBounded` | app.py:85 | with a non-negative column, the sum over a selection lies between 0 and the sum over the whole table |
| `Filters.DateStage` | app.py:57-64 | with exactly two dates, the result is a subsequence holding exactly the rows with `start <= order_date <= end`, each as often as in the input; with any other number of dates it is the input unchanged |
| `Filters.RegionStage` | app.py:73-74 | the result is a subsequence holding exactly the rows whose region is selected, each as often as in the input; an empty selection yields an empty table |
| `Filters.WorkingTable` | app.py:42-76 | the working table is a subsequence of the full table; on the overview page it holds exactly the rows in a selected region and, when two dates are given, in the date range, each as often as in the full table; on any other page it is the full table |
| `Filters.WorkingTableIsOneSelection` | app.py:57-74 | on the overview page the two stages equal one selection of the full table with both masks when two dates are given, and with the region mask alone otherwise |
| `Filters.SubsetOfWorking` | app.py:57-74 | the date stage followed by the region stage keeps a subsequence of the full table |
| `Filters.DateStageIdempotent` | app.py:57-64 | applying the date stage twice with the same dates equals applying it once |
| `Filters.RegionStageIdempotent` | app.py:73-74 | applying the region stage twice with the same selection equals applying it once |
| `Filters.StagesCommute` | app.py:57-74 | applying the region stage before the date stage gives the same table, row for row |
| `Filters.DateStageKeepsEnds` | app.py:61-62 | with `start <= end`, rows dated exactly on `start` or on `end` are kept |
| `Filters.DateStageReversedEmpty` | app.py:61-62 | with a start day after the end day, no row is kept |
| `Filters.DateStageWholeMonth` | app.py:61-62 | the range from the 1st to the 31st of a month keeps exactly the rows dated in that month |
| `Metrics.TotalSales` | app.py:85 | total sales is 0 for an empty table and never negative when no price is negative |
| `Metrics.TotalUnits` | app.py:87 | units sold is 0 for an empty table and never negative when no quantity is negative |
| `Metrics.OrderIds` | app.py:86 | the distinct identifiers contain every row's identifier and nothing else, and there are no more of them than rows |
| `Metrics.TotalOrders` | app.py:86 | the number of distinct order lines is at most the number of rows, and 0 exactly for an empty table |
| `Metrics.DistinctIdsCountRows` | app.py:86 | when no two rows share an identifier, the number of orders equals the number of rows |
| `Metrics.MetricsOfSubsequence` | app.py:85-87 | dropping rows never increases the order count, and with non-negative columns never increases total sales or units sold |
| `GroupBy.AddToKeys` | app.py:98-99 | adding a row to a grouped table adds its key to the keys and no other key |
| `GroupBy.AddToTotal` | app.py:98-99 | adding a row to a grouped table raises the sum of all totals by that row's price |
| `GroupBy.AddToLookup` | app.py:98-99 | adding a row to a sorted grouped table raises its key's total by the row's price and leaves other keys' totals unchanged |
| `GroupBy.AddToSorted` | app.py:98-99 | adding a row keeps the grouped table's keys strictly ascending |
| `GroupBy.LookupAbsent` | app.py:98-99 | a key with no row in the grouped table has total 0 |
| `GroupBy.SortedKeysCount` | app.py:98-99 | a grouped table with strictly ascending keys has as many rows as distinct keys |
| `GroupBy.SortedKeysLookup` | app.py:98-99 | in a grouped table with strictly ascending keys, each row's total is the one stored for its key |
| `GroupBy.TotalOfPermutation` | app.py:103 | reordering the rows of a grouped table, as sorting does, keeps the sum of its totals |
| `GroupBy.GroupSum` | app.py:98-99 | the grouped table's keys are strictly ascending and are exactly the key values in the table; the total of each key is the total price of that key's rows; all totals add up to total sales |
| `GroupBy.GroupSumRows` | app.py:98-99 | the grouped table has one row per distinct key, and each row holds the total price of exactly the rows with its key |
| `Aggregates.CategorySales` | app.py:123-125 | one row per category present, in ascending text order; each row is the total price of that category's rows; the rows add up to total sales |
| `Aggregates.RegionSales` | app.py:140-142 | one row per region present, in ascending text order; each row is the total price of that region's rows; the rows add up to total sales |
| `Aggregates.RegionSalesWithinSelection` | app.py:140-142 | after the region stage, every region in the region chart is one of the selected regions |
| `Aggregates.SalesByDay` | app.py:98-99 | one row per distinct order date, strictly ascending by day; each row is the total price of that day's rows; the rows add up to total sales |
| `Aggregates.ToMonths` | app.py:101-102 | relabelling keeps the number of rows and each row's total; each row's key becomes the month of its day, with no rows merged |
| `Aggregates.ToMonthsSorted` | app.py:101-102 | relabelling ascending days gives months that never descend |
| `Aggregates.InsertByMonth` | app.py:103 | inserting into month-ordered rows keeps them ordered, adds exactly the one row and adds its total |
| `Aggregates.SortByMonth` | app.py:103 | the sorted rows are in month order and are a permutation of the input, with the same count and the same sum of totals |
| `Aggregates.SortByMonthSorted` | app.py:103 | the stable sort this model uses leaves rows already in month order in place |
| `Aggregates.LabelMonths` | app.py:104 | writing months as text keeps the number of rows and each row's total, and each label reads back as its row's month |
| `Aggregates.ToMonthsTotal` | app.py:101-102 | relabelling keeps the sum of all totals |
| `Aggregates.RelabelKeepsDayOrder` | app.py:101-104 | with the stable sort this model uses, after relabelling, sorting and writing out, row `i` is still day `i` with that day's month as its label and its total unchanged; labels never go back in time; the sum of totals is unchanged |
| `Aggregates.SortByMonthAdmissible` | app.py:103 | the order the model's stable sort produces is month-ordered and holds the same rows, so it is one of the orders pandas may produce |
| `Aggregates.AnyMonthOrderLabelsSorted` | app.py:103-104 | in any month-ordered arrangement, the written labels never go back in time |
| `Aggregates.AnyMonthOrderSamePoints` | app.py:98-104 | any month-ordered arrangement of the per-day rows writes out one point per distinct day, the same points as the day-ordered series, adding up to total sales |
| `Aggregates.PointOfSomeDay` | app.py:98-104 | in any month-ordered arrangement, each point is labelled with the month of a day present in the table and holds that day's total price |
| `Aggregates.TrendUnderAnyMonthOrder` | app.py:98-104 | whatever order pandas' unstable sort gives days of the same month, the trend has one point per distinct day, labels that never go back in time, points adding up to total sales, the same points as the day-ordered series, and each point is the month of a day in the table with that day's total |
| `Aggregates.SalesTrend` | app.py:98-104 | one point per distinct order date; labels never go back in time; points add up to total sales; with the stable sort this model uses, point `i` is labelled with the month of the `i`-th day and holds that day's total price (the order-independent guarantees are those of `Aggregates.TrendUnderAnyMonthOrder`) |
| `Dashboard.PageContent` | app.py:79-150 | only the overview page computes content; each figure and chart is the corresponding metric or grouping of the filtered table; the sales shown are those of the full table's rows passing both sidebar masks (the region mask alone when the date selection is not two dates); the trend, category and region data each add up to the total sales shown; the region chart shows selected regions only; orders do not exceed rows kept; an empty region selection shows zeros and empty charts; with non-negative prices the sales shown lie between 0 and the full table's total |
| `Dashboard.ExampleFilter` | app.py:57-76 | on the three example lines, January with both regions keeps the two January lines |
| `Dashboard.ExampleMetrics` | app.py:85-87 | the two January lines give sales of 1500, 2 orders and 3 units |
| `Dashboard.ExampleSalesByDay` | app.py:98-99 | grouping the two January lines by day gives one row per day, 1000 and 500 |
| `Dashboard.ExampleRelabel` | app.py:101-104 | relabelling, sorting and writing out the two January days gives two points both labelled "2024-01" |
| `Dashboard.ExampleTrend` | app.py:98-104 | the trend of the two January lines is two "2024-01" points, 1000 and 500, not one January total |
| `Dashboard.ExampleBreakdowns` | app.py:123-142 | the two January lines give one category row, Bike 1500, and region rows North 1000 and South 500, in that order |
| `Dashboard.ExamplePage` | app.py:79-142 | the whole overview page on the example gives sales 1500, 2 orders, 3 units and the trend, category and region data above |

## Left out

- Streamlit UI (page config, titles, sidebar, radio, `date_input`, `multiselect`, columns, tabs, `st.metric`; app.py:9-14, 32-55, 67-71, 81-95, 115-121, 137-138): widget values are inputs of the model. The widget bounds `min_date`/`max_date` (app.py:47-48) only constrain the widget and are not modelled.
- Chart construction and rendering with Plotly (app.py:106-112, 127-135, 144-150): foreign calls with no behaviour to verify.
- CSV loading and `@st.cache_data` (app.py:19-21): I/O and decorator semantics. The model starts from the loaded rows.
- Date parsing by `pd.to_datetime` (app.py:28-29, 58-59): a library parse. Dates are already typed values. A `Day` is any of 1 to 31 in every month, because no property depends on calendar validity.
- Time of day: `order_date` is modelled as a whole day. A timestamp later than midnight on the end day would be dropped by the code; the model has no such timestamps.
- Floating-point money and the `Rp {total_sales:,.2f}` formatting (app.py:90): amounts are integers.
- pandas NaN handling in `sum`, `nunique` and `groupby`: the model assumes no missing values.
- `df_sales.copy()` (app.py:76): sequences are values, so copying and aliasing are not modelled.
- The forecast page: it has no behaviour beyond passing the full table through.
- `Columns.Lower`: models `str.lower` for ASCII letters only; non-ASCII case mapping (which can change a string's length) is not modelled.
- `Aggregates.SortByMonth`: a stable sort. The code's `sort_values` uses pandas' default quicksort, which is not stable. pandas may therefore order points with equal month labels differently. The model keeps them in day order, which is one of the orders pandas may produce (`Aggregates.SortByMonthAdmissible`). What holds for every order pandas may produce is stated by `Aggregates.TrendUnderAnyMonthOrder`.
- `Aggregates.SalesTrend`: its per-position clause (point `i` is day `i`) holds for the stable sort the model uses, not for every order pandas' unstable sort may give days of the same month.
- `GroupBy.GroupSum`: sums the price column only, the only column the dashboard groups. `reset_index` is modelled by returning (key, total) rows.
