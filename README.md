# Absurd Management Information — a Dafny model of the dashboard's figures

This project models the core of a three-page Streamlit dashboard over invoice data:

- `app.py` shows the invoicing total of the fiscal year and its monthly bars.
- `pages/1_Revenue.py` compares the fiscal year to date with the same span a year earlier. It shows the two totals, the year-on-year percentage, the monthly bars and a table of clients.
- `pages/2_Cashflow.py` checks that the credentials environment variables are set. It then shows the month-by-month totals of amounts due as one pivoted row.

The model keeps the dashboard's own steps:

- **Fiscal calendar** (`fiscal.dfy`, `calendar.dfy`):
  - A fiscal year starts on 1 October.
  - `app.py` ends it on 30 September of the next year; the revenue page ends it at today.
  - The prior-year window is both bounds moved back one year with `pd.DateOffset(years=1)`, so 29 February becomes 28 February.
  - `datetime` only holds years 1 to 9999, so the bounds are `Option`s whose `None` is the `ValueError`.
- **Month scaffold** (`scaffold.dfy`):
  - `pd.date_range(freq="MS")` gives the month buckets, each labelled `%b-%Y`.
  - The query rows, keyed `%Y-%m`, are left-merged onto the buckets and `fillna(0)` fills the gaps.
  - The page totals are the sums of that series.
- **Variance** (`variance.dfy`): `(current - previous) / previous * 100`, and `0.0` for a zero baseline.
- **Client table** (`clients.dfy`):
  - The current and previous per-client totals are outer-joined on the name, with a missing side read as 0.
  - A percentage column is added.
  - The rows are sorted in place by current revenue, largest first. This is an `array` sorted by selection sort.
- **Cashflow table and credentials check** (`cashflow.dfy`):
  - `load_credentials` collects the ten `GCP_*` variables and stops with `Missing environment variables: ` followed by the `", "`-joined missing keys.
  - The monthly rows are labelled `%b-%Y` and pivoted with `aggfunc='sum'`.
  - The columns are sorted by parsing each label back, and every cell is formatted as `£{x:,.2f}`.
- **Text formats** (`formats.dfy`, `text.dfy`):
  - `%Y-%m` keys and `%b-%Y` labels with their parsers.
  - Currency text with comma-grouped thousands, with a parser that reads it back.
  - `", ".join` with a splitter.
- **Pages** (`app.dfy`, `revenue.dfy`, `cashflow.dfy`): each page as a whole, from `today`, the environment and the query rows to what it shows or the error it stops with.

Representation choices:

- Amounts are whole numbers of pence.
- Percentages are `real`.
- Query results are parameters: sequences of (key, amount) rows.

How the pages behave at the edges:

- On the invoicing and revenue pages an empty query result stops the page. `pd.DataFrame([])` has no columns, so the pages stop with a `KeyError` naming the first column they read (`month`, `total_amount` or `client_name`). The page's broad `except` then shows the error. The cashflow page checks for empty results itself and shows no table.
- A zero previous amount gives a percentage of `0.0`. This holds both for the headline metric and for each client.
- The client table has one row per client and no totals row. Its columns are the name, the two revenues and the percentage difference. A negative amount is shown as `£-1,234.56`.

## Model

| member | source | states |
|---|---|---|
| Fiscal.FiscalStart | pages/1_Revenue.py:29-32 | the start is 1 October and is the latest 1 October on or before today; it is absent (ValueError) exactly for January–September of year 1 |
| Fiscal.FiscalStartUnique | pages/2_Cashflow.py:105-108 | any 1 October on or before today whose next 1 October is after today is the fiscal start |
| Fiscal.FullFiscalYear | app.py:15-21 | the year runs from the fiscal start to 30 September of the next year and contains today; it is absent exactly when a bound leaves years 1–9999 |
| Fiscal.OneYearEarlier | pages/1_Revenue.py:38-39 | same month one year earlier, same day except 29 February becomes 28 February; absent exactly in year 1 |
| Fiscal.OneYearEarlierMonotone | pages/1_Revenue.py:38-39 | moving two dates back a year keeps their order |
| Fiscal.RevenueWindows | pages/1_Revenue.py:28-39 | the windows exist exactly when today is outside year 1 and not in January–September of year 2 |
| Fiscal.RevenueWindowsSpec | pages/1_Revenue.py:28-39 | current window is fiscal start to today; previous window is 1 October of the year before to today a year earlier, and is not empty |
| Fiscal.ToDateBucketCount | pages/1_Revenue.py:121 | the to-date scaffold has 1–12 months, from October of the start year to today's month (`m - 9` from October, `m + 3` otherwise) |
| Fiscal.FullYearBuckets | app.py:24-28 | the full-year scaffold has exactly 12 months, October to September, bucket i in calendar month (i + 9) % 12 + 1 |
| Fiscal.PreviousWindowBuckets | pages/1_Revenue.py:38-39 | the previous window covers as many months as the current one, each exactly one year earlier |
| Calendar.MonthStartsSpec | app.py:24-28 | `date_range(freq="MS")` yields exactly the months whose first day lies in [start, end], strictly chronological with none skipped, all valid |
| Calendar.OrdinalOrder | pages/2_Cashflow.py:174 | comparing month ordinals is chronological comparison of the months' first days, and equal ordinals mean the same month |
| Formats.ParseMonthKey | app.py:67 | a `%Y-%m` key that parses gives a valid month |
| Formats.MonthKeyRoundTrip | app.py:67 | parsing the `%Y-%m` key of a month gives that month back |
| Formats.ParseMonthLabel | pages/2_Cashflow.py:174 | a `%b-%Y` label that parses gives a valid month |
| Formats.MonthLabelRoundTrip | pages/2_Cashflow.py:174 | a `%b-%Y` label is 8 characters and parsing it gives its month back |
| Formats.MonthLabelInjective | pages/2_Cashflow.py:153 | two months share a label exactly when they are the same month |
| Formats.ParseAmountText | app.py:86 | the `{:,.2f}` text of a non-negative amount reads back as the same number of pence |
| Formats.NegativePoundsRoundTrip | pages/2_Cashflow.py:181 | a negative amount's `£` text reads back as the same amount |
| Formats.NonNegativePoundsRoundTrip | pages/2_Cashflow.py:181 | a non-negative amount's `£` text reads back as the same amount |
| Formats.FormatPoundsRoundTrip | app.py:86 | every `£{x:,.2f}` text reads back as exactly the amount shown: no figure is lost or altered by formatting |
| Text.ZeroPadSpec | app.py:43 | zero padding keeps the value, and a number below 10^w fills exactly w characters |
| Text.UngroupThousands | app.py:86 | grouping digits with `,` only inserts commas: removing them gives the digits back |
| Text.GroupThousandsShape | app.py:86 | grouped digits start with a digit and have a comma exactly every fourth place from the right |
| Text.JoinSplitRoundTrip | pages/2_Cashflow.py:38 | splitting a `", "`-joined list of comma-free items gives the items back |
| Scaffold.ParseMonthRows | app.py:67 | the conversion succeeds exactly when every key parses; it then keeps every row's order, month and amount |
| Scaffold.Buckets | app.py:31-34 | one bucket per month, in order; each bucket's label parses back with `%b-%Y` to exactly that bucket's month |
| Scaffold.BucketLabelsDistinct | app.py:31-34 | buckets over chronological months have pairwise distinct labels |
| Scaffold.MonthScaffold | app.py:24-34 | the buckets are the months whose first day lies in the window, in order, each labelled |
| Scaffold.BucketsCoverMonths | app.py:31-34 | the buckets hold exactly the given months |
| Scaffold.Lookup | app.py:70 | no amount exactly when no row has the month; otherwise the amount of a row for that month |
| Scaffold.LeftMerge | app.py:70 | one merged row per bucket; the amounts are stated by FillMonthsSpec |
| Scaffold.FillNa | app.py:73 | one filled row per merged row; the amounts are stated by FillMonthsSpec |
| Scaffold.FillMonthsSpec | app.py:70-73 | one row per bucket with its month and label; each amount is the amount of a row for that month if there is one, else 0 |
| Scaffold.FillMonthsShape | app.py:70-76 | the filled rows keep the buckets' months and labels in bucket order |
| Scaffold.FilledScaffold | app.py:69-76 | the filled scaffold of a window has one row per month start, chronological, labelled, none skipped, whatever the query returned |
| Scaffold.LookupIsMonthSum | app.py:70 | with one row per month, the merged amount (0 if none) is the sum of that month's rows |
| Scaffold.FillMonthsTotal | app.py:83 | the total of the filled series is the sum of the query rows whose month is a bucket |
| Scaffold.SumOverWindowBuckets | app.py:49 | summing the bucket months is summing the rows whose month starts inside [start, end] |
| App.InvoicingPage | app.py:57-87 | ValueError when a fiscal bound is out of range, KeyError("month") on an empty result, ValueError on an unreadable key, and a page exactly otherwise; the page has the fiscal year's bounds, a total that is the sum of its series, and that total's `£{x:,.2f}` text, which reads back as the total |
| App.InvoicingMonths | app.py:69-76 | the table holds the 12 fiscal months October–September, in order, labelled, whatever months the query returned |
| App.InvoicingAmounts | app.py:70-73 | each month's amount is the amount of a query row for that month if there is one, else 0 |
| App.InvoicingTotal | app.py:83 | the total is the sum of the query rows whose month lies in the fiscal year |
| Variance.PercentDiff | pages/1_Revenue.py:138-142 | 0.0 for a zero baseline, else r · previous = (current − previous) · 100; zero exactly on no change or zero baseline; sign follows the change |
| Variance.PercentDiffExamples | pages/1_Revenue.py:157-160 | 150 from 100 is +50, 50 from 100 is −50, any zero baseline is 0.0 |
| Clients.AmountOf | pages/1_Revenue.py:152 | a client's amount on one side is the amount of a row it has, or 0 when it has no row there |
| Clients.CurrentSide | pages/1_Revenue.py:152 | one joined row per current client, in order; its previous amount is the amount of a previous row with that name, or 0 when no previous row has the name |
| Clients.PreviousOnlySpec | pages/1_Revenue.py:152 | the previous-only rows are exactly the previous clients with no current row, each once, with current amount 0 |
| Clients.OuterJoinSpec | pages/1_Revenue.py:152 | the join has exactly one row per client of either side, holding its amount on each side, 0 where it has none |
| Clients.WithPercent | pages/1_Revenue.py:157-162 | each row keeps its name and amounts; its percentage is 0.0 when the previous amount is 0, and otherwise times the previous amount gives (current − previous) · 100 |
| Clients.IndexOfLargest | pages/1_Revenue.py:172 | the position found holds a largest `Revenue YTD` of the unsorted part |
| Clients.Swap | pages/1_Revenue.py:172 | two rows exchange places, nothing else moves, and the table keeps the same rows |
| Clients.SortByRevenueDescending | pages/1_Revenue.py:172 | in place, the rows end sorted by current revenue, largest first, and are a permutation of the rows before |
| Clients.ClientTable | pages/1_Revenue.py:152-172 | any reordering of the joined rows has exactly one row per client of either query, each holding its two amounts and their percentage |
| Revenue.RevenueFigures | pages/1_Revenue.py:113-162 | the page's errors in the order it meets them: ValueError for the windows, KeyError("month") on no current monthly rows, ValueError on an unreadable key, KeyError("total_amount") on no previous monthly rows, KeyError("client_name") on an empty client query; a report exactly otherwise, with the windows and the two totals' `£{x:,.2f}` texts, which read back as the totals |
| Revenue.RevenuePage | pages/1_Revenue.py:113-172 | the figures unchanged except the client table, which is sorted by current revenue, largest first, and keeps the same rows |
| Revenue.SortedClients | pages/1_Revenue.py:172 | the sorted rows are ordered by current revenue, largest first, and are a permutation of the input |
| Revenue.ToDateSeries | pages/1_Revenue.py:121-129 | the to-date filled scaffold runs from October of the start year to today's month, one row per month, labelled |
| Revenue.RevenueMonths | pages/1_Revenue.py:116-129 | the chart holds every month of the fiscal year so far, in order, whatever months the query returned |
| Revenue.RevenueAmounts | pages/1_Revenue.py:127-128 | each month's bar is the amount of a query row for that month if there is one, else 0 |
| Revenue.RevenueTotals | pages/1_Revenue.py:130-142 | the current total is the sum of the rows with a month between the fiscal start and today; the previous total sums all previous rows; the percentage compares the two |
| Revenue.RevenueClientTable | pages/1_Revenue.py:145-172 | the shown client table has exactly one row per client of either query, with its two amounts (0 where missing) and their percentage |
| Cashflow.MissingKeys | pages/2_Cashflow.py:36 | no more missing keys than keys |
| Cashflow.MissingKeysSpec | pages/2_Cashflow.py:36-37 | a key is listed exactly when its value is None; the list is empty exactly when every value is present |
| Cashflow.MissingKeysInOrder | pages/2_Cashflow.py:36 | the missing keys keep the dict literal's order |
| Cashflow.CredentialValues | pages/2_Cashflow.py:22-33 | one value per key, absent exactly when its environment variable is unset |
| Cashflow.LoadCredentials | pages/2_Cashflow.py:17-41 | stops exactly when some variable is unset; otherwise each key paired with its variable's value, in the dict's order |
| Cashflow.KeysWithoutCommas | pages/2_Cashflow.py:22-33 | no credential key contains a comma, so the joined message can be read back |
| Cashflow.CredentialsMessage | pages/2_Cashflow.py:38 | the message is the prefix plus a list that reads back as exactly the keys whose variable is unset, in the dict's order |
| Cashflow.LabelRows | pages/2_Cashflow.py:153 | each row keeps its amount, and its new label parses back with `%b-%Y` to exactly the row's month |
| Cashflow.PivotSums | pages/2_Cashflow.py:165-171 | the pivot has a column for each label of the rows and no other |
| Cashflow.LabelSumIsMonthSum | pages/2_Cashflow.py:165-171 | the pivot's sum for a month's label is the sum of that month's rows |
| Cashflow.LabelsParse | pages/2_Cashflow.py:174 | every pivot column parses back with `%b-%Y` |
| Cashflow.EarliestColumn | pages/2_Cashflow.py:174 | the column picked is one of those left, with the earliest month |
| Cashflow.SortChronologically | pages/2_Cashflow.py:174 | every column exactly once, in order of the month its label parses to |
| Cashflow.Cells | pages/2_Cashflow.py:181 | one cell per column, in column order; each cell is the `£` text of the column's sum and reads back as exactly that sum |
| Cashflow.SortedPivotIsTable | pages/2_Cashflow.py:165-181 | chronologically sorted pivot columns, formatted, give exactly the months of the rows, strictly in month order, each cell the text of that month's sum |
| Cashflow.MonthlyTotals | pages/2_Cashflow.py:150-184 | no table exactly when there are no rows, ValueError exactly on an unreadable key, otherwise one column per month present, strictly chronological, each the `£` text of that month's sum |
| Cashflow.CashflowPage | pages/2_Cashflow.py:100-184 | stops with the missing-variables message exactly when a variable is unset; fails with ValueError exactly when the variables are set and the fiscal start is out of range or a key is unreadable; otherwise shows the fiscal start and the monthly table (none exactly when there are no rows) |

## Left out

- The BigQuery client and the SQL queries are not modelled. Their results are parameters, and each query's `GROUP BY` is read as "one row per key". Lemmas that need that assume it: `UniqueMonths` and `UniqueNames`. On a repeated month key, `LeftMerge` keeps only the first row, where pandas' `merge(how='left')` would repeat the bucket once per matching row. So the one-row-per-month shape of `InvoicingMonths` and `RevenueMonths` holds for the model, not for such input.
- The query windows' SQL `BETWEEN` filtering is not modelled as such. `SumOverWindowBuckets` states which rows a window-bounded sum keeps.
- Streamlit rendering is not modelled: titles, metrics, Altair charts, `st.table`/`st.dataframe`, the spinner, and `st.error` inside the broad `except`. Neither is caching (`st.cache_resource`, `st.cache_data(ttl=600)`). The pages' results are values: a report, an error, or a stop message.
- `datetime.today()` is a parameter `today`.
- `os.environ` is a map parameter.
- `st.secrets` on the revenue page (`pages/1_Revenue.py:11-22`) is not modelled. A missing secret is a `KeyError` raised before the page's `try`.
- `app.py:9` sets `GOOGLE_APPLICATION_CREDENTIALS`. This has no effect on the figures.
- Floating point is not modelled: amounts are whole pence and percentages are exact reals. `{:,.2f}` rounding of fractional pence and the metric's `{:,.1f}%` rounding are not modelled.
- The cashflow page's day-by-day query, its `due_date` conversion and its line chart (`pages/2_Cashflow.py:45-67, 115-143`) are not modelled. They produce only a chart.
- The `strftime('%Y-%m-%d')` query bounds and the `%d %b %Y` metric labels are not modelled. They are display and query text only.
- `pd.Timestamp` can only hold years 1677 to 2262, which is narrower than `datetime`'s 1 to 9999. The model uses `datetime`'s range throughout.
- `ParseMonthLabel`: `%b` is matched case-sensitively against the English abbreviations only. `strptime` also accepts other letter cases and is locale-dependent.
- `ParseMonthKey`: only exact `YYYY-MM` keys are accepted. `pd.to_datetime` reads a few more spellings, but BigQuery's `FORMAT_TIMESTAMP('%Y-%m')` produces none of them.
- `Clients.OuterJoin`: rows come out as the current side and then the previous-only rows. pandas orders an outer join by key. Only the order of equal revenues after the sort depends on this, and the page promises no such order.
- `Clients.SortByRevenueDescending`: it leaves equal revenues in the order the selection sort produces, where pandas' quicksort gives its own.
- The `rename` of columns and the `reset_index(drop=True)` do not change any value, so they are not modelled.
- `pivot_table(index=[])` is modelled as the single row it produces: a sequence of (column, cell) pairs.
- `Cashflow.LabelKey`: it gives 0 for a label that does not parse. Only labels that parse reach the sort; on the page, a label that did not parse would raise `ValueError`.
- `Formats.YearText`: it always renders the year with four digits. `strftime('%Y')` on glibc writes years below 1000 without padding, so the model's labels and keys for years 1 to 999 differ from the page's.
