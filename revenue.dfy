/**
 * pages/1_Revenue.py: this fiscal year to date against the same span a year
 * earlier. The current monthly rows are scaffolded into the months from
 * October to today's month; the two monthly totals give the year-on-year
 * percentage; the two per-client queries are outer-joined into a table sorted
 * by current revenue, largest first.
 */
module Revenue {
  import opened Wrappers
  import opened Calendar
  import opened Formats
  import opened Fiscal
  import opened Scaffold
  import opened Variance
  import opened Clients

  datatype RevenueReport = RevenueReport(
    windows: Windows,
    series: seq<FilledRow>,
    totalCurrent: int,
    totalPrevious: int,
    currentText: string,
    previousText: string,
    yoyPercent: real,
    clients: seq<ClientRow>)

  /**
   * Everything the page computes before sorting the client table, from
   * `today` and the rows of its four queries. It stops with `ValueError` when
   * a window bound leaves `datetime`'s years or a current month key cannot be
   * read, and with a `KeyError` naming the column the first empty query result
   * lacks, in the order the page reads them.
   */
  function RevenueFigures(
    today: Date,
    currentMonthly: seq<KeyedAmount>,
    previousMonthly: seq<KeyedAmount>,
    currentClients: seq<ClientTotal>,
    previousClients: seq<ClientTotal>): (r: Result<RevenueReport, PageError>)
    requires ValidDate(today)
    ensures RevenueWindows(today).None? ==> r == Err(ValueError)
    ensures RevenueWindows(today).Some? && currentMonthly == [] ==> r == Err(KeyError("month"))
    ensures RevenueWindows(today).Some? && currentMonthly != [] && ParseMonthRows(currentMonthly).None? ==> r == Err(ValueError)
    ensures RevenueWindows(today).Some? && ParseMonthRows(currentMonthly).Some? && currentMonthly != [] && previousMonthly == [] ==>
      r == Err(KeyError("total_amount"))
    ensures RevenueWindows(today).Some? && currentMonthly != [] && ParseMonthRows(currentMonthly).Some? ==>
      previousMonthly != [] && (currentClients == [] || previousClients == []) ==> r == Err(KeyError("client_name"))
    ensures r.Ok? <==>
      && RevenueWindows(today).Some? && currentMonthly != [] && ParseMonthRows(currentMonthly).Some?
      && previousMonthly != [] && currentClients != [] && previousClients != []
    ensures r.Err? && r.error.KeyError? ==> r.error.column in {"month", "total_amount", "client_name"}
    ensures r.Ok? ==> r.value.windows == RevenueWindows(today).value
    ensures r.Ok? ==> r.value.currentText == FormatPounds(r.value.totalCurrent)
    ensures r.Ok? ==> r.value.previousText == FormatPounds(r.value.totalPrevious)
    ensures r.Ok? ==> ParsePounds(r.value.currentText) == Some(r.value.totalCurrent)
    ensures r.Ok? ==> ParsePounds(r.value.previousText) == Some(r.value.totalPrevious)
  {
    match RevenueWindows(today)
    case None => Err(ValueError)
    case Some(w) =>
      if currentMonthly == [] then Err(KeyError("month"))
      else
        match ParseMonthRows(currentMonthly)
        case None => Err(ValueError)
        case Some(months) =>
          if previousMonthly == [] then Err(KeyError("total_amount"))
          else if currentClients == [] || previousClients == [] then Err(KeyError("client_name"))
          else
            var series := FillMonths(MonthScaffold(w.start, w.end), months);
            var totalCurrent, totalPrevious := Total(series), SumAmounts(previousMonthly);
            FormatPoundsRoundTrip(totalCurrent);
            FormatPoundsRoundTrip(totalPrevious);
            Ok(RevenueReport(
              w, series, totalCurrent, totalPrevious,
              FormatPounds(totalCurrent), FormatPounds(totalPrevious),
              PercentDiff(totalCurrent, totalPrevious),
              WithPercent(OuterJoin(currentClients, previousClients))))
  }

  /**
   * The page: the figures, with the client table copied into an array and
   * sorted there by current revenue, largest first. Nothing else changes.
   */
  method RevenuePage(
    today: Date,
    currentMonthly: seq<KeyedAmount>,
    previousMonthly: seq<KeyedAmount>,
    currentClients: seq<ClientTotal>,
    previousClients: seq<ClientTotal>) returns (r: Result<RevenueReport, PageError>)
    requires ValidDate(today)
    ensures var f := RevenueFigures(today, currentMonthly, previousMonthly, currentClients, previousClients);
      && (f.Err? ==> r == f)
      && (f.Ok? ==> r.Ok? && r.value == f.value.(clients := r.value.clients))
    ensures r.Ok? ==> ByRevenueDescending(r.value.clients)
    ensures r.Ok? ==>
      multiset(r.value.clients) == multiset(RevenueFigures(today, currentMonthly, previousMonthly, currentClients, previousClients).value.clients)
  {
    var f := RevenueFigures(today, currentMonthly, previousMonthly, currentClients, previousClients);
    if f.Err? {
      return f;
    }
    var sorted := SortedClients(f.value.clients);
    r := Ok(f.value.(clients := sorted));
  }

  /** The client rows copied into an array and sorted there, largest current revenue first. */
  method SortedClients(rows: seq<ClientRow>) returns (sorted: seq<ClientRow>)
    ensures ByRevenueDescending(sorted)
    ensures multiset(sorted) == multiset(rows)
  {
    var a := new ClientRow[|rows|](i requires 0 <= i < |rows| => rows[i]);
    assert a[..] == rows;
    SortByRevenueDescending(a);
    sorted := a[..];
  }

  /**
   * The month rows of the chart: October of the fiscal start year to the
   * month of `today`, one per month with none skipped, each carrying its own
   * `%b-%Y` label.
   */
  predicate ToDateRows(series: seq<FilledRow>, fiscalYear: int, today: Date) {
    && 1 <= |series| <= 12
    && |series| == (if today.month >= 10 then today.month - 9 else today.month + 3)
    && series[0].month == YearMonth(fiscalYear, 10)
    && series[|series| - 1].month == MonthOf(today)
    && MonthSeries(series)
  }

  /** The scaffold from the fiscal start to today, filled from any rows, has the chart's shape. */
  lemma ToDateSeries(today: Date, start: Date, months: seq<MonthAmount>)
    requires ValidDate(today) && FiscalStart(today) == Some(start)
    ensures ToDateRows(FillMonths(MonthScaffold(start, today), months), start.year, today)
  {
    ToDateBucketCount(today);
    FilledScaffold(start, today, months);
    SeriesOverBuckets(FillMonths(MonthScaffold(start, today), months), MonthStarts(start, today), start.year, today);
  }

  lemma SeriesOverBuckets(series: seq<FilledRow>, ms: seq<YearMonth>, fiscalYear: int, today: Date)
    requires |series| == |ms| && forall i :: 0 <= i < |ms| ==> series[i].month == ms[i]
    requires |ms| == (if today.month >= 10 then today.month - 9 else today.month + 3) && 1 <= |ms| <= 12
    requires ms[0] == YearMonth(fiscalYear, 10) && ms[|ms| - 1] == MonthOf(today)
    requires MonthSeries(series)
    ensures ToDateRows(series, fiscalYear, today)
  {
  }

  /** The chart holds every month of the fiscal year so far, in order, whatever months the query returned. */
  lemma RevenueMonths(
    today: Date,
    currentMonthly: seq<KeyedAmount>,
    previousMonthly: seq<KeyedAmount>,
    currentClients: seq<ClientTotal>,
    previousClients: seq<ClientTotal>,
    rep: RevenueReport)
    requires ValidDate(today)
    requires RevenueFigures(today, currentMonthly, previousMonthly, currentClients, previousClients) == Ok(rep)
    ensures ToDateRows(rep.series, rep.windows.start.year, today)
  {
    var w := RevenueWindows(today).value;
    RevenueWindowsSpec(today);
    var months := ParseMonthRows(currentMonthly).value;
    assert rep.series == FillMonths(MonthScaffold(w.start, w.end), months) && rep.windows == w;
    ToDateSeries(today, w.start, months);
  }

  /**
   * Each month's bar is the query's amount for that month, or 0 exactly when
   * the query has no row for it.
   */
  lemma RevenueAmounts(
    today: Date,
    currentMonthly: seq<KeyedAmount>,
    previousMonthly: seq<KeyedAmount>,
    currentClients: seq<ClientTotal>,
    previousClients: seq<ClientTotal>,
    rep: RevenueReport)
    requires ValidDate(today)
    requires RevenueFigures(today, currentMonthly, previousMonthly, currentClients, previousClients) == Ok(rep)
    ensures forall i :: 0 <= i < |rep.series| ==> AmountFromRows(rep.series[i], ParseMonthRows(currentMonthly).value)
  {
    var w := RevenueWindows(today).value;
    var months := ParseMonthRows(currentMonthly).value;
    var buckets := MonthScaffold(w.start, w.end);
    assert rep.series == FillMonths(buckets, months);
    FillMonthsSpec(buckets, months);
  }

  /**
   * The two headline totals: the current one is the sum of the query rows whose
   * month lies between the fiscal start and today, the previous one the sum of
   * every previous-window row; the year-on-year percentage compares these two.
   */
  lemma RevenueTotals(
    today: Date,
    currentMonthly: seq<KeyedAmount>,
    previousMonthly: seq<KeyedAmount>,
    currentClients: seq<ClientTotal>,
    previousClients: seq<ClientTotal>,
    rep: RevenueReport)
    requires ValidDate(today)
    requires RevenueFigures(today, currentMonthly, previousMonthly, currentClients, previousClients) == Ok(rep)
    requires UniqueMonths(ParseMonthRows(currentMonthly).value)
    ensures rep.totalCurrent == SumInWindow(ParseMonthRows(currentMonthly).value, rep.windows.start, today)
    ensures rep.totalPrevious == SumAmounts(previousMonthly)
    ensures rep.yoyPercent == PercentDiff(rep.totalCurrent, rep.totalPrevious)
  {
    var w := RevenueWindows(today).value;
    RevenueWindowsSpec(today);
    var months := ParseMonthRows(currentMonthly).value;
    var buckets := MonthScaffold(w.start, w.end);
    assert rep.windows == w && w.end == today;
    assert rep.series == FillMonths(buckets, months) && rep.totalCurrent == Total(rep.series);
    assert rep.totalPrevious == SumAmounts(previousMonthly);
    assert rep.yoyPercent == PercentDiff(rep.totalCurrent, rep.totalPrevious);
    FillMonthsTotal(buckets, months);
    SumOverWindowBuckets(months, w.start, w.end);
  }

  /**
   * Whatever order the sort leaves equal revenues in, the page's client table
   * has exactly one row per client of either query, holding its current and
   * previous revenue (0 where it has none) and their percentage difference.
   */
  lemma RevenueClientTable(
    today: Date,
    currentMonthly: seq<KeyedAmount>,
    previousMonthly: seq<KeyedAmount>,
    currentClients: seq<ClientTotal>,
    previousClients: seq<ClientTotal>,
    table: seq<ClientRow>)
    requires ValidDate(today)
    requires RevenueFigures(today, currentMonthly, previousMonthly, currentClients, previousClients).Ok?
    requires UniqueNames(currentClients) && UniqueNames(previousClients)
    requires multiset(table) ==
      multiset(RevenueFigures(today, currentMonthly, previousMonthly, currentClients, previousClients).value.clients)
    ensures forall n :: n in Names(currentClients) + Names(previousClients) <==>
      exists i :: 0 <= i < |table| && table[i].name == n
    ensures forall i :: 0 <= i < |table| ==> table[i] == ClientLine(currentClients, previousClients, table[i].name)
    ensures forall i, j :: 0 <= i < j < |table| ==> table[i].name != table[j].name
  {
    ClientTable(currentClients, previousClients, table);
  }
}
