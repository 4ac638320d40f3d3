/**
 * app.py: the invoicing overview. The full fiscal year containing today is
 * scaffolded into twelve month buckets, the monthly query rows are merged
 * onto them with missing months at 0, and the year's total is shown as
 * `£{total:,.2f}`.
 */
module App {
  import opened Wrappers
  import opened Calendar
  import opened Formats
  import opened Fiscal
  import opened Scaffold

  datatype InvoicingReport = InvoicingReport(
    start: Date, end: Date, series: seq<FilledRow>, total: int, totalText: string)

  /**
   * The page for a given `today` and the rows of its monthly query. It stops
   * with `ValueError` when a fiscal-year bound leaves `datetime`'s years, with
   * `KeyError("month")` when the query returned no row (an empty DataFrame
   * has no `month` column), and with `ValueError` when a month key cannot be read.
   */
  function InvoicingPage(today: Date, rows: seq<KeyedAmount>): (r: Result<InvoicingReport, PageError>)
    requires ValidDate(today)
    ensures FullFiscalYear(today).None? ==> r == Err(ValueError)
    ensures FullFiscalYear(today).Some? && rows == [] ==> r == Err(KeyError("month"))
    ensures FullFiscalYear(today).Some? && rows != [] && ParseMonthRows(rows).None? ==> r == Err(ValueError)
    ensures r.Ok? <==> FullFiscalYear(today).Some? && rows != [] && ParseMonthRows(rows).Some?
    ensures r.Ok? ==> (r.value.start, r.value.end) == FullFiscalYear(today).value
    ensures r.Ok? ==> r.value.total == Total(r.value.series)
    ensures r.Ok? ==> r.value.totalText == FormatPounds(r.value.total)
    ensures r.Ok? ==> ParsePounds(r.value.totalText) == Some(r.value.total)
  {
    match FullFiscalYear(today)
    case None => Err(ValueError)
    case Some((start, end)) =>
      if rows == [] then Err(KeyError("month"))
      else
        match ParseMonthRows(rows)
        case None => Err(ValueError)
        case Some(months) =>
          var series := FillMonths(MonthScaffold(start, end), months);
          var total := Total(series);
          FormatPoundsRoundTrip(total);
          Ok(InvoicingReport(start, end, series, total, FormatPounds(total)))
  }

  /**
   * The twelve rows of a fiscal year's table: October of `fiscalYear` to
   * September of the next year, strictly chronological, each row carrying its
   * own `%b-%Y` label and no two rows the same label.
   */
  predicate FiscalYearRows(series: seq<FilledRow>, fiscalYear: int) {
    && |series| == 12
    && series[0].month == YearMonth(fiscalYear, 10)
    && series[11].month == YearMonth(fiscalYear + 1, 9)
    && MonthSeries(series)
  }

  /** The page's table holds the fiscal year's twelve months, in order, whatever months the query returned. */
  lemma InvoicingMonths(today: Date, rows: seq<KeyedAmount>, rep: InvoicingReport)
    requires ValidDate(today) && InvoicingPage(today, rows) == Ok(rep)
    ensures FiscalYearRows(rep.series, rep.start.year)
  {
    var (start, end) := FullFiscalYear(today).value;
    var months := ParseMonthRows(rows).value;
    assert rep.series == FillMonths(MonthScaffold(start, end), months) && rep.start == start;
    FullYearBuckets(today);
    FilledScaffold(start, end, months);
  }

  /**
   * Each month's amount on the page is the query's amount for that month, or 0
   * exactly when the query has no row for that month.
   */
  lemma InvoicingAmounts(today: Date, rows: seq<KeyedAmount>, rep: InvoicingReport)
    requires ValidDate(today) && InvoicingPage(today, rows) == Ok(rep)
    ensures forall i :: 0 <= i < |rep.series| ==> AmountFromRows(rep.series[i], ParseMonthRows(rows).value)
  {
    var (start, end) := FullFiscalYear(today).value;
    var months := ParseMonthRows(rows).value;
    var buckets := MonthScaffold(start, end);
    assert rep.series == FillMonths(buckets, months);
    FillMonthsSpec(buckets, months);
  }

  /**
   * The page's total is the sum of the query rows whose month lies in the
   * fiscal year: rows outside it count nowhere, and no month is counted twice.
   */
  lemma InvoicingTotal(today: Date, rows: seq<KeyedAmount>, rep: InvoicingReport)
    requires ValidDate(today) && InvoicingPage(today, rows) == Ok(rep)
    requires UniqueMonths(ParseMonthRows(rows).value)
    ensures rep.total == SumInWindow(ParseMonthRows(rows).value, rep.start, rep.end)
  {
    var (start, end) := FullFiscalYear(today).value;
    var months := ParseMonthRows(rows).value;
    var buckets := MonthScaffold(start, end);
    assert rep.series == FillMonths(buckets, months) && rep.total == Total(rep.series);
    assert rep.start == start && rep.end == end;
    FillMonthsTotal(buckets, months);
    SumOverWindowBuckets(months, start, end);
  }
}
