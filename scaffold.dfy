/**
 * The month scaffold of app.py and the revenue page: one bucket per month
 * start with its `%b-%Y` label, the query rows left-joined onto the buckets
 * (`months_df.merge(rows, on="month", how="left")`) and the months without a
 * row filled with 0 (`fillna(0)`).
 */
module Scaffold {
  import opened Wrappers
  import opened Calendar
  import opened Formats

  /** The Python exceptions a page can stop on. */
  datatype PageError =
    | ValueError
    | KeyError(column: string)

  /** A row of a monthly query: its `%Y-%m` key and summed amount in pence. */
  datatype KeyedAmount = KeyedAmount(key: string, amount: int)

  /** A monthly row once its key is a month (`pd.to_datetime(..., format="%Y-%m")`). */
  datatype MonthAmount = MonthAmount(month: YearMonth, amount: int)

  datatype Bucket = Bucket(month: YearMonth, monthLabel: string)

  /** A row of the merged frame; `None` is the NaN a month without a query row gets. */
  datatype MergedRow = MergedRow(month: YearMonth, monthLabel: string, amount: Option<int>)

  datatype FilledRow = FilledRow(month: YearMonth, monthLabel: string, amount: int)

  /**
   * The `month` column converted in place: every key read as a month, or
   * `None` (the `ValueError`) as soon as one key cannot be read.
   */
  function ParseMonthRows(rows: seq<KeyedAmount>): (r: Option<seq<MonthAmount>>)
    ensures r.Some? <==> forall k :: 0 <= k < |rows| ==> ParseMonthKey(rows[k].key).Some?
    ensures r.Some? ==> |r.value| == |rows| && forall k :: 0 <= k < |rows| ==>
      Some(r.value[k].month) == ParseMonthKey(rows[k].key) && r.value[k].amount == rows[k].amount
  {
    if rows == [] then Some([])
    else
      match (ParseMonthKey(rows[0].key), ParseMonthRows(rows[1..]))
      case (Some(m), Some(rest)) => Some([MonthAmount(m, rows[0].amount)] + rest)
      case _ => None
  }

  /** `pd.DataFrame({"month": months, "month_label": [m.strftime("%b-%Y") for m in months]})`. */
  function Buckets(months: seq<YearMonth>): (r: seq<Bucket>)
    requires forall i :: 0 <= i < |months| ==> ValidYearMonth(months[i])
    ensures |r| == |months|
    ensures forall i :: 0 <= i < |r| ==> r[i].month == months[i] && r[i].monthLabel == MonthLabel(months[i])
    ensures forall i :: 0 <= i < |r| ==> ParseMonthLabel(r[i].monthLabel) == Some(r[i].month)
  {
    assert forall i :: 0 <= i < |months| ==> ParseMonthLabel(MonthLabel(months[i])) == Some(months[i]) by {
      forall i | 0 <= i < |months| {
        MonthLabelRoundTrip(months[i]);
      }
    }
    seq(|months|, i requires 0 <= i < |months| => Bucket(months[i], MonthLabel(months[i])))
  }

  /** Buckets over distinct months carry pairwise distinct labels. */
  lemma BucketLabelsDistinct(months: seq<YearMonth>)
    requires forall i :: 0 <= i < |months| ==> ValidYearMonth(months[i])
    requires Chronological(months)
    ensures forall i, j :: 0 <= i < j < |months| ==> Buckets(months)[i].monthLabel != Buckets(months)[j].monthLabel
  {
    forall i, j | 0 <= i < j < |months|
      ensures Buckets(months)[i].monthLabel != Buckets(months)[j].monthLabel
    {
      MonthLabelInjective(months[i], months[j]);
    }
  }

  /**
   * `months_df` of app.py and the revenue page: one bucket per month start in
   * [start, end], chronological with none skipped, each carrying its `%b-%Y`
   * label, the labels pairwise distinct.
   */
  function MonthScaffold(start: Date, end: Date): (r: seq<Bucket>)
    requires ValidDate(start) && ValidDate(end)
    ensures |r| == |MonthStarts(start, end)|
    ensures forall i :: 0 <= i < |r| ==>
      r[i].month == MonthStarts(start, end)[i] && ValidYearMonth(r[i].month) && r[i].monthLabel == MonthLabel(r[i].month)
    ensures forall ym :: ym in BucketMonths(r) <==>
      1 <= ym.month <= 12 && DateLe(start, FirstOf(ym)) && DateLe(FirstOf(ym), end)
    ensures forall i, j :: 0 <= i < j < |r| ==> Ordinal(r[i].month) < Ordinal(r[j].month) && r[i].monthLabel != r[j].monthLabel
    ensures forall i :: 0 <= i < |r| - 1 ==> Ordinal(r[i + 1].month) == Ordinal(r[i].month) + 1
  {
    MonthStartsSpec(start, end);
    var ms := MonthStarts(start, end);
    BucketLabelsDistinct(ms);
    BucketsCoverMonths(ms);
    Buckets(ms)
  }

  /** The buckets hold exactly the given months. */
  lemma BucketsCoverMonths(months: seq<YearMonth>)
    requires forall i :: 0 <= i < |months| ==> ValidYearMonth(months[i])
    ensures forall ym :: ym in BucketMonths(Buckets(months)) <==> ym in months
  {
    var r := Buckets(months);
    forall ym ensures ym in BucketMonths(r) <==> ym in months {
      if ym in months {
        var i :| 0 <= i < |months| && months[i] == ym;
        assert r[i].month == ym;
      }
    }
  }

  /** The amount of the first query row for month `m`; `None` when no row has that month. */
  function Lookup(rows: seq<MonthAmount>, m: YearMonth): (r: Option<int>)
    ensures r.None? <==> forall k :: 0 <= k < |rows| ==> rows[k].month != m
    ensures r.Some? ==> exists k :: 0 <= k < |rows| && rows[k].month == m && rows[k].amount == r.value
  {
    if rows == [] then None
    else if rows[0].month == m then Some(rows[0].amount)
    else
      var r := Lookup(rows[1..], m);
      assert forall k :: 1 <= k < |rows| ==> rows[k] == rows[1..][k - 1];
      r
  }

  /** `months_df.merge(rows, on="month", how="left")`: each bucket once, in bucket order, with its row's amount or NaN. */
  function LeftMerge(buckets: seq<Bucket>, rows: seq<MonthAmount>): (r: seq<MergedRow>)
    ensures |r| == |buckets|
  {
    if buckets == [] then []
    else [MergedRow(buckets[0].month, buckets[0].monthLabel, Lookup(rows, buckets[0].month))] + LeftMerge(buckets[1..], rows)
  }

  /** `fillna(0)` on the amount column. */
  function FillNa(merged: seq<MergedRow>): (r: seq<FilledRow>)
    ensures |r| == |merged|
  {
    if merged == [] then []
    else
      var m := merged[0];
      [FilledRow(m.month, m.monthLabel, match m.amount case Some(a) => a case None => 0)] + FillNa(merged[1..])
  }

  function FillMonths(buckets: seq<Bucket>, rows: seq<MonthAmount>): seq<FilledRow> {
    FillNa(LeftMerge(buckets, rows))
  }

  /** `series.sum()` over the filled amounts. */
  function Total(filled: seq<FilledRow>): int {
    if filled == [] then 0 else filled[0].amount + Total(filled[1..])
  }

  /** `sum()` over the amount column of the rows of a query. */
  function SumAmounts(rows: seq<KeyedAmount>): int {
    if rows == [] then 0 else rows[0].amount + SumAmounts(rows[1..])
  }

  /** The summed amounts of the rows whose month is in `months`. */
  function SumInMonths(rows: seq<MonthAmount>, months: set<YearMonth>): int {
    if rows == [] then 0 else (if rows[0].month in months then rows[0].amount else 0) + SumInMonths(rows[1..], months)
  }

  predicate UniqueMonths(rows: seq<MonthAmount>) {
    forall i, j :: 0 <= i < j < |rows| ==> rows[i].month != rows[j].month
  }

  function BucketMonths(buckets: seq<Bucket>): set<YearMonth> {
    set i | 0 <= i < |buckets| :: buckets[i].month
  }

  /**
   * A filled row's amount comes from the query: it is the amount of a row for
   * its month, or 0 and no row has its month.
   */
  predicate AmountFromRows(row: FilledRow, rows: seq<MonthAmount>) {
    || (exists k :: 0 <= k < |rows| && rows[k].month == row.month && row.amount == rows[k].amount)
    || (row.amount == 0 && forall k :: 0 <= k < |rows| ==> rows[k].month != row.month)
  }

  /**
   * After the merge and the fill there is exactly one row per bucket, in
   * bucket order, with the bucket's month and label; its amount is a query
   * row's amount for that month, or 0 exactly when no row has that month.
   * Rows outside the buckets leave no trace.
   */
  lemma {:induction false} FillMonthsSpec(buckets: seq<Bucket>, rows: seq<MonthAmount>)
    ensures var r := FillMonths(buckets, rows);
      && |r| == |buckets|
      && forall i :: 0 <= i < |r| ==>
        && r[i].month == buckets[i].month && r[i].monthLabel == buckets[i].monthLabel
        && AmountFromRows(r[i], rows)
  {
    if buckets != [] {
      FillMonthsSpec(buckets[1..], rows);
      var r := FillMonths(buckets, rows);
      assert r == FillNa(LeftMerge(buckets[..1], rows)) + FillMonths(buckets[1..], rows) by {
        assert LeftMerge(buckets, rows) == [LeftMerge(buckets, rows)[0]] + LeftMerge(buckets[1..], rows);
      }
    }
  }

  /** The months and labels of the filled rows are the buckets', in bucket order. */
  lemma FillMonthsShape(buckets: seq<Bucket>, rows: seq<MonthAmount>)
    ensures var r := FillMonths(buckets, rows);
      |r| == |buckets| && forall i :: 0 <= i < |r| ==> r[i].month == buckets[i].month && r[i].monthLabel == buckets[i].monthLabel
  {
    FillMonthsSpec(buckets, rows);
  }

  /**
   * A table of month rows as the pages draw it: each row's month is a real
   * month and its label is that month's `%b-%Y` text; the months run
   * strictly upward with none skipped; no two rows share a label.
   */
  predicate MonthSeries(series: seq<FilledRow>) {
    && (forall i :: 0 <= i < |series| ==> ValidYearMonth(series[i].month) && series[i].monthLabel == MonthLabel(series[i].month))
    && (forall i :: 0 <= i < |series| - 1 ==> Ordinal(series[i + 1].month) == Ordinal(series[i].month) + 1)
    && (forall i, j :: 0 <= i < j < |series| ==>
          Ordinal(series[i].month) < Ordinal(series[j].month) && series[i].monthLabel != series[j].monthLabel)
  }

  /**
   * Filling the scaffold of a window gives one row per month start of the
   * window, in order, whatever the query rows hold.
   */
  lemma FilledScaffold(start: Date, end: Date, rows: seq<MonthAmount>)
    requires ValidDate(start) && ValidDate(end)
    ensures |FillMonths(MonthScaffold(start, end), rows)| == |MonthStarts(start, end)|
    ensures forall i :: 0 <= i < |MonthStarts(start, end)| ==> FillMonths(MonthScaffold(start, end), rows)[i].month == MonthStarts(start, end)[i]
    ensures MonthSeries(FillMonths(MonthScaffold(start, end), rows))
  {
    var buckets := MonthScaffold(start, end);
    var series := FillMonths(buckets, rows);
    FillMonthsShape(buckets, rows);
    forall i | 0 <= i < |series| ensures ValidYearMonth(series[i].month) && series[i].monthLabel == MonthLabel(series[i].month) {
      assert series[i].month == buckets[i].month && series[i].monthLabel == buckets[i].monthLabel;
    }
    forall i | 0 <= i < |series| - 1 ensures Ordinal(series[i + 1].month) == Ordinal(series[i].month) + 1 {
      assert series[i].month == buckets[i].month && series[i + 1].month == buckets[i + 1].month;
    }
    forall i, j | 0 <= i < j < |series|
      ensures Ordinal(series[i].month) < Ordinal(series[j].month) && series[i].monthLabel != series[j].monthLabel {
      assert series[i].month == buckets[i].month && series[i].monthLabel == buckets[i].monthLabel;
      assert series[j].month == buckets[j].month && series[j].monthLabel == buckets[j].monthLabel;
    }
  }

  lemma {:induction false} SumInMonthsOutside(rows: seq<MonthAmount>, months: set<YearMonth>)
    requires forall k :: 0 <= k < |rows| ==> rows[k].month !in months
    ensures SumInMonths(rows, months) == 0
  {
    if rows != [] {
      SumInMonthsOutside(rows[1..], months);
    }
  }

  lemma {:induction false} SumInMonthsSplit(rows: seq<MonthAmount>, m: YearMonth, months: set<YearMonth>)
    requires m !in months
    ensures SumInMonths(rows, {m} + months) == SumInMonths(rows, {m}) + SumInMonths(rows, months)
  {
    if rows != [] {
      SumInMonthsSplit(rows[1..], m, months);
    }
  }

  /** With one row per month, the looked-up amount (0 if none) is the sum of that month's rows. */
  lemma {:induction false} LookupIsMonthSum(rows: seq<MonthAmount>, m: YearMonth)
    requires UniqueMonths(rows)
    ensures (match Lookup(rows, m) case Some(a) => a case None => 0) == SumInMonths(rows, {m})
  {
    if rows != [] {
      if rows[0].month == m {
        SumInMonthsOutside(rows[1..], {m});
      } else {
        LookupIsMonthSum(rows[1..], m);
      }
    }
  }

  /**
   * `total_invoiced` / `total_invoiced_current`: the total of the filled series
   * is the total of the query rows whose month is a bucket.
   */
  lemma {:induction false} FillMonthsTotal(buckets: seq<Bucket>, rows: seq<MonthAmount>)
    requires UniqueMonths(rows)
    requires forall i, j :: 0 <= i < j < |buckets| ==> buckets[i].month != buckets[j].month
    ensures Total(FillMonths(buckets, rows)) == SumInMonths(rows, BucketMonths(buckets))
  {
    if buckets == [] {
      assert BucketMonths(buckets) == {};
      SumInMonthsOutside(rows, {});
    } else {
      var m := buckets[0].month;
      var rest := buckets[1..];
      FillMonthsTotal(rest, rows);
      LookupIsMonthSum(rows, m);
      assert BucketMonths(buckets) == {m} + BucketMonths(rest) by {
        forall x ensures x in BucketMonths(buckets) <==> x in {m} + BucketMonths(rest) {
          if x in BucketMonths(buckets) {
            var i :| 0 <= i < |buckets| && buckets[i].month == x;
            if i > 0 { assert rest[i - 1].month == x; }
          }
          if x in BucketMonths(rest) {
            var i :| 0 <= i < |rest| && rest[i].month == x;
            assert buckets[i + 1].month == x;
          }
        }
      }
      assert m !in BucketMonths(rest);
      SumInMonthsSplit(rows, m, BucketMonths(rest));
      assert LeftMerge(buckets, rows) == [MergedRow(m, buckets[0].monthLabel, Lookup(rows, m))] + LeftMerge(rest, rows);
    }
  }

  /** The summed amounts of the rows whose month starts between `start` and `end`, the rows a date-bounded query keeps. */
  function SumInWindow(rows: seq<MonthAmount>, start: Date, end: Date): int {
    if rows == [] then 0
    else
      (if DateLe(start, FirstOf(rows[0].month)) && DateLe(FirstOf(rows[0].month), end) then rows[0].amount else 0)
        + SumInWindow(rows[1..], start, end)
  }

  /** Summing the rows of the bucket months is summing the rows whose month starts inside the window. */
  lemma {:induction false} SumOverWindowBuckets(rows: seq<MonthAmount>, start: Date, end: Date)
    requires ValidDate(start) && ValidDate(end)
    requires forall k :: 0 <= k < |rows| ==> ValidYearMonth(rows[k].month)
    ensures SumInMonths(rows, BucketMonths(MonthScaffold(start, end))) == SumInWindow(rows, start, end)
  {
    MonthStartsSpec(start, end);
    var ms := MonthStarts(start, end);
    var bs := MonthScaffold(start, end);
    if rows != [] {
      SumOverWindowBuckets(rows[1..], start, end);
    }
  }
}
