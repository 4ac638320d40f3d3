/**
 * The fiscal calendar shared by the three pages: a fiscal year starts on
 * 1 October; its end is either 30 September of the next year (app.py) or
 * "today" (the revenue page); the prior-year window is both bounds moved back
 * one calendar year with `pd.DateOffset(years=1)`.
 */
module Fiscal {
  import opened Wrappers
  import opened Calendar

  /**
   * 1 October of `today.year` from October on, of the year before otherwise.
   * The start is the latest 1 October on or before `today`. `None` is the
   * `ValueError` of `datetime(0, 10, 1)` for a `today` in January to September of year 1.
   */
  function FiscalStart(today: Date): (r: Option<Date>)
    requires ValidDate(today)
    ensures r.None? <==> today.year == MinYear && today.month < 10
    ensures r.Some? ==> ValidDate(r.value) && r.value.month == 10 && r.value.day == 1
    ensures r.Some? ==> DateLe(r.value, today) && !DateLe(Date(r.value.year + 1, 10, 1), today)
  {
    if today.month >= 10 then MakeDate(today.year, 10, 1) else MakeDate(today.year - 1, 10, 1)
  }

  /** No other 1 October lies on or before `today` with the next 1 October still after it. */
  lemma FiscalStartUnique(today: Date, s: Date)
    requires ValidDate(today) && ValidDate(s) && s.month == 10 && s.day == 1
    requires DateLe(s, today) && !DateLe(Date(s.year + 1, 10, 1), today)
    ensures FiscalStart(today) == Some(s)
  {
  }

  /**
   * app.py's full fiscal year: from 1 October to 30 September of the next year,
   * containing `today`. `None` is the `ValueError` when either bound leaves
   * years 1 to 9999.
   */
  function FullFiscalYear(today: Date): (r: Option<(Date, Date)>)
    requires ValidDate(today)
    ensures r.None? <==> (today.year == MinYear && today.month < 10) || (today.year == MaxYear && today.month >= 10)
    ensures r.Some? ==> FiscalStart(today) == Some(r.value.0)
    ensures r.Some? ==> ValidDate(r.value.1) && r.value.1.month == 9 && r.value.1.day == 30 && r.value.1.year == r.value.0.year + 1
    ensures r.Some? ==> DateLe(r.value.0, today) && DateLe(today, r.value.1)
  {
    var (start, end) :=
      if today.month >= 10 then (MakeDate(today.year, 10, 1), MakeDate(today.year + 1, 9, 30))
      else (MakeDate(today.year - 1, 10, 1), MakeDate(today.year, 9, 30));
    if start.Some? && end.Some? then Some((start.value, end.value)) else None
  }

  /**
   * `pd.Timestamp(d) - pd.DateOffset(years=1)`: the same month and day a year
   * earlier, the day cut to the month's length (29 February becomes
   * 28 February). `None` is the error for a date in year 1.
   */
  function OneYearEarlier(d: Date): (r: Option<Date>)
    requires ValidDate(d)
    ensures r.None? <==> d.year == MinYear
    ensures r.Some? ==> ValidDate(r.value) && r.value.year == d.year - 1 && r.value.month == d.month
    ensures r.Some? ==> r.value.day == d.day || (d.month == 2 && d.day == 29 && r.value.day == 28)
  {
    var y := d.year - 1;
    var last := DaysInMonth(y, d.month);
    MakeDate(y, d.month, if d.day <= last then d.day else last)
  }

  /** Moving two dates back a year keeps their order. */
  lemma OneYearEarlierMonotone(a: Date, b: Date)
    requires ValidDate(a) && ValidDate(b) && a.year > MinYear && b.year > MinYear
    requires DateLe(a, b)
    ensures DateLe(OneYearEarlier(a).value, OneYearEarlier(b).value)
  {
  }

  /** The revenue page's query windows: this fiscal year to date, and the same span a year earlier. */
  datatype Windows = Windows(start: Date, end: Date, previousStart: Date, previousEnd: Date)

  function RevenueWindows(today: Date): (r: Option<Windows>)
    requires ValidDate(today)
    ensures r.None? <==> today.year == MinYear || (today.year == MinYear + 1 && today.month < 10)
  {
    match FiscalStart(today)
    case None => None
    case Some(start) =>
      match (OneYearEarlier(start), OneYearEarlier(today))
      case (Some(ps), Some(pe)) => Some(Windows(start, today, ps, pe))
      case _ => None
  }

  /**
   * The windows of the revenue page: the current one runs from the fiscal start
   * to today; the previous one from 1 October a year before the start to the
   * same day a year before today, and it is not empty either.
   */
  lemma RevenueWindowsSpec(today: Date)
    requires ValidDate(today) && RevenueWindows(today).Some?
    ensures var w := RevenueWindows(today).value;
      && FiscalStart(today) == Some(w.start) && w.end == today
      && w.previousStart == Date(w.start.year - 1, 10, 1)
      && OneYearEarlier(today) == Some(w.previousEnd)
      && DateLe(w.previousStart, w.previousEnd)
  {
    var w := RevenueWindows(today).value;
    OneYearEarlierMonotone(w.start, today);
  }

  /**
   * The revenue page's month buckets run from October of the start year to
   * the month of `today`: `m - 9` of them from October on, `m + 3` otherwise,
   * so always 1 to 12.
   */
  lemma {:induction false} ToDateBucketCount(today: Date)
    requires ValidDate(today) && FiscalStart(today).Some?
    ensures var ms := MonthStarts(FiscalStart(today).value, today);
      && |ms| == (if today.month >= 10 then today.month - 9 else today.month + 3)
      && 1 <= |ms| <= 12
      && ms[0] == YearMonth(FiscalStart(today).value.year, 10)
      && ms[|ms| - 1] == MonthOf(today)
  {
    var s := FiscalStart(today).value;
    var ms := MonthStarts(s, today);
    var lo := Ordinal(MonthOf(s));
    FromOrdinalInverse(lo);
    OrdinalInverse(MonthOf(s));
    OrdinalInverse(MonthOf(today));
  }

  /**
   * app.py's scaffold: exactly twelve buckets, October of the start year
   * through September of the next, bucket `i` in calendar month `(i + 9) % 12 + 1`.
   */
  lemma {:induction false} FullYearBuckets(today: Date)
    requires ValidDate(today) && FullFiscalYear(today).Some?
    ensures var (s, e) := FullFiscalYear(today).value;
      var ms := MonthStarts(s, e);
      && |ms| == 12
      && ms[0] == YearMonth(s.year, 10) && ms[11] == YearMonth(s.year + 1, 9)
      && forall i :: 0 <= i < 12 ==> ms[i].month == (i + 9) % 12 + 1
  {
    var (s, e) := FullFiscalYear(today).value;
    var lo := Ordinal(MonthOf(s));
    OrdinalInverse(MonthOf(s));
    OrdinalInverse(MonthOf(e));
    assert lo == s.year * 12 + 9;
    forall i | 0 <= i < 12
      ensures MonthStarts(s, e)[i].month == (i + 9) % 12 + 1
    {
      FiscalMonthAt(s.year, i);
    }
  }

  /** The `i`-th month after October of `y` is calendar month `(i + 9) % 12 + 1`. */
  lemma FiscalMonthAt(y: int, i: int)
    requires 0 <= i < 12
    ensures FromOrdinal(y * 12 + 9 + i).month == (i + 9) % 12 + 1
  {
    if i < 3 {
      FromOrdinalOf(y, 10 + i);
    } else {
      FromOrdinalOf(y + 1, i - 2);
    }
  }

  /**
   * The previous window's buckets are the current window's, each one year
   * earlier: same count, same calendar months.
   */
  lemma {:induction false} PreviousWindowBuckets(today: Date)
    requires ValidDate(today) && RevenueWindows(today).Some?
    ensures var w := RevenueWindows(today).value;
      var cur, prev := MonthStarts(w.start, w.end), MonthStarts(w.previousStart, w.previousEnd);
      && |prev| == |cur|
      && forall i :: 0 <= i < |cur| ==> prev[i] == YearMonth(cur[i].year - 1, cur[i].month)
  {
    var w := RevenueWindows(today).value;
    RevenueWindowsSpec(today);
    var cur, prev := MonthStarts(w.start, w.end), MonthStarts(w.previousStart, w.previousEnd);
    var lo := Ordinal(MonthOf(w.start));
    assert Ordinal(MonthOf(w.previousStart)) == lo - 12;
    assert Ordinal(MonthOf(w.previousEnd)) == Ordinal(MonthOf(w.end)) - 12;
    forall i | 0 <= i < |cur|
      ensures prev[i] == YearMonth(cur[i].year - 1, cur[i].month)
    {
      var k := lo + i;
      assert cur[i] == FromOrdinal(k);
      assert prev[i] == FromOrdinal(k - 12);
      assert (k - 12) / 12 == k / 12 - 1 && (k - 12) % 12 == k % 12;
    }
  }
}
