/**
 * Calendar dates as Python's `datetime` holds them (proleptic Gregorian,
 * years 1 to 9999), calendar months, and the month-start ranges that
 * `pandas.date_range(start, end, freq="MS")` produces.
 */
module Calendar {
  import opened Wrappers

  /** `datetime.MINYEAR` and `datetime.MAXYEAR`. */
  const MinYear: int := 1
  const MaxYear: int := 9999

  datatype Date = Date(year: int, month: int, day: int)

  /** A calendar month: what a `%Y-%m` key or a month-start timestamp stands for. */
  datatype YearMonth = YearMonth(year: int, month: int)

  predicate IsLeapYear(y: int) {
    y % 4 == 0 && (y % 100 != 0 || y % 400 == 0)
  }

  function DaysInMonth(y: int, m: int): (n: int)
    requires 1 <= m <= 12
    ensures 28 <= n <= 31
  {
    if m == 2 then (if IsLeapYear(y) then 29 else 28)
    else if m == 4 || m == 6 || m == 9 || m == 11 then 30
    else 31
  }

  predicate ValidYearMonth(ym: YearMonth) {
    MinYear <= ym.year <= MaxYear && 1 <= ym.month <= 12
  }

  predicate ValidDate(d: Date) {
    MinYear <= d.year <= MaxYear && 1 <= d.month <= 12 && 1 <= d.day <= DaysInMonth(d.year, d.month)
  }

  /** The constructor `datetime(y, m, d)`; `None` is the `ValueError` it raises. */
  function MakeDate(y: int, m: int, d: int): Option<Date> {
    if ValidDate(Date(y, m, d)) then Some(Date(y, m, d)) else None
  }

  /** Chronological order on dates: `a <= b`. */
  predicate DateLe(a: Date, b: Date) {
    a.year < b.year || (a.year == b.year && (a.month < b.month || (a.month == b.month && a.day <= b.day)))
  }

  function MonthOf(d: Date): YearMonth {
    YearMonth(d.year, d.month)
  }

  /** Midnight on the first day of a month, the timestamp a month bucket carries. */
  function FirstOf(ym: YearMonth): Date {
    Date(ym.year, ym.month, 1)
  }

  /** Months counted from January of year 0; consecutive months have consecutive ordinals. */
  function Ordinal(ym: YearMonth): int {
    ym.year * 12 + ym.month - 1
  }

  function FromOrdinal(k: int): YearMonth {
    YearMonth(k / 12, k % 12 + 1)
  }

  lemma FromOrdinalOf(y: int, m: int)
    requires 1 <= m <= 12
    ensures FromOrdinal(y * 12 + m - 1) == YearMonth(y, m)
  {
  }

  lemma FromOrdinalInverse(k: int)
    ensures Ordinal(FromOrdinal(k)) == k && 1 <= FromOrdinal(k).month <= 12
  {
  }

  /** On months 1 to 12 the ordinal is injective and agrees with chronological order. */
  lemma OrdinalOrder(a: YearMonth, b: YearMonth)
    requires 1 <= a.month <= 12 && 1 <= b.month <= 12
    ensures Ordinal(a) <= Ordinal(b) <==> DateLe(FirstOf(a), FirstOf(b))
    ensures Ordinal(a) == Ordinal(b) <==> a == b
  {
  }

  lemma OrdinalInverse(ym: YearMonth)
    requires 1 <= ym.month <= 12
    ensures FromOrdinal(Ordinal(ym)) == ym
  {
    var k := Ordinal(ym);
    FromOrdinalInverse(k);
    OrdinalOrder(ym, FromOrdinal(k));
  }

  /** The months with ordinals `lo` to `hi`, in order. */
  function MonthRange(lo: int, hi: int): (r: seq<YearMonth>)
    ensures |r| == if lo <= hi then hi - lo + 1 else 0
    ensures forall i :: 0 <= i < |r| ==> r[i] == FromOrdinal(lo + i)
    decreases hi - lo
  {
    if lo > hi then [] else [FromOrdinal(lo)] + MonthRange(lo + 1, hi)
  }

  /** `pandas.date_range(start, end, freq="MS")`: the first-of-month timestamps from `start` to `end`. */
  function MonthStarts(start: Date, end: Date): seq<YearMonth> {
    MonthRange(Ordinal(MonthOf(start)) + (if start.day == 1 then 0 else 1), Ordinal(MonthOf(end)))
  }

  /** A sequence of months in strictly increasing chronological order (hence without duplicates). */
  predicate Chronological(ms: seq<YearMonth>) {
    forall i, j :: 0 <= i < j < |ms| ==> Ordinal(ms[i]) < Ordinal(ms[j])
  }

  /** Each month follows the previous one directly: no month is skipped. */
  predicate Gapless(ms: seq<YearMonth>) {
    forall i :: 0 <= i < |ms| - 1 ==> Ordinal(ms[i + 1]) == Ordinal(ms[i]) + 1
  }

  lemma StartBound(d: Date, ym: YearMonth)
    requires 1 <= d.month <= 12 && 1 <= d.day && 1 <= ym.month <= 12
    ensures DateLe(d, FirstOf(ym)) <==> Ordinal(MonthOf(d)) + (if d.day == 1 then 0 else 1) <= Ordinal(ym)
  {
    OrdinalOrder(MonthOf(d), ym);
  }

  lemma EndBound(d: Date, ym: YearMonth)
    requires 1 <= d.month <= 12 && 1 <= d.day && 1 <= ym.month <= 12
    ensures DateLe(FirstOf(ym), d) <==> Ordinal(ym) <= Ordinal(MonthOf(d))
  {
    OrdinalOrder(ym, MonthOf(d));
  }

  /**
   * The month starts between two dates are exactly the months whose first day
   * lies in [start, end], listed chronologically with none skipped, and each is
   * a month `datetime` can hold.
   */
  lemma MonthStartsSpec(start: Date, end: Date)
    requires ValidDate(start) && ValidDate(end)
    ensures forall ym :: ym in MonthStarts(start, end) <==>
      1 <= ym.month <= 12 && DateLe(start, FirstOf(ym)) && DateLe(FirstOf(ym), end)
    ensures Chronological(MonthStarts(start, end)) && Gapless(MonthStarts(start, end))
    ensures forall i :: 0 <= i < |MonthStarts(start, end)| ==> ValidYearMonth(MonthStarts(start, end)[i])
  {
    MonthStartsMembers(start, end);
    MonthStartsOrdered(start, end);
    MonthStartsValid(start, end);
  }

  lemma MonthStartsMembers(start: Date, end: Date)
    requires ValidDate(start) && ValidDate(end)
    ensures forall ym :: ym in MonthStarts(start, end) <==>
      1 <= ym.month <= 12 && DateLe(start, FirstOf(ym)) && DateLe(FirstOf(ym), end)
  {
    var lo := Ordinal(MonthOf(start)) + (if start.day == 1 then 0 else 1);
    var r := MonthStarts(start, end);
    forall ym
      ensures ym in r <==> 1 <= ym.month <= 12 && DateLe(start, FirstOf(ym)) && DateLe(FirstOf(ym), end)
    {
      if ym in r {
        var i :| 0 <= i < |r| && r[i] == ym;
        FromOrdinalInverse(lo + i);
        StartBound(start, ym);
        EndBound(end, ym);
      }
      if 1 <= ym.month <= 12 && DateLe(start, FirstOf(ym)) && DateLe(FirstOf(ym), end) {
        StartBound(start, ym);
        EndBound(end, ym);
        OrdinalInverse(ym);
        assert r[Ordinal(ym) - lo] == ym;
      }
    }
  }

  lemma MonthStartsOrdered(start: Date, end: Date)
    ensures Chronological(MonthStarts(start, end)) && Gapless(MonthStarts(start, end))
  {
    var lo := Ordinal(MonthOf(start)) + (if start.day == 1 then 0 else 1);
    var r := MonthStarts(start, end);
    forall i, j | 0 <= i < j < |r|
      ensures Ordinal(r[i]) < Ordinal(r[j])
    {
      FromOrdinalInverse(lo + i);
      FromOrdinalInverse(lo + j);
    }
    forall i | 0 <= i < |r| - 1
      ensures Ordinal(r[i + 1]) == Ordinal(r[i]) + 1
    {
      FromOrdinalInverse(lo + i);
      FromOrdinalInverse(lo + i + 1);
    }
  }

  lemma MonthStartsValid(start: Date, end: Date)
    requires ValidDate(start) && ValidDate(end)
    ensures forall i :: 0 <= i < |MonthStarts(start, end)| ==> ValidYearMonth(MonthStarts(start, end)[i])
  {
    var lo := Ordinal(MonthOf(start)) + (if start.day == 1 then 0 else 1);
    var r := MonthStarts(start, end);
    forall i | 0 <= i < |r|
      ensures ValidYearMonth(r[i])
    {
      FromOrdinalInverse(lo + i);
      OrdinalOrder(MonthOf(start), r[i]);
      OrdinalOrder(r[i], MonthOf(end));
    }
  }
}
