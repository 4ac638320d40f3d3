/**
 * The three renderings the dashboards apply to months and amounts, each with
 * the reading that takes it back: the `%Y-%m` month key the ledger query emits
 * and `pd.to_datetime(..., format="%Y-%m")` parses, the `%b-%Y` label of
 * `strftime`/`strptime`, and the currency cell `f"£{x:,.2f}"`.
 */
module Formats {
  import opened Wrappers
  import opened Calendar
  import opened Text

  /** The `%b` abbreviations of the C locale, January first. */
  const MonthAbbreviations: seq<string> :=
    ["Jan", "Feb", "Mar", "Apr", "May", "Jun", "Jul", "Aug", "Sep", "Oct", "Nov", "Dec"]

  /** `%Y`: the year in four digits. */
  function YearText(y: int): string
    requires MinYear <= y <= MaxYear
  {
    ZeroPad(y, 4)
  }

  /** `FORMAT_TIMESTAMP('%Y-%m', ...)`: the month key of a query row. */
  function MonthKey(ym: YearMonth): string
    requires ValidYearMonth(ym)
  {
    YearText(ym.year) + "-" + ZeroPad(ym.month, 2)
  }

  /** `pd.to_datetime(key, format="%Y-%m")`; `None` is the `ValueError` raised on a key it cannot read. */
  function ParseMonthKey(s: string): (r: Option<YearMonth>)
    ensures r.Some? ==> ValidYearMonth(r.value)
  {
    if |s| != 7 || s[4] != '-' || !AllDigits(s[..4]) || !AllDigits(s[5..]) then None
    else
      var y, m := ParseNat(s[..4]), ParseNat(s[5..]);
      ParseNatBound(s[..4]);
      if y < MinYear || m < 1 || m > 12 then None else Some(YearMonth(y, m))
  }

  /** `strftime("%b-%Y")`, the month label of a bucket or a pivot column. */
  function MonthLabel(ym: YearMonth): string
    requires ValidYearMonth(ym)
  {
    MonthAbbreviations[ym.month - 1] + "-" + YearText(ym.year)
  }

  function MonthNumber(abbr: string): Option<int> {
    if abbr == "Jan" then Some(1) else if abbr == "Feb" then Some(2)
    else if abbr == "Mar" then Some(3) else if abbr == "Apr" then Some(4)
    else if abbr == "May" then Some(5) else if abbr == "Jun" then Some(6)
    else if abbr == "Jul" then Some(7) else if abbr == "Aug" then Some(8)
    else if abbr == "Sep" then Some(9) else if abbr == "Oct" then Some(10)
    else if abbr == "Nov" then Some(11) else if abbr == "Dec" then Some(12)
    else None
  }

  /** `datetime.strptime(s, "%b-%Y")`, read as (year, month); `None` is the `ValueError` it raises. */
  function ParseMonthLabel(s: string): (r: Option<YearMonth>)
    ensures r.Some? ==> ValidYearMonth(r.value)
  {
    if |s| != 8 || s[3] != '-' || !AllDigits(s[4..]) then None
    else
      match MonthNumber(s[..3])
      case None => None
      case Some(m) =>
        var y := ParseNat(s[4..]);
        ParseNatBound(s[4..]);
        if y < MinYear || !(1 <= m <= 12) then None else Some(YearMonth(y, m))
  }

  lemma MonthNumberOfAbbreviation(m: int)
    requires 1 <= m <= 12
    ensures |MonthAbbreviations[m - 1]| == 3 && MonthNumber(MonthAbbreviations[m - 1]) == Some(m)
  {
  }

  /** Rendering a month as a `%Y-%m` key and reading the key back gives the same month. */
  lemma MonthKeyRoundTrip(ym: YearMonth)
    requires ValidYearMonth(ym)
    ensures ParseMonthKey(MonthKey(ym)) == Some(ym)
  {
    var s := MonthKey(ym);
    ZeroPadSpec(ym.year, 4);
    ZeroPadSpec(ym.month, 2);
    assert s[..4] == YearText(ym.year);
    assert s[5..] == ZeroPad(ym.month, 2);
  }

  /** Rendering a month as a `%b-%Y` label and parsing it with `%b-%Y` gives the same (year, month). */
  lemma MonthLabelRoundTrip(ym: YearMonth)
    requires ValidYearMonth(ym)
    ensures |MonthLabel(ym)| == 8
    ensures ParseMonthLabel(MonthLabel(ym)) == Some(ym)
  {
    var s := MonthLabel(ym);
    ZeroPadSpec(ym.year, 4);
    MonthNumberOfAbbreviation(ym.month);
    assert s[..3] == MonthAbbreviations[ym.month - 1];
    assert s[4..] == YearText(ym.year);
  }

  /** Labels tell months apart: two months share a label only if they are the same month. */
  lemma MonthLabelInjective(a: YearMonth, b: YearMonth)
    requires ValidYearMonth(a) && ValidYearMonth(b)
    ensures MonthLabel(a) == MonthLabel(b) <==> a == b
  {
    MonthLabelRoundTrip(a);
    MonthLabelRoundTrip(b);
  }

  /** `f"{a:,.2f}"` for a non-negative amount of `a` pence: grouped pounds, a point, two digits of pence. */
  function AmountText(a: nat): string {
    GroupThousands(Digits(a / 100)) + "." + ZeroPad(a % 100, 2)
  }

  /** `f"£{x:,.2f}"` for an amount held as a whole number of pence; a negative amount keeps its minus sign after the `£`. */
  function FormatPounds(pence: int): string {
    if pence < 0 then "£-" + AmountText(-pence) else "£" + AmountText(pence)
  }

  /** Reads a comma-grouped amount with two decimals, without sign or currency symbol, into pence. */
  function ParseUnsignedAmount(body: string): Option<nat> {
    if |body| < 4 || body[|body| - 3] != '.' then None
    else
      var whole, frac := RemoveCommas(body[..|body| - 3]), body[|body| - 2..];
      if whole == [] || !AllDigits(whole) || !AllDigits(frac) then None
      else Some(ParseNat(whole) * 100 + ParseNat(frac))
  }

  /** Reads a `£`-prefixed, comma-grouped, two-decimal amount back into pence. */
  function ParsePounds(s: string): Option<int> {
    if |s| < 2 || s[0] != '£' then None
    else if s[1] == '-' then
      match ParseUnsignedAmount(s[2..])
      case None => None
      case Some(v) => Some(-(v as int))
    else ParseUnsignedAmount(s[1..])
  }

  /** Reading `whole + "." + frac` back: the commas of `whole` are dropped and the two parts combined into pence. */
  lemma ParseAmountParts(g: string, f: string)
    requires |g| >= 1 && RemoveCommas(g) != [] && AllDigits(RemoveCommas(g))
    requires |f| == 2 && AllDigits(f)
    ensures ParseUnsignedAmount(g + "." + f) == Some(ParseNat(RemoveCommas(g)) * 100 + ParseNat(f))
  {
    AmountBodyParts(g, f);
  }

  lemma AmountBodyParts(g: string, f: string)
    requires |g| >= 1 && |f| == 2
    ensures var body := g + "." + f;
      && |body| >= 4 && body[|body| - 3] == '.'
      && body[..|body| - 3] == g && body[|body| - 2..] == f
  {
    var body := g + "." + f;
    assert body[..|body| - 3] == g;
    assert body[|body| - 2..] == f;
  }

  lemma PenceSplit(a: nat)
    ensures (a / 100) * 100 + a % 100 == a
  {
  }

  /** The amount's text opens with a digit, so it is never read as a sign. */
  lemma AmountTextLeadingDigit(a: nat)
    ensures |AmountText(a)| >= 1 && IsDigit(AmountText(a)[0])
  {
    GroupThousandsFirst(Digits(a / 100));
  }

  lemma ParseAmountText(a: nat)
    ensures ParseUnsignedAmount(AmountText(a)) == Some(a)
  {
    var ds := Digits(a / 100);
    var g := GroupThousands(ds);
    var f := ZeroPad(a % 100, 2);
    assert AmountText(a) == g + "." + f;
    GroupThousandsFirst(ds);
    assert ',' !in ds by {
      forall i | 0 <= i < |ds| ensures ds[i] != ',' {
        assert IsDigit(ds[i]);
      }
    }
    UngroupThousands(ds);
    ZeroPadSpec(a % 100, 2);
    ParseDigits(a / 100);
    ParseAmountParts(g, f);
    PenceSplit(a);
  }

  /** A negative amount's cell is `£-` followed by the text of its magnitude. */
  lemma NegativeCell(pence: int, n: nat)
    requires pence < 0 && n == -pence
    ensures FormatPounds(pence) == "£-" + AmountText(n)
  {
  }

  /** Reading `£-` and an amount's text back negates the amount. */
  lemma ParseNegativePounds(s: string, t: string, n: nat)
    requires s == "£-" + t
    requires ParseUnsignedAmount(t) == Some(n)
    ensures ParsePounds(s) == Some(-(n as int))
  {
    assert s[0] == '£' && s[1] == '-' && s[2..] == t;
  }

  lemma NegativePoundsRoundTrip(pence: int)
    requires pence < 0
    ensures ParsePounds(FormatPounds(pence)) == Some(pence)
  {
    var n: nat := -pence;
    ParseAmountText(n);
    NegativeCell(pence, n);
    ParseNegativePounds(FormatPounds(pence), AmountText(n), n);
  }

  lemma NonNegativePoundsRoundTrip(pence: int)
    requires pence >= 0
    ensures ParsePounds(FormatPounds(pence)) == Some(pence)
  {
    var t := AmountText(pence);
    var s := "£" + t;
    assert FormatPounds(pence) == s;
    assert s[0] == '£' && s[1..] == t;
    AmountTextLeadingDigit(pence);
    assert s[1] == t[0];
    ParseAmountText(pence);
  }

  /** The currency cell loses nothing: reading it back gives the amount in pence. */
  lemma FormatPoundsRoundTrip(pence: int)
    ensures ParsePounds(FormatPounds(pence)) == Some(pence)
  {
    if pence < 0 {
      NegativePoundsRoundTrip(pence);
    } else {
      NonNegativePoundsRoundTrip(pence);
    }
  }
}
