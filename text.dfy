/**
 * Decimal digits, zero padding, PEP 378 thousands grouping and `", ".join`,
 * the pieces of text formatting the dashboards rely on.
 */
module Text {

  predicate IsDigit(c: char) {
    '0' <= c <= '9'
  }

  predicate AllDigits(s: string) {
    forall i :: 0 <= i < |s| ==> IsDigit(s[i])
  }

  function DigitChar(d: int): char
    requires 0 <= d <= 9
  {
    (d + '0' as int) as char
  }

  function DigitValue(c: char): int
    requires IsDigit(c)
  {
    c as int - '0' as int
  }

  function Pow10(k: nat): nat {
    if k == 0 then 1 else 10 * Pow10(k - 1)
  }

  /** `str(n)`: the decimal digits of `n` without leading zeros. */
  function Digits(n: nat): (s: string)
    ensures 1 <= |s| && AllDigits(s)
  {
    if n < 10 then [DigitChar(n)] else Digits(n / 10) + [DigitChar(n % 10)]
  }

  /** The value of a string of decimal digits. */
  function ParseNat(s: string): nat
    requires AllDigits(s)
  {
    if s == [] then 0 else ParseNat(s[..|s| - 1]) * 10 + DigitValue(s[|s| - 1])
  }

  lemma {:induction false} ParseDigits(n: nat)
    ensures ParseNat(Digits(n)) == n
  {
    if n >= 10 {
      ParseDigits(n / 10);
      assert Digits(n)[..|Digits(n)| - 1] == Digits(n / 10);
    }
  }

  /** A number below `10^k` has at most `k` digits. */
  lemma {:induction false} DigitsLength(n: nat, k: nat)
    requires 1 <= k && n < Pow10(k)
    ensures |Digits(n)| <= k
  {
    if n >= 10 {
      DigitsLength(n / 10, k - 1);
    }
  }

  /** A string of `k` digits stands for a number below `10^k`. */
  lemma {:induction false} ParseNatBound(s: string)
    requires AllDigits(s)
    ensures ParseNat(s) < Pow10(|s|)
  {
    if s != [] {
      ParseNatBound(s[..|s| - 1]);
    }
  }

  function Zeros(k: nat): (z: string)
    ensures |z| == k && AllDigits(z)
  {
    seq(k, _ => '0')
  }

  lemma {:induction false} ParseLeadingZeros(k: nat, s: string)
    requires AllDigits(s)
    ensures ParseNat(Zeros(k) + s) == ParseNat(s)
  {
    if s == [] {
      assert Zeros(k) + s == Zeros(k);
      ParseZeros(k);
    } else {
      assert (Zeros(k) + s)[..|Zeros(k) + s| - 1] == Zeros(k) + s[..|s| - 1];
      ParseLeadingZeros(k, s[..|s| - 1]);
    }
  }

  lemma {:induction false} ParseZeros(k: nat)
    ensures ParseNat(Zeros(k)) == 0
  {
    if k > 0 {
      assert Zeros(k)[..k - 1] == Zeros(k - 1);
      ParseZeros(k - 1);
    }
  }

  /** `n` in decimal, left-padded with zeros to at least `width` characters (`%0<width>d`). */
  function ZeroPad(n: nat, width: nat): (s: string)
    ensures AllDigits(s) && |s| >= width
  {
    var d := Digits(n);
    if |d| >= width then d else Zeros(width - |d|) + d
  }

  /** Zero padding keeps the value, and a number below `10^width` fills exactly `width` characters. */
  lemma ZeroPadSpec(n: nat, width: nat)
    requires 1 <= width && n < Pow10(width)
    ensures |ZeroPad(n, width)| == width && ParseNat(ZeroPad(n, width)) == n
  {
    DigitsLength(n, width);
    ParseDigits(n);
    if |Digits(n)| < width {
      ParseLeadingZeros(width - |Digits(n)|, Digits(n));
    }
  }

  /** The `,` option of the format mini-language (PEP 378): a comma between each group of three digits, counted from the right. */
  function GroupThousands(ds: string): string
    decreases |ds|
  {
    if |ds| <= 3 then ds else GroupThousands(ds[..|ds| - 3]) + "," + ds[|ds| - 3..]
  }

  function RemoveCommas(s: string): string {
    if s == [] then [] else (if s[0] == ',' then "" else [s[0]]) + RemoveCommas(s[1..])
  }

  lemma {:induction false} RemoveCommasAppend(a: string, b: string)
    ensures RemoveCommas(a + b) == RemoveCommas(a) + RemoveCommas(b)
  {
    if a != [] {
      assert (a + b)[1..] == a[1..] + b;
      RemoveCommasAppend(a[1..], b);
    } else {
      assert a + b == b;
    }
  }

  lemma {:induction false} RemoveNoCommas(s: string)
    requires ',' !in s
    ensures RemoveCommas(s) == s
  {
    if s != [] {
      RemoveNoCommas(s[1..]);
    }
  }

  lemma RemoveCommaAfter(gp: string)
    ensures RemoveCommas(gp + ",") == RemoveCommas(gp)
  {
    RemoveCommasAppend(gp, ",");
    assert RemoveCommas(",") == "";
  }

  lemma RemoveCommasAroundComma(gp: string, last: string)
    requires ',' !in last
    ensures RemoveCommas(gp + "," + last) == RemoveCommas(gp) + last
  {
    RemoveCommasAppend(gp + ",", last);
    RemoveCommaAfter(gp);
    RemoveNoCommas(last);
  }

  /** Grouping only inserts commas: removing them gives the digits back. */
  lemma {:induction false} UngroupThousands(ds: string)
    requires ',' !in ds
    ensures RemoveCommas(GroupThousands(ds)) == ds
    decreases |ds|
  {
    if |ds| <= 3 {
      RemoveNoCommas(ds);
    } else {
      var pre, last := ds[..|ds| - 3], ds[|ds| - 3..];
      assert pre + last == ds;
      assert GroupThousands(ds) == GroupThousands(pre) + "," + last;
      assert ',' !in pre && ',' !in last;
      RemoveCommasAroundComma(GroupThousands(pre), last);
      UngroupThousands(pre);
    }
  }

  /** Grouping keeps the leading digit in front. */
  lemma {:induction false} GroupThousandsFirst(ds: string)
    requires 1 <= |ds|
    ensures |GroupThousands(ds)| >= 1 && GroupThousands(ds)[0] == ds[0]
    decreases |ds|
  {
    if |ds| > 3 {
      GroupThousandsFirst(ds[..|ds| - 3]);
    }
  }

  /**
   * Digits grouped as PEP 378 writes them: a comma at every fourth character
   * counted from the end and never first, digits everywhere else.
   */
  predicate GroupedDigits(g: string) {
    && |g| >= 1 && IsDigit(g[0])
    && forall i :: 0 <= i < |g| ==> if (|g| - i) % 4 == 0 then g[i] == ',' else IsDigit(g[i])
  }

  lemma GroupedDigitsExtendAt(gp: string, last: string, i: int)
    requires GroupedDigits(gp) && |last| == 3 && AllDigits(last)
    requires 0 <= i < |gp| + 4
    ensures var g := gp + "," + last;
      if (|g| - i) % 4 == 0 then g[i] == ',' else IsDigit(g[i])
  {
    var g := gp + "," + last;
    if i < |gp| {
      assert g[i] == gp[i] && (|g| - i) % 4 == (|gp| - i) % 4;
    } else if i > |gp| {
      assert g[i] == last[i - |gp| - 1];
    }
  }

  lemma GroupedDigitsExtend(gp: string, last: string)
    requires GroupedDigits(gp) && |last| == 3 && AllDigits(last)
    ensures GroupedDigits(gp + "," + last)
  {
    var g := gp + "," + last;
    forall i | 0 <= i < |g|
      ensures if (|g| - i) % 4 == 0 then g[i] == ',' else IsDigit(g[i])
    {
      GroupedDigitsExtendAt(gp, last, i);
    }
    assert g[0] == gp[0];
  }

  /** Grouping a non-empty run of digits gives grouped digits. */
  lemma {:induction false} GroupThousandsShape(ds: string)
    requires 1 <= |ds| && AllDigits(ds)
    ensures GroupedDigits(GroupThousands(ds))
    decreases |ds|
  {
    if |ds| > 3 {
      var pre, last := ds[..|ds| - 3], ds[|ds| - 3..];
      assert AllDigits(pre) && AllDigits(last);
      GroupThousandsShape(pre);
      GroupedDigitsExtend(GroupThousands(pre), last);
    } else {
      assert GroupThousands(ds) == ds;
    }
  }

  /** `", ".join(xs)`. */
  function Join(xs: seq<string>): string {
    if |xs| == 0 then "" else if |xs| == 1 then xs[0] else xs[0] + ", " + Join(xs[1..])
  }

  /** Reads a `", "`-joined list back: split at each comma, dropping the one space after it. */
  function SplitList(s: string): (r: seq<string>)
    ensures |r| >= 1
    decreases |s|
  {
    if |s| == 0 then [""]
    else if s[0] == ',' then [""] + SplitList(if |s| >= 2 && s[1] == ' ' then s[2..] else s[1..])
    else
      var rest := SplitList(s[1..]);
      [[s[0]] + rest[0]] + rest[1..]
  }

  lemma {:induction false} SplitListPrefix(x: string, t: string)
    requires ',' !in x
    ensures SplitList(x + t) == [x + SplitList(t)[0]] + SplitList(t)[1..]
    decreases |x|
  {
    if x != [] {
      assert (x + t)[1..] == x[1..] + t;
      assert (x + t)[0] == x[0] && x[0] != ',';
      SplitListPrefix(x[1..], t);
      assert [x[0]] + (x[1..] + SplitList(t)[0]) == x + SplitList(t)[0];
    } else {
      assert x + t == t;
      assert x + SplitList(t)[0] == SplitList(t)[0];
      assert SplitList(t) == [SplitList(t)[0]] + SplitList(t)[1..];
    }
  }

  /** Splitting a joined list of comma-free, non-empty-list items gives the items back. */
  lemma {:induction false} JoinSplitRoundTrip(xs: seq<string>)
    requires |xs| >= 1
    requires forall i :: 0 <= i < |xs| ==> ',' !in xs[i]
    ensures SplitList(Join(xs)) == xs
  {
    if |xs| == 1 {
      SplitListPrefix(xs[0], "");
      assert xs[0] + "" == xs[0];
    } else {
      var tail := ", " + Join(xs[1..]);
      assert Join(xs) == xs[0] + tail;
      JoinSplitRoundTrip(xs[1..]);
      SplitListPrefix(xs[0], tail);
      assert tail[2..] == Join(xs[1..]);
      assert SplitList(tail) == [""] + xs[1..];
      assert xs[0] + "" == xs[0];
    }
  }
}
