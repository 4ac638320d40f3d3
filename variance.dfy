/** The year-on-year change of the revenue page, for the metric and for each client. */
module Variance {

  /**
   * `(current - previous) / previous * 100`, and `0.0` when `previous` is 0
   * (pages/1_Revenue.py, both for the metric and in `calc_percentage_diff`).
   */
  function PercentDiff(current: int, previous: int): (r: real)
    ensures previous == 0 ==> r == 0.0
    ensures previous != 0 ==> r * (previous as real) == ((current - previous) as real) * 100.0
    ensures r == 0.0 <==> previous == 0 || current == previous
    ensures previous > 0 ==> (r > 0.0 <==> current > previous) && (r < 0.0 <==> current < previous)
    ensures previous < 0 ==> (r > 0.0 <==> current < previous) && (r < 0.0 <==> current > previous)
  {
    if previous == 0 then 0.0
    else
      var d, p := (current - previous) as real, previous as real;
      assert (d / p) * p == d;
      (d / p) * 100.0
  }

  /** The percentages a reader expects: +50 from 100 to 150, -50 from 100 to 50, and 0.0 from a zero baseline. */
  lemma PercentDiffExamples()
    ensures PercentDiff(150, 100) == 50.0
    ensures PercentDiff(50, 100) == -50.0
    ensures PercentDiff(100, 0) == 0.0
    ensures PercentDiff(0, 0) == 0.0
  {
  }
}
