/**
 The arithmetic the analytics rely on: sums, means, counts of true values and
 the least-squares slope that `np.polyfit(x, y, 1)[0]` computes, in exact
 real arithmetic.
 */
module Stats {

  function Sum(xs: seq<real>): real {
    if |xs| == 0 then 0.0 else Sum(xs[..|xs| - 1]) + xs[|xs| - 1]
  }

  /** `statistics.mean`, also the `sum(...) / len(...)` idiom. */
  function Mean(xs: seq<real>): real
    requires |xs| > 0
  {
    Sum(xs) / |xs| as real
  }

  lemma {:induction false} SumAppend(xs: seq<real>, ys: seq<real>)
    ensures Sum(xs + ys) == Sum(xs) + Sum(ys)
  {
    if |ys| == 0 {
      assert xs + ys == xs;
    } else {
      assert (xs + ys)[..|xs + ys| - 1] == xs + ys[..|ys| - 1];
      SumAppend(xs, ys[..|ys| - 1]);
    }
  }

  lemma {:induction false} SumBounds(xs: seq<real>, lo: real, hi: real)
    requires forall i :: 0 <= i < |xs| ==> lo <= xs[i] <= hi
    ensures |xs| as real * lo <= Sum(xs) <= |xs| as real * hi
  {
    if |xs| > 0 {
      SumBounds(xs[..|xs| - 1], lo, hi);
    }
  }

  /** A mean lies between any lower and upper bound of its samples. */
  lemma MeanBounds(xs: seq<real>, lo: real, hi: real)
    requires |xs| > 0
    requires forall i :: 0 <= i < |xs| ==> lo <= xs[i] <= hi
    ensures lo <= Mean(xs) <= hi
  {
    SumBounds(xs, lo, hi);
    var n := |xs| as real;
    assert n * lo <= Sum(xs) <= n * hi;
    assert lo == (n * lo) / n && hi == (n * hi) / n;
  }

  /** Samples all strictly below a bound have a mean strictly below it. */
  lemma {:induction false} MeanBelow(xs: seq<real>, hi: real)
    requires |xs| > 0
    requires forall i :: 0 <= i < |xs| ==> xs[i] < hi
    ensures Mean(xs) < hi
  {
    SumBelow(xs, hi);
    var n := |xs| as real;
    assert hi == (n * hi) / n;
  }

  lemma {:induction false} SumBelow(xs: seq<real>, hi: real)
    requires |xs| > 0
    requires forall i :: 0 <= i < |xs| ==> xs[i] < hi
    ensures Sum(xs) < |xs| as real * hi
  {
    if |xs| > 1 {
      SumBelow(xs[..|xs| - 1], hi);
    }
  }

  /** `sum(1 for b in bs if b)`. */
  function CountTrue(bs: seq<bool>): (n: nat)
    ensures n <= |bs|
  {
    if |bs| == 0 then 0 else CountTrue(bs[..|bs| - 1]) + (if bs[|bs| - 1] then 1 else 0)
  }

  lemma {:induction false} CountTrueAppend(xs: seq<bool>, ys: seq<bool>)
    ensures CountTrue(xs + ys) == CountTrue(xs) + CountTrue(ys)
  {
    if |ys| == 0 {
      assert xs + ys == xs;
    } else {
      assert (xs + ys)[..|xs + ys| - 1] == xs + ys[..|ys| - 1];
      CountTrueAppend(xs, ys[..|ys| - 1]);
    }
  }

  lemma {:induction false} CountTrueUniform(bs: seq<bool>, v: bool)
    requires forall i :: 0 <= i < |bs| ==> bs[i] == v
    ensures CountTrue(bs) == if v then |bs| else 0
  {
    if |bs| > 0 {
      CountTrueUniform(bs[..|bs| - 1], v);
    }
  }

  /** A count over a larger positive count is a fraction in [0, 1]. */
  lemma FractionBounds(c: nat, n: nat)
    requires c <= n && n > 0
    ensures 0.0 <= c as real / n as real <= 1.0
  {
  }

  /** q is num divided by den: q * den == num. */
  predicate IsQuotient(q: real, num: real, den: nat) {
    q * den as real == num
  }

  /** num / den for a positive den. */
  function Divide(num: real, den: nat): (q: real)
    requires den > 0
    ensures IsQuotient(q, num, den)
  {
    num / den as real
  }

  lemma QuotientIsDivision(q: real, num: real, den: nat)
    requires den > 0 && IsQuotient(q, num, den)
    ensures q == num / den as real
  {
  }

  /** `part / whole` with the code's `if whole > 0 else 0` guard. */
  function Fraction(part: nat, whole: nat): (f: real)
    requires part <= whole
    ensures 0.0 <= f <= 1.0
    ensures whole == 0 ==> f == 0.0
    ensures whole > 0 ==> IsQuotient(f, part as real, whole)
  {
    if whole == 0 then 0.0
    else
      FractionBounds(part, whole);
      part as real / whole as real
  }

  /** The fraction of true values, `correct / total`. */
  function Ratio(bs: seq<bool>): (r: real)
    requires |bs| > 0
    ensures 0.0 <= r <= 1.0
    ensures IsQuotient(r, CountTrue(bs) as real, |bs|)
  {
    Fraction(CountTrue(bs), |bs|)
  }

  /** All true gives ratio 1, all false gives ratio 0. */
  lemma RatioUniform(bs: seq<bool>, v: bool)
    requires |bs| > 0
    requires forall i :: 0 <= i < |bs| ==> bs[i] == v
    ensures Ratio(bs) == if v then 1.0 else 0.0
  {
    CountTrueUniform(bs, v);
  }

  /** Sum of i * xs[i]. */
  function IndexWeightedSum(xs: seq<real>): real {
    if |xs| == 0 then 0.0
    else IndexWeightedSum(xs[..|xs| - 1]) + (|xs| - 1) as real * xs[|xs| - 1]
  }

  /**
   The slope of the least-squares line through the points (i, ys[i]),
   i = 0 .. n-1: sum((i - mean_x) * ys[i]) / sum((i - mean_x)^2), where the
   denominator is n (n^2 - 1) / 12.
   */
  function Slope(ys: seq<real>): real
    requires |ys| >= 2
  {
    SlopeFormula(|ys| as real, IndexWeightedSum(ys), Sum(ys))
  }

  /** The slope for n points from the index-weighted sum w and the plain sum s. */
  function SlopeFormula(n: real, w: real, s: real): real
    requires n >= 2.0
  {
    12.0 * (w - (n - 1.0) / 2.0 * s) / (n * (n * n - 1.0))
  }

  /** The points of the line a + b * i for i = 0 .. n-1. */
  function Line(a: real, b: real, n: nat): (ys: seq<real>)
    ensures |ys| == n
    ensures forall i :: 0 <= i < n ==> ys[i] == a + b * i as real
  {
    seq(n, i requires 0 <= i < n => a + b * i as real)
  }

  lemma {:induction false} SumLine(a: real, b: real, n: nat)
    ensures Sum(Line(a, b, n)) == n as real * a + b * (n as real * (n as real - 1.0) / 2.0)
  {
    if n > 0 {
      assert Line(a, b, n)[..n - 1] == Line(a, b, n - 1);
      SumLine(a, b, n - 1);
      var m := (n - 1) as real;
      assert Sum(Line(a, b, n)) == m * a + b * (m * (m - 1.0) / 2.0) + (a + b * m);
      assert m * (m - 1.0) / 2.0 + m == (m + 1.0) * m / 2.0;
    }
  }

  lemma {:induction false} IndexWeightedSumLine(a: real, b: real, n: nat)
    ensures IndexWeightedSum(Line(a, b, n))
         == a * (n as real * (n as real - 1.0) / 2.0)
          + b * ((n as real - 1.0) * n as real * (2.0 * n as real - 1.0) / 6.0)
  {
    if n > 0 {
      assert Line(a, b, n)[..n - 1] == Line(a, b, n - 1);
      IndexWeightedSumLine(a, b, n - 1);
      var m := (n - 1) as real;
      assert IndexWeightedSum(Line(a, b, n))
          == a * (m * (m - 1.0) / 2.0) + b * ((m - 1.0) * m * (2.0 * m - 1.0) / 6.0) + m * (a + b * m);
      assert m * (m - 1.0) / 2.0 + m == (m + 1.0) * m / 2.0;
      assert (m - 1.0) * m * (2.0 * m - 1.0) / 6.0 + m * m == m * (m + 1.0) * (2.0 * m + 1.0) / 6.0;
    }
  }

  /** The numerator of the slope for the closed-form sums of a line. */
  lemma LineNumerator(a: real, b: real, x: real)
    ensures (a * (x * (x - 1.0) / 2.0) + b * ((x - 1.0) * x * (2.0 * x - 1.0) / 6.0))
            - (x - 1.0) / 2.0 * (x * a + b * (x * (x - 1.0) / 2.0))
         == b * (x * (x * x - 1.0) / 12.0)
  {
    var p := (x - 1.0) * x;
    assert (x - 1.0) / 2.0 * (x * a) == a * (x * (x - 1.0) / 2.0);
    assert (x - 1.0) / 2.0 * (b * (x * (x - 1.0) / 2.0)) == b * (p * (x - 1.0) / 4.0);
    assert (x - 1.0) * x * (2.0 * x - 1.0) / 6.0 == p * (2.0 * x - 1.0) / 6.0;
    assert p * (2.0 * x - 1.0) / 6.0 - p * (x - 1.0) / 4.0 == p * (x + 1.0) / 12.0;
    assert p * (x + 1.0) == x * (x * x - 1.0);
  }

  /** Twelve times b * d / 12, divided by a non-zero d, is b. */
  lemma CancelTwelfth(b: real, d: real)
    requires d != 0.0
    ensures 12.0 * (b * (d / 12.0)) / d == b
  {
    assert 12.0 * (b * (d / 12.0)) == b * d;
  }

  /** The slope formula applied to the closed-form sums of a line of x >= 2 points gives b. */
  lemma SlopeOfSums(a: real, b: real, x: real)
    requires x >= 2.0
    ensures SlopeFormula(x, a * (x * (x - 1.0) / 2.0) + b * ((x - 1.0) * x * (2.0 * x - 1.0) / 6.0),
                            x * a + b * (x * (x - 1.0) / 2.0)) == b
  {
    LineNumerator(a, b, x);
    var d := x * (x * x - 1.0);
    assert x * x >= 4.0;
    assert d > 0.0;
    CancelTwelfth(b, d);
  }

  /** The fit is exact on a line: the slope of a + b * i is b. */
  lemma SlopeOfLine(a: real, b: real, n: nat)
    requires n >= 2
    ensures Slope(Line(a, b, n)) == b
  {
    SumLine(a, b, n);
    IndexWeightedSumLine(a, b, n);
    SlopeOfSums(a, b, n as real);
  }

  /** A constant series has slope 0. */
  lemma SlopeOfConstant(ys: seq<real>, c: real)
    requires |ys| >= 2
    requires forall i :: 0 <= i < |ys| ==> ys[i] == c
    ensures Slope(ys) == 0.0
  {
    assert ys == Line(c, 0.0, |ys|);
    SlopeOfLine(c, 0.0, |ys|);
  }
}
