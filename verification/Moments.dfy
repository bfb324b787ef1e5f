/** Mean and second moment of a list of reals: by definition, and one element at a time. */
module Moments {
  function Sum(xs: seq<real>): real {
    if xs == [] then 0.0 else Sum(xs[..|xs| - 1]) + xs[|xs| - 1]
  }

  function Square(x: real): real { x * x }

  function SumOfSquares(xs: seq<real>): real {
    if xs == [] then 0.0 else SumOfSquares(xs[..|xs| - 1]) + Square(xs[|xs| - 1])
  }

  predicate MomentsOf(avg: real, second: real, xs: seq<real>) {
    if xs == [] then avg == second == 0.0
    else IsMean(avg, |xs|, Sum(xs)) && IsMean(second, |xs|, SumOfSquares(xs))
  }

  predicate IsMean(mean: real, count: nat, total: real) { Times(count, mean) == total }

  function Times(n: nat, x: real): real { n as real * x }

  /** One step of an incremental mean. */
  function NextMean(count: nat, mean: real, x: real): real {
    (Times(count, mean) + x) / (count + 1) as real
  }

  lemma MeanStep(count: nat, mean: real, total: real, x: real)
    requires if count == 0 then total == 0.0 else IsMean(mean, count, total)
    ensures IsMean(NextMean(count, mean, x), count + 1, total + x)
  {
    var n, sum := (count + 1) as real, Times(count, mean) + x;
    assert n * (sum / n) == sum;
  }

  lemma {:induction false} SumOfAppended(xs: seq<real>, x: real)
    ensures Sum(xs + [x]) == Sum(xs) + x && SumOfSquares(xs + [x]) == SumOfSquares(xs) + Square(x)
  {
    assert (xs + [x])[..|xs|] == xs;
  }

  lemma {:induction false} MomentsOfAppended(avg: real, second: real, xs: seq<real>, x: real)
    requires IsMean(avg, |xs| + 1, Sum(xs) + x) && IsMean(second, |xs| + 1, SumOfSquares(xs) + Square(x))
    ensures MomentsOf(avg, second, xs + [x])
  {
    SumOfAppended(xs, x);
    assert |xs + [x]| == |xs| + 1;
  }

  lemma {:induction false} MomentsAgree(count: nat, avg: real, second: real, xs: seq<real>, x: real)
    requires count == |xs| && (xs != [] ==> MomentsOf(avg, second, xs))
    ensures MomentsOf(NextMean(count, avg, x), NextMean(count, second, Square(x)), xs + [x])
  {
    MeanStep(count, avg, Sum(xs), x);
    MeanStep(count, second, SumOfSquares(xs), Square(x));
    MomentsOfAppended(NextMean(count, avg, x), NextMean(count, second, Square(x)), xs, x);
  }

  // ------------------------------------------------------------------------ variance

  function SumOfDeviations(xs: seq<real>, m: real): real {
    if xs == [] then 0.0 else SumOfDeviations(xs[..|xs| - 1], m) + Square(xs[|xs| - 1] - m)
  }

  predicate Within(xs: seq<real>, lo: real, hi: real) { forall x :: x in xs ==> lo <= x <= hi }

  /** The sum of squared deviations from m, from the two sums. */
  function Expanded(n: nat, total: real, squares: real, m: real): real {
    squares - 2.0 * m * total + Times(n, m * m)
  }

  lemma {:induction false} DeviationsExpand(xs: seq<real>, m: real)
    ensures SumOfDeviations(xs, m) == Expanded(|xs|, Sum(xs), SumOfSquares(xs), m)
  {
    if xs == [] {
    } else {
      var x := xs[|xs| - 1];
      DeviationsExpand(xs[..|xs| - 1], m);
      assert Square(x - m) == Square(x) - 2.0 * m * x + m * m;
    }
  }

  lemma {:induction false} DeviationsAreNonnegative(xs: seq<real>, m: real)
    ensures SumOfDeviations(xs, m) >= 0.0
  {
    if xs == [] {
    } else {
      DeviationsAreNonnegative(xs[..|xs| - 1], m);
      var d := xs[|xs| - 1] - m;
      assert d * d >= 0.0;
    }
  }

  lemma BoundedElement(x: real, lo: real, hi: real)
    requires lo <= x <= hi
    ensures Square(x) <= (lo + hi) * x - lo * hi
  {
    assert (hi - x) * (x - lo) >= 0.0;
  }

  lemma TimesNext(n: nat, x: real)
    ensures Times(n + 1, x) == Times(n, x) + x
  {
  }

  /** The largest sum of squares of n numbers between lo and hi with this total. */
  function LargestSquares(n: nat, total: real, lo: real, hi: real): real {
    (lo + hi) * total - Times(n, lo * hi)
  }

  lemma LargestSquaresStep(n: nat, total: real, x: real, lo: real, hi: real)
    requires lo <= x <= hi
    ensures LargestSquares(n, total, lo, hi) + Square(x) <= LargestSquares(n + 1, total + x, lo, hi)
  {
    BoundedElement(x, lo, hi);
    TimesNext(n, lo * hi);
    assert (lo + hi) * (total + x) == (lo + hi) * total + (lo + hi) * x;
  }

  lemma {:induction false} BoundedSums(xs: seq<real>, lo: real, hi: real)
    requires Within(xs, lo, hi)
    ensures Times(|xs|, lo) <= Sum(xs) <= Times(|xs|, hi)
    ensures SumOfSquares(xs) <= LargestSquares(|xs|, Sum(xs), lo, hi)
  {
    if xs == [] {
    } else {
      var n, rest, x := |xs| - 1, xs[..|xs| - 1], xs[|xs| - 1];
      assert forall y :: y in rest ==> y in xs;
      assert x in xs;
      BoundedSums(rest, lo, hi);
      TimesNext(n, lo);
      TimesNext(n, hi);
      LargestSquaresStep(n, Sum(rest), x, lo, hi);
    }
  }

  lemma Cancel(n: nat, a: real, b: real)
    requires n > 0
    ensures Times(n, a) <= Times(n, b) <==> a <= b
  {
    var d := b - a;
    assert Times(n, b) == Times(n, a) + Times(n, d);
    if d < 0.0 {
      assert n as real * (-d) > 0.0;
      assert Times(n, d) == -(n as real * (-d));
    } else {
      assert n as real * d >= 0.0;
    }
  }

  /** The number under the square root of the standard deviation. */
  function Radicand(avg: real, second: real): real { second - avg * avg }

  lemma MeanDeviation(n: nat, avg: real, second: real, total: real, squares: real)
    requires IsMean(avg, n, total) && IsMean(second, n, squares)
    ensures IsMean(Radicand(avg, second), n, Expanded(n, total, squares, avg))
  {
    assert avg * Times(n, avg) == Times(n, avg * avg);
  }

  lemma MeanBound(n: nat, avg: real, second: real, total: real, squares: real, lo: real, hi: real)
    requires n > 0 && IsMean(avg, n, total) && IsMean(second, n, squares)
    requires squares <= LargestSquares(n, total, lo, hi)
    ensures Radicand(avg, second) <= (hi - avg) * (avg - lo)
  {
    assert (lo + hi) * Times(n, avg) == Times(n, (lo + hi) * avg);
    assert Times(n, (lo + hi) * avg) - Times(n, lo * hi) == Times(n, (lo + hi) * avg - lo * hi);
    Cancel(n, second, (lo + hi) * avg - lo * hi);
    assert (hi - avg) * (avg - lo) == (lo + hi) * avg - lo * hi - avg * avg;
  }

  lemma NonnegativeMean(n: nat, mean: real, total: real)
    requires n > 0 && IsMean(mean, n, total) && total >= 0.0
    ensures mean >= 0.0
  {
    Cancel(n, 0.0, mean);
  }

  /** The mean lies within the bounds; second - mean^2 is the mean squared deviation, is never
      negative, and is at most (hi - mean) * (mean - lo). */
  lemma {:induction false} VarianceBounds(avg: real, second: real, xs: seq<real>, lo: real, hi: real)
    requires xs != [] && MomentsOf(avg, second, xs) && Within(xs, lo, hi)
    ensures lo <= avg <= hi
    ensures IsMean(Radicand(avg, second), |xs|, SumOfDeviations(xs, avg))
    ensures 0.0 <= Radicand(avg, second) <= (hi - avg) * (avg - lo)
  {
    var n, total, squares := |xs|, Sum(xs), SumOfSquares(xs);
    BoundedSums(xs, lo, hi);
    Cancel(n, lo, avg);
    Cancel(n, avg, hi);
    DeviationsExpand(xs, avg);
    MeanDeviation(n, avg, second, total, squares);
    DeviationsAreNonnegative(xs, avg);
    NonnegativeMean(n, Radicand(avg, second), SumOfDeviations(xs, avg));
    MeanBound(n, avg, second, total, squares, lo, hi);
  }
}
