/**
 Mean and population standard deviation of a list of days, as NumPy computes them, and what
 they measure.
 */
module Statistics {
  import opened OutlierHandler

  function Sum(xs: seq<real>): real {
    if xs == [] then 0.0 else Sum(xs[..|xs| - 1]) + xs[|xs| - 1]
  }

  function Mean(xs: seq<real>): real
    requires xs != []
  {
    Sum(xs) / |xs| as real
  }

  /** The squared differences from `c`. */
  function Squares(xs: seq<real>, c: real): (r: seq<real>)
    ensures |r| == |xs|
  {
    seq(|xs|, i requires 0 <= i < |xs| => Times(xs[i] - c, xs[i] - c))
  }

  function Std(xs: seq<real>, sqrt: SquareRoot): real
    requires xs != []
  {
    sqrt(Mean(Squares(xs, Mean(xs))))
  }

  // ---------------------------------------------------------------------------
  // The mean
  // ---------------------------------------------------------------------------

  lemma TimesAdds(x: real, y: real, z: real)
    ensures Times(x + y, z) == Times(x, z) + Times(y, z)
    ensures Times(x, z) == Times(z, x)
  {
  }

  lemma QuotientTimes(x: real, n: real)
    requires n != 0.0
    ensures Times(n, x / n) == x
  {
  }

  /** The mean is the number that, taken once per day, gives the sum. */
  lemma MeanTimes(xs: seq<real>)
    requires xs != []
    ensures Times(|xs| as real, Mean(xs)) == Sum(xs)
  {
    QuotientTimes(Sum(xs), |xs| as real);
  }

  lemma {:induction false} SumBetween(xs: seq<real>, lo: real, hi: real)
    requires forall i | 0 <= i < |xs| :: lo <= xs[i] <= hi
    ensures Times(|xs| as real, lo) <= Sum(xs) <= Times(|xs| as real, hi)
  {
    if xs != [] {
      var n := |xs| - 1;
      SumBetween(xs[..n], lo, hi);
      TimesAdds(n as real, 1.0, lo);
      TimesAdds(n as real, 1.0, hi);
    }
  }

  lemma LessByFactor(n: real, x: real, y: real)
    requires n > 0.0 && Times(n, x) <= Times(n, y)
    ensures x <= y
  {
  }

  /** The mean lies between any bounds of the days, so between the smallest and the largest one. */
  lemma MeanBetween(xs: seq<real>, lo: real, hi: real)
    requires xs != [] && forall i | 0 <= i < |xs| :: lo <= xs[i] <= hi
    ensures lo <= Mean(xs) <= hi
  {
    SumBetween(xs, lo, hi);
    MeanTimes(xs);
    LessByFactor(|xs| as real, lo, Mean(xs));
    LessByFactor(|xs| as real, Mean(xs), hi);
  }

  function Differences(xs: seq<real>, c: real): (r: seq<real>)
    ensures |r| == |xs|
  {
    seq(|xs|, i requires 0 <= i < |xs| => xs[i] - c)
  }

  lemma {:induction false} SumOfDifferences(xs: seq<real>, c: real)
    ensures Sum(Differences(xs, c)) == Sum(xs) - Times(|xs| as real, c)
  {
    if xs != [] {
      var n := |xs| - 1;
      SumOfDifferences(xs[..n], c);
      assert Differences(xs, c)[..n] == Differences(xs[..n], c);
      TimesAdds(n as real, 1.0, c);
    }
  }

  /** What the days are above the mean and what they are below it cancel out. */
  lemma DifferencesCancel(xs: seq<real>)
    requires xs != []
    ensures Sum(Differences(xs, Mean(xs))) == 0.0
  {
    SumOfDifferences(xs, Mean(xs));
    MeanTimes(xs);
  }

  // ---------------------------------------------------------------------------
  // The deviation
  // ---------------------------------------------------------------------------

  lemma {:induction false} SquaresVanishIff(xs: seq<real>, c: real)
    ensures Sum(Squares(xs, c)) >= 0.0
    ensures Sum(Squares(xs, c)) == 0.0 <==> forall i | 0 <= i < |xs| :: xs[i] == c
  {
    if xs != [] {
      var n := |xs| - 1;
      SquaresVanishIff(xs[..n], c);
      assert Squares(xs, c)[..n] == Squares(xs[..n], c);
      SquareSign(xs[n] - c);
      assert (forall i | 0 <= i < |xs| :: xs[i] == c)
        <==> xs[n] == c && forall i | 0 <= i < n :: xs[..n][i] == c;
    }
  }

  /** The deviation is positive exactly if some day differs from another. */
  lemma StdPositiveIff(xs: seq<real>, sqrt: SquareRoot)
    requires xs != [] && PositiveRoot(sqrt)
    ensures Std(xs, sqrt) > 0.0 <==> !Constant(xs)
  {
    var mean := Mean(xs);
    SquaresVanishIff(xs, mean);
    QuotientSign(Sum(Squares(xs, mean)), |xs| as real);
    if Constant(xs) {
      MeanBetween(xs, xs[0], xs[0]);
    }
  }

  function Shifted(xs: seq<real>, c: real): (r: seq<real>)
    ensures |r| == |xs|
  {
    seq(|xs|, i requires 0 <= i < |xs| => xs[i] + c)
  }

  lemma SumShift(s: real, n: real, c: real)
    requires n != 0.0
    ensures (s + Times(n, c)) / n == s / n + c
  {
  }

  /** Selling `c` more on every day moves the mean by `c` and the deviation not at all. */
  lemma StdOfShifted(xs: seq<real>, c: real, sqrt: SquareRoot)
    requires xs != []
    ensures Mean(Shifted(xs, c)) == Mean(xs) + c
    ensures Std(Shifted(xs, c), sqrt) == Std(xs, sqrt)
  {
    var more := Shifted(xs, c);
    assert Differences(more, c) == xs;
    SumOfDifferences(more, c);
    SumShift(Sum(xs), |xs| as real, c);
    assert Squares(more, Mean(xs) + c) == Squares(xs, Mean(xs));
  }

  /** A square root proper. */
  ghost predicate ExactRoot(sqrt: SquareRoot) {
    forall x | x >= 0.0 :: Times(sqrt(x), sqrt(x)) == x
  }

  lemma SquareOfDifference(x: real, c: real)
    ensures Times(x - c, x - c) == Times(x, x) - 2.0 * Times(c, x) + Times(c, c)
  {
  }

  lemma {:induction false} SumOfSquares(xs: seq<real>, c: real)
    ensures Sum(Squares(xs, c))
         == Sum(Squares(xs, 0.0)) - 2.0 * Times(c, Sum(xs)) + Times(|xs| as real, Times(c, c))
  {
    if xs != [] {
      var n := |xs| - 1;
      SumOfSquares(xs[..n], c);
      assert Squares(xs, c)[..n] == Squares(xs[..n], c);
      assert Squares(xs, 0.0)[..n] == Squares(xs[..n], 0.0);
      SquareOfDifference(xs[n], c);
      TimesAdds(Sum(xs[..n]), xs[n], c);
      TimesAdds(n as real, 1.0, Times(c, c));
      TimesAdds(Sum(xs), 0.0, c);
      TimesAdds(Sum(xs[..n]), 0.0, c);
      TimesAdds(xs[n], 0.0, c);
    }
  }

  lemma TimesThrough(n: real, x: real, y: real)
    ensures Times(n, Times(x, y)) == Times(Times(n, x), y)
  {
  }

  lemma SpreadAlgebra(n: real, m: real, s: real, q: real, spread: real)
    requires Times(n, m) == s && spread == q - 2.0 * Times(m, s) + Times(n, Times(m, m))
    ensures Times(n, spread) == Times(n, q) - Times(s, s)
  {
    TimesThrough(n, m, s);
    TimesThrough(n, m, m);
    TimesThrough(n, s, m);
    assert Times(n, Times(m, m)) == Times(s, m);
    TimesAdds(s, 0.0, m);
    TimesAdds(q - 2.0 * Times(m, s), Times(s, m), n);
    TimesAdds(q, -2.0 * Times(m, s), n);
    assert Times(-2.0 * Times(m, s), n) == -2.0 * Times(n, Times(m, s));
  }

  /** What the row moves from each day to the next. */
  function Steps(row: seq<real>): (r: seq<real>)
    requires row != []
    ensures |r| == |row| - 1
  {
    seq(|row| - 1, i requires 0 <= i < |row| - 1 => row[i + 1] - row[i])
  }

  lemma {:induction false} StepsAdd(row: seq<real>)
    requires row != []
    ensures SquaredSteps(row) == Sum(Squares(Steps(row), 0.0))
  {
    if |row| > 1 {
      var n := |row| - 1;
      StepsAdd(row[..n]);
      assert Squares(Steps(row), 0.0)[..n - 1] == Squares(Steps(row[..n]), 0.0);
    }
  }

  lemma RootSquared(n: real, x: real, sqrt: SquareRoot)
    requires n > 0.0 && x >= 0.0 && ExactRoot(sqrt)
    ensures Times(n, Times(sqrt(x / n), sqrt(x / n))) == x
  {
    QuotientSign(x, n);
    QuotientTimes(x, n);
  }

  /** The WRMSSE scale is the root mean square of the steps: one fewer than there are days. */
  lemma ScaleSquared(row: seq<real>, sqrt: SquareRoot)
    requires |row| >= 2 && ExactRoot(sqrt)
    ensures Times((|row| - 1) as real, Times(Scale(row, sqrt), Scale(row, sqrt))) == Sum(Squares(Steps(row), 0.0))
  {
    StepsAdd(row);
    StepsVanishIffConstant(row);
    RootSquared((|row| - 1) as real, SquaredSteps(row), sqrt);
  }

  /** `n` times the spread around a number that, taken once per day, gives the sum. */
  lemma SpreadAround(xs: seq<real>, m: real)
    requires Times(|xs| as real, m) == Sum(xs)
    ensures Times(|xs| as real, Sum(Squares(xs, m)))
         == Times(|xs| as real, Sum(Squares(xs, 0.0))) - Times(Sum(xs), Sum(xs))
  {
    SumOfSquares(xs, m);
    SpreadAlgebra(|xs| as real, m, Sum(xs), Sum(Squares(xs, 0.0)), Sum(Squares(xs, m)));
  }

  lemma RootOfQuotient(n: real, spread: real, sqrt: SquareRoot)
    requires n > 0.0 && spread >= 0.0 && ExactRoot(sqrt)
    ensures Times(Times(n, n), Times(sqrt(spread / n), sqrt(spread / n))) == Times(n, spread)
  {
    QuotientSign(spread, n);
    QuotientTimes(spread, n);
    TimesThrough(n, n, spread / n);
  }

  /** The textbook formula: `n² σ² = n Σx² − (Σx)²`. */
  lemma StdSquared(xs: seq<real>, sqrt: SquareRoot)
    requires xs != [] && ExactRoot(sqrt)
    ensures var n := |xs| as real;
      Times(Times(n, n), Times(Std(xs, sqrt), Std(xs, sqrt)))
      == Times(n, Sum(Squares(xs, 0.0))) - Times(Sum(xs), Sum(xs))
  {
    SquaresVanishIff(xs, Mean(xs));
    MeanTimes(xs);
    SpreadAround(xs, Mean(xs));
    RootOfQuotient(|xs| as real, Sum(Squares(xs, Mean(xs))), sqrt);
  }
}
