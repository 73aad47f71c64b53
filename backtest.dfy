/**
 * The daily forecast error estimate (`backtest_rmse`). A short history falls
 * back on the spread of day-to-day changes of the targets; otherwise the
 * RMSEs of the time-series cross-validation folds are averaged.
 *
 * Splitting into folds, fitting on each fold and scoring it are library
 * work: the per-fold RMSEs are given. The square root is a parameter.
 */
module Backtest {
  import opened Numeric
  import opened Supervised

  /** The fewest supervised rows for which cross-validation is attempted: max(10, n_splits + 5). */
  function MinRowsForFolds(nSplits: nat): nat {
    if 10 >= nSplits + 5 then 10 else nSplits + 5
  }

  /**
   * np.nan_to_num(np.std(np.diff(y)), nan=0.0): the population standard
   * deviation of the first differences, where fewer than two targets leave
   * no difference and the NaN std becomes 0.
   */
  function DiffStd(y: seq<real>, sqrt: NonNegReal -> NonNegReal): (r: NonNegReal)
    ensures |y| < 2 ==> r == 0.0
  {
    if |y| < 2 then 0.0
    else sqrt(PopVariance(Diffs(y)))
  }

  /** float(np.mean(rmses)) if len(rmses) else 0.0 */
  function FoldMean(rmses: seq<NonNegReal>): (r: NonNegReal)
    ensures |rmses| == 0 ==> r == 0.0
  {
    if |rmses| == 0 then 0.0
    else
      MeanNonNeg(rmses);
      Mean(rmses)
  }

  /** The estimate never exceeds the largest fold RMSE. */
  lemma FoldMeanAtMost(rmses: seq<NonNegReal>, hi: real)
    requires forall i :: 0 <= i < |rmses| ==> rmses[i] <= hi
    requires hi >= 0.0
    ensures FoldMean(rmses) <= hi
  {
    if |rmses| > 0 {
      MeanAtMost(rmses, hi);
    }
  }

  /** Equal fold RMSEs average to that value. */
  lemma FoldMeanConstant(rmses: seq<NonNegReal>, c: real)
    requires |rmses| > 0
    requires forall i :: 0 <= i < |rmses| ==> rmses[i] == c
    ensures FoldMean(rmses) == c
  {
    MeanConstant(rmses, c);
  }

  /** A target series that never moves has no spread: the fallback is sqrt(0). */
  lemma {:induction false} DiffStdOfConstant(y: seq<real>, c: real, sqrt: NonNegReal -> NonNegReal)
    requires |y| >= 2
    requires forall i :: 0 <= i < |y| ==> y[i] == c
    ensures DiffStd(y, sqrt) == sqrt(0.0)
  {
    var d := Diffs(y);
    assert forall i :: 0 <= i < |d| ==> d[i] == 0.0;
    MeanConstant(d, 0.0);
    ZeroDeviations(d);
  }

  lemma {:induction false} ZeroDeviations(d: seq<real>)
    requires forall i :: 0 <= i < |d| ==> d[i] == 0.0
    ensures SumSquaredDev(d, 0.0) == 0.0
  {
    if |d| > 0 {
      ZeroDeviations(d[..|d| - 1]);
    }
  }

  /** Targets 100, 101, 99 change by +1 and -2: the fallback is the square root of 2.25, that is 1.5. */
  lemma DiffStdExample(sqrt: NonNegReal -> NonNegReal)
    requires forall x: NonNegReal :: sqrt(x) * sqrt(x) == x
    ensures DiffStd([100.0, 101.0, 99.0], sqrt) == 1.5
  {
    var y := [100.0, 101.0, 99.0];
    var d := Diffs(y);
    assert d == [1.0, -2.0];
    var d1 := d[..1];
    assert d1 == [1.0] && d1[..0] == [];
    assert Sum(d1) == 1.0;
    assert Sum(d) == Sum(d1) + d[1] == -1.0;
    assert Mean(d) == -0.5;
    assert SumSquaredDev(d1, -0.5) == 2.25;
    assert SumSquaredDev(d, -0.5) == SumSquaredDev(d1, -0.5) + 2.25 == 4.5;
    assert PopVariance(d) == 2.25;
    var s: real := sqrt(2.25);
    assert s * s == 2.25;
    assert (s - 1.5) * (s + 1.5) == 0.0;
    assert s + 1.5 > 0.0;
  }

  /** The value backtest_rmse returns: the fallback on a short history, otherwise the fold mean. */
  function DailyRmse(close: seq<real>, nLags: nat, nSplits: nat, sqrt: NonNegReal -> NonNegReal, foldRmses: seq<NonNegReal>): NonNegReal {
    if RowCount(|close|, nLags) < MinRowsForFolds(nSplits) then DiffStd(Targets(close, nLags), sqrt)
    else FoldMean(foldRmses)
  }

  /**
   * backtest_rmse(close, n_lags, n_splits). `foldRmses` are the RMSEs the
   * cross-validation folds produce, in fold order.
   */
  method BacktestRmse(close: seq<real>, nLags: nat, nSplits: nat, sqrt: NonNegReal -> NonNegReal, foldRmses: seq<NonNegReal>)
    returns (r: NonNegReal)
    ensures r == DailyRmse(close, nLags, nSplits, sqrt, foldRmses)
    ensures RowCount(|close|, nLags) < MinRowsForFolds(nSplits) ==> r == DiffStd(Targets(close, nLags), sqrt)
    ensures RowCount(|close|, nLags) < MinRowsForFolds(nSplits) && |close| < nLags + 2 ==> r == 0.0
    ensures RowCount(|close|, nLags) >= MinRowsForFolds(nSplits) ==> r == FoldMean(foldRmses)
    ensures RowCount(|close|, nLags) >= MinRowsForFolds(nSplits) && |foldRmses| > 0 ==>
      r * (|foldRmses| as real) == Sum(foldRmses)
  {
    var X, y := MakeSupervised(close, nLags);
    if |X| < MinRowsForFolds(nSplits) {
      return DiffStd(y, sqrt);
    }
    // Fitting and scoring a fold is abstracted into foldRmses[fold]; the loop
    // keeps the source's fold-by-fold collection of the RMSEs.
    var rmses: seq<NonNegReal> := [];
    var fold := 0;
    while fold < |foldRmses|
      invariant 0 <= fold <= |foldRmses|
      invariant rmses == foldRmses[..fold]
    {
      rmses := rmses + [foldRmses[fold]];
      fold := fold + 1;
    }
    assert rmses == foldRmses;
    r := FoldMean(rmses);
  }
}
