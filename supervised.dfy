/**
 * Lag features (`make_supervised`): a close series becomes a regression
 * dataset. Row i has target series[i + n] and lag_j (j = 1..n, stored at
 * position j - 1) holding series[i + n - j], so lag_1 is the value immediately
 * before the target.
 */
module Supervised {
  import opened Wrappers

  /** Rows make_supervised yields: N - n when N > n, otherwise none. */
  function RowCount(len: nat, nLags: nat): nat {
    if len > nLags then len - nLags else 0
  }

  /** pandas Series.shift(k): position i holds series[i - k], the first k are NaN. */
  function Shift(series: seq<real>, k: nat): (col: seq<Option<real>>)
    ensures |col| == |series|
    ensures forall i :: 0 <= i < |series| ==> col[i] == if i >= k then Some(series[i - k]) else None
  {
    seq(|series|, i requires 0 <= i < |series| => if i >= k then Some(series[i - k]) else None)
  }

  /** The feature vector of row i: [lag_1, ..., lag_n], most recent first. */
  function LagRow(series: seq<real>, nLags: nat, i: nat): (row: seq<real>)
    requires i + nLags < |series|
    ensures |row| == nLags
  {
    seq(nLags, j requires 0 <= j < nLags => series[i + nLags - 1 - j])
  }

  function LagMatrix(series: seq<real>, nLags: nat): (m: seq<seq<real>>)
    ensures |m| == RowCount(|series|, nLags)
  {
    seq(RowCount(|series|, nLags), i requires 0 <= i < RowCount(|series|, nLags) => LagRow(series, nLags, i))
  }

  function Targets(series: seq<real>, nLags: nat): (y: seq<real>)
    ensures |y| == RowCount(|series|, nLags)
  {
    if |series| > nLags then series[nLags..] else []
  }

  /**
   * make_supervised: one lag column per k = 1..n (Series.shift(k)), then the
   * rows with a NaN in some column are dropped.
   */
  method MakeSupervised(series: seq<real>, nLags: nat) returns (X: seq<seq<real>>, y: seq<real>)
    ensures |X| == |y| == RowCount(|series|, nLags)
    ensures forall i :: 0 <= i < |y| ==> y[i] == series[i + nLags]
    ensures forall i :: 0 <= i < |X| ==> |X[i]| == nLags
    ensures forall i, j :: 0 <= i < |X| && 0 <= j < nLags ==> X[i][j] == series[i + nLags - (j + 1)]
    ensures X == LagMatrix(series, nLags) && y == Targets(series, nLags)
  {
    var lagColumns: seq<seq<Option<real>>> := [];
    var k := 1;
    while k <= nLags
      invariant 1 <= k <= nLags + 1
      invariant |lagColumns| == k - 1
      invariant forall c :: 0 <= c < k - 1 ==> lagColumns[c] == Shift(series, c + 1)
    {
      lagColumns := lagColumns + [Shift(series, k)];
      k := k + 1;
    }
    X, y := [], [];
    var i := 0;
    while i < |series|
      invariant 0 <= i <= |series|
      invariant |X| == |y| == RowCount(i, nLags)
      invariant forall r :: 0 <= r < |y| ==> y[r] == series[r + nLags]
      invariant forall r :: 0 <= r < |X| ==> X[r] == LagRow(series, nLags, r)
    {
      var complete := forall c :: 0 <= c < nLags ==> lagColumns[c][i].Some?;
      assert complete <==> i >= nLags by {
        if i < nLags {
          assert lagColumns[i][i] == None;
        }
      }
      if complete {
        var row := seq(nLags, j requires 0 <= j < nLags => lagColumns[j][i].value);
        assert row == LagRow(series, nLags, |X|);
        X := X + [row];
        y := y + [series[i]];
      }
      i := i + 1;
    }
    assert y == Targets(series, nLags);
    assert X == LagMatrix(series, nLags);
  }
}
