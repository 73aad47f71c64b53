/**
 * Recursive multi-step forecasting (`forecast_recursive`): the fitted model
 * is applied to a window of the buffer, its prediction is appended to the
 * buffer and becomes an input of the next step.
 *
 * The fitted pipeline is a parameter `model` from a feature vector to a
 * prediction; the model sees the window exactly as the source builds it.
 */
module Forecaster {
  import opened Numeric

  /** s[::-1]. */
  function Reverse(s: seq<real>): (r: seq<real>)
    ensures |r| == |s|
    ensures forall i :: 0 <= i < |s| ==> r[i] == s[|s| - 1 - i]
  {
    seq(|s|, i requires 0 <= i < |s| => s[|s| - 1 - i])
  }

  /**
   * buf[-k:][::-1], the model input of one step. In Python `buf[-0:]` is the
   * whole buffer, and a k longer than the buffer also takes all of it.
   * Position 0 is always the newest value of the buffer.
   */
  function Window(buf: seq<real>, k: nat): (x: seq<real>)
    ensures |x| == if 0 < k <= |buf| then k else |buf|
    ensures forall i :: 0 <= i < |x| ==> x[i] == buf[|buf| - 1 - i]
  {
    if k == 0 || k > |buf| then Reverse(buf) else Reverse(buf[|buf| - k..])
  }

  /** The first n predictions of the recursion started from `seed`. */
  function Predictions(seed: seq<real>, model: seq<real> -> real, n: nat): (preds: seq<real>)
    ensures |preds| == n
  {
    if n == 0 then []
    else
      var earlier := Predictions(seed, model, n - 1);
      earlier + [model(Window(seed + earlier, |seed|))]
  }

  /** Running the recursion longer never changes the earlier predictions. */
  lemma {:induction false} PredictionsPrefix(seed: seq<real>, model: seq<real> -> real, m: nat, n: nat)
    requires m <= n
    ensures Predictions(seed, model, n)[..m] == Predictions(seed, model, m)
    decreases n
  {
    if m < n {
      PredictionsPrefix(seed, model, m, n - 1);
      var earlier := Predictions(seed, model, n - 1);
      assert Predictions(seed, model, n)[..m] == earlier[..m];
    }
  }

  /**
   * Every prediction is the model applied to the newest |seed| values of the
   * seed followed by the predictions made before it.
   */
  lemma PredictionStep(seed: seq<real>, model: seq<real> -> real, n: nat, t: nat)
    requires t < n
    ensures Predictions(seed, model, n)[t] == model(Window(seed + Predictions(seed, model, n)[..t], |seed|))
  {
    PredictionsPrefix(seed, model, t + 1, n);
    PredictionsPrefix(seed, model, t, n);
    assert Predictions(seed, model, n)[t] == Predictions(seed, model, t + 1)[t];
  }

  /**
   * forecast_recursive(last_values, model, n_steps). The buffer starts as the
   * seed and grows by one prediction per step.
   */
  method ForecastRecursive(lastValues: seq<real>, model: seq<real> -> real, nSteps: nat) returns (preds: seq<real>)
    ensures |preds| == nSteps
    ensures preds == Predictions(lastValues, model, nSteps)
  {
    preds := [];
    var buf := lastValues;
    var step := 0;
    while step < nSteps
      invariant 0 <= step <= nSteps
      invariant preds == Predictions(lastValues, model, step)
      invariant buf == lastValues + preds
    {
      var x := Window(buf, |lastValues|);
      var yhat := model(x);
      preds := preds + [yhat];
      buf := buf + [yhat];
      step := step + 1;
    }
  }

  /** The first model input is the seed read back to front. */
  lemma FirstWindowReversesSeed(seed: seq<real>, model: seq<real> -> real, n: nat)
    requires n > 0
    ensures Window(seed + Predictions(seed, model, n)[..0], |seed|) == Reverse(seed)
  {
    assert seed + Predictions(seed, model, n)[..0] == seed;
  }

  /** A model that predicts the mean of its input, started on a constant seed, stays on that constant. */
  lemma {:induction false} MeanModelKeepsConstant(seed: seq<real>, model: seq<real> -> real, c: real, n: nat)
    requires |seed| > 0
    requires forall i :: 0 <= i < |seed| ==> seed[i] == c
    requires forall x: seq<real> :: |x| > 0 ==> model(x) == Mean(x)
    ensures forall t :: 0 <= t < n ==> Predictions(seed, model, n)[t] == c
  {
    if n > 0 {
      MeanModelKeepsConstant(seed, model, c, n - 1);
      var earlier := Predictions(seed, model, n - 1);
      var buf := seed + earlier;
      assert forall i :: 0 <= i < |buf| ==> buf[i] == c;
      var x := Window(buf, |seed|);
      MeanConstant(x, c);
    }
  }
}
