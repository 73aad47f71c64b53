/**
 * The trading decision report (`evaluate_decision`) computed from the last
 * close, the predicted path, the daily RMSE and the horizon: the predicted
 * return, its uncertainty band, the slope and maximum drawdown of the path,
 * a buy vote of three conditions, a clamped position size and the risk
 * bands. Divisions by a zero close give infinities or NaN as numpy does.
 */
module Decision {
  import opened Numeric

  datatype DecisionReport = DecisionReport(
    predReturn: ExtReal,
    uncert: NonNegReal,
    signalToNoise: ExtReal,
    slope: real,
    maxDrawdown: ExtReal,
    buy: bool,
    position: real,
    stopLoss: real,
    takeProfit: real)

  // ---- least-squares slope of the path against 0, 1, ..., n - 1 ----

  /** Sum over i < k of (i - c). */
  function CentredSum(k: nat, c: real): real {
    if k == 0 then 0.0 else CentredSum(k - 1, c) + ((k - 1) as real - c)
  }

  /** Sum over i < k of (i - c)^2. */
  function SquaredSpread(k: nat, c: real): (r: real)
    ensures r >= 0.0
  {
    if k == 0 then 0.0
    else
      var d := (k - 1) as real - c;
      assert d * d >= 0.0;
      SquaredSpread(k - 1, c) + d * d
  }

  /** Sum over i < k of (i - c) * y[i]. */
  function CrossSpread(y: seq<real>, k: nat, c: real): real
    requires k <= |y|
  {
    if k == 0 then 0.0 else CrossSpread(y, k - 1, c) + ((k - 1) as real - c) * y[k - 1]
  }

  /** The centre of 0, 1, ..., n - 1. */
  function IndexMean(n: nat): real {
    ((n as real) - 1.0) / 2.0
  }

  /**
   * np.polyfit(np.arange(n), y, 1)[0] in closed form: the covariance of index
   * and value over the variance of the index. A path of one point has no
   * slope to fit (the index has no spread), so it needs two points.
   */
  function Slope(y: seq<real>): real
    requires |y| >= 2
  {
    SquaredSpreadAtLeastFirst(|y|, IndexMean(|y|));
    CrossSpread(y, |y|, IndexMean(|y|)) / SquaredSpread(|y|, IndexMean(|y|))
  }

  lemma {:induction false} CentredSumClosedForm(k: nat, c: real)
    ensures CentredSum(k, c) == (k as real) * ((k as real) - 1.0) / 2.0 - (k as real) * c
  {
    if k > 0 {
      CentredSumClosedForm(k - 1, c);
    }
  }

  lemma {:induction false} SquaredSpreadAtLeastFirst(k: nat, c: real)
    requires k >= 1
    ensures SquaredSpread(k, c) >= c * c
  {
    if k > 1 {
      SquaredSpreadAtLeastFirst(k - 1, c);
      var d := (k - 1) as real - c;
      assert d * d >= 0.0;
    } else {
      assert SquaredSpread(1, c) == SquaredSpread(0, c) + (0.0 - c) * (0.0 - c);
    }
  }

  /** The closed form of the cross spread of a line a + b*i. */
  ghost predicate CrossSpreadOnLine(y: seq<real>, k: nat, c: real, a: real, b: real)
    requires k <= |y|
  {
    CrossSpread(y, k, c) == a * CentredSum(k, c) + b * (SquaredSpread(k, c) + c * CentredSum(k, c))
  }

  lemma {:induction false} CrossSpreadOfLine(y: seq<real>, k: nat, c: real, a: real, b: real)
    requires k <= |y|
    requires forall i :: 0 <= i < |y| ==> y[i] == a + b * (i as real)
    ensures CrossSpreadOnLine(y, k, c, a, b)
  {
    if k == 0 {
      assert CrossSpread(y, 0, c) == 0.0 && CentredSum(0, c) == 0.0 && SquaredSpread(0, c) == 0.0;
      LineBase(a, b, c);
    } else {
      CrossSpreadOfLine(y, k - 1, c, a, b);
      CrossSpreadStep(y, k, c, a, b);
    }
  }

  /** The closed form of the empty sums. */
  lemma LineBase(a: real, b: real, c: real)
    ensures 0.0 == a * 0.0 + b * (0.0 + c * 0.0)
  {
  }

  /** One step of CrossSpreadOfLine: the next point of the line extends the closed form. */
  lemma CrossSpreadStep(y: seq<real>, k: nat, c: real, a: real, b: real)
    requires 0 < k <= |y|
    requires y[k - 1] == a + b * ((k - 1) as real)
    requires CrossSpreadOnLine(y, k - 1, c, a, b)
    ensures CrossSpreadOnLine(y, k, c, a, b)
  {
    LineStep(a, b, c, (k - 1) as real, CrossSpread(y, k - 1, c), CentredSum(k - 1, c), SquaredSpread(k - 1, c));
  }

  /** The algebra of one step: adding the point i of the line a + b*i keeps the closed form. */
  lemma LineStep(a: real, b: real, c: real, i: real, cross: real, centred: real, squared: real)
    requires cross == a * centred + b * (squared + c * centred)
    ensures cross + (i - c) * (a + b * i) ==
      a * (centred + (i - c)) + b * ((squared + (i - c) * (i - c)) + c * (centred + (i - c)))
  {
  }

  /** A straight-line path a + b*i has slope b (so a flat path has slope 0). */
  lemma SlopeOfLine(y: seq<real>, a: real, b: real)
    requires |y| >= 2
    requires forall i :: 0 <= i < |y| ==> y[i] == a + b * (i as real)
    ensures Slope(y) == b
  {
    var n := |y|;
    var c := IndexMean(n);
    CentredSumClosedForm(n, c);
    assert CentredSum(n, c) == 0.0;
    CrossSpreadOfLine(y, n, c, a, b);
    SquaredSpreadAtLeastFirst(n, c);
    assert c >= 0.5;
    assert SquaredSpread(n, c) > 0.0;
  }

  // ---- drawdown from the running maximum ----

  /** s.cummax() at position i. */
  function RunMax(path: seq<real>, i: nat): (m: real)
    requires i < |path|
    ensures forall j :: 0 <= j <= i ==> path[j] <= m
    ensures exists j :: 0 <= j <= i && path[j] == m
  {
    if i == 0 then path[0] else Max(RunMax(path, i - 1), path[i])
  }

  /** (cummax - s) / cummax at position i; a zero running maximum gives NaN or +inf. */
  function Drawdown(path: seq<real>, i: nat): ExtReal
    requires i < |path|
  {
    Div(RunMax(path, i) - path[i], RunMax(path, i))
  }

  /** The larger of two floats, ignoring NaN as Series.max does. */
  function MaxSkipNaN(a: ExtReal, b: ExtReal): (r: ExtReal)
    ensures r.NotANumber? <==> a.NotANumber? && b.NotANumber?
    ensures !a.NotANumber? && !b.NotANumber? ==> (r == a || r == b)
  {
    match (a, b)
    case (NotANumber, _) => b
    case (_, NotANumber) => a
    case (PosInfinity, _) => PosInfinity
    case (_, PosInfinity) => PosInfinity
    case (NegInfinity, _) => b
    case (_, NegInfinity) => a
    case (Finite(x), Finite(y)) => Finite(Max(x, y))
  }

  /** dd.max() over the first k drawdowns; NaN when all of them are NaN (or k = 0). */
  function MaxDrawdownUpTo(path: seq<real>, k: nat): ExtReal
    requires k <= |path|
  {
    if k == 0 then NotANumber else MaxSkipNaN(MaxDrawdownUpTo(path, k - 1), Drawdown(path, k - 1))
  }

  /** float(dd.max()) if len(s) else 0.0 */
  function MaxDrawdown(path: seq<real>): ExtReal {
    if |path| == 0 then Finite(0.0) else MaxDrawdownUpTo(path, |path|)
  }

  lemma {:induction false} MaxDrawdownUpToPositive(path: seq<real>, k: nat)
    requires 1 <= k <= |path|
    requires forall i :: 0 <= i < |path| ==> path[i] > 0.0
    ensures MaxDrawdownUpTo(path, k).Finite?
    ensures 0.0 <= MaxDrawdownUpTo(path, k).v < 1.0
  {
    var m := RunMax(path, k - 1);
    assert m >= path[k - 1] > 0.0;
    assert Drawdown(path, k - 1) == Finite((m - path[k - 1]) / m);
    RatioInUnitInterval(m - path[k - 1], m);
    if k > 1 {
      MaxDrawdownUpToPositive(path, k - 1);
    }
  }

  lemma RatioInUnitInterval(a: real, b: real)
    requires b > 0.0 && 0.0 <= a < b
    ensures 0.0 <= a / b < 1.0
  {
    var gap := (b - a) / b;
    assert gap * b == b - a;
    assert gap > 0.0;
    assert a / b + gap == 1.0;
  }

  /** On a path of positive prices the drawdown is a real number in [0, 1). */
  lemma MaxDrawdownOfPositivePath(path: seq<real>)
    requires forall i :: 0 <= i < |path| ==> path[i] > 0.0
    ensures MaxDrawdown(path).Finite?
    ensures 0.0 <= MaxDrawdown(path).v < 1.0
  {
    if |path| > 0 {
      MaxDrawdownUpToPositive(path, |path|);
    }
  }

  lemma {:induction false} MaxDrawdownUpToRising(path: seq<real>, k: nat)
    requires 1 <= k <= |path|
    requires forall i :: 0 <= i < |path| ==> path[i] > 0.0
    requires forall i, j :: 0 <= i <= j < |path| ==> path[i] <= path[j]
    ensures MaxDrawdownUpTo(path, k) == Finite(0.0)
  {
    assert RunMax(path, k - 1) == path[k - 1];
    if k > 1 {
      MaxDrawdownUpToRising(path, k - 1);
    }
  }

  /** A positive path that never falls has no drawdown. */
  lemma MaxDrawdownOfRisingPath(path: seq<real>)
    requires forall i :: 0 <= i < |path| ==> path[i] > 0.0
    requires forall i, j :: 0 <= i <= j < |path| ==> path[i] <= path[j]
    ensures MaxDrawdown(path) == Finite(0.0)
  {
    if |path| > 0 {
      MaxDrawdownUpToRising(path, |path|);
    }
  }

  // ---- the report ----

  /** R_h = y_pred[-1] / last_close - 1. */
  function PredictedReturn(lastClose: real, path: seq<real>): (r: ExtReal)
    requires |path| > 0
    ensures r.Finite? <==> lastClose != 0.0
    ensures r.Finite? ==> (r.v + 1.0) * lastClose == path[|path| - 1]
    ensures r == PosInfinity <==> lastClose == 0.0 && path[|path| - 1] > 0.0
  {
    SubReal(Div(path[|path| - 1], lastClose), 1.0)
  }

  /** sqrt(horizon) * rmse_day / last_close when the close is positive, otherwise 0. */
  function Uncertainty(lastClose: real, rmseDay: NonNegReal, sqrtHorizon: NonNegReal): (u: NonNegReal)
    ensures lastClose <= 0.0 ==> u == 0.0
    ensures lastClose > 0.0 ==> u * lastClose == sqrtHorizon * rmseDay
  {
    if lastClose > 0.0 then sqrtHorizon * rmseDay / lastClose else 0.0
  }

  /** Python's min(1.0, max(0.0, x)). */
  function Clamp01(x: real): (r: real)
    ensures 0.0 <= r <= 1.0
    ensures 0.0 <= x <= 1.0 ==> r == x
    ensures x <= 0.0 ==> r == 0.0
    ensures x >= 1.0 ==> r == 1.0
  {
    Min(1.0, Max(0.0, x))
  }

  /** Condition 1: the predicted return exceeds twice the uncertainty. */
  predicate BeatsNoise(predReturn: ExtReal, uncert: real) {
    Greater(predReturn, 2.0 * uncert)
  }

  /** Condition 2: the path rises and the predicted return exceeds 3%. */
  predicate RisingAndLarge(slope: real, predReturn: ExtReal) {
    slope > 0.0 && Greater(predReturn, 0.03)
  }

  /** Condition 3: the predicted drawdown stays under 2.5% (NaN fails). */
  predicate ShallowDrawdown(maxDrawdown: ExtReal) {
    Less(maxDrawdown, 0.025)
  }

  /** sum([cond1, cond2, cond3]) >= 2: a buy needs some two of the three conditions. */
  function BuyVote(c1: bool, c2: bool, c3: bool): (buy: bool)
    ensures buy <==> (c1 && c2) || (c1 && c3) || (c2 && c3)
  {
    (if c1 then 1 else 0) + (if c2 then 1 else 0) + (if c3 then 1 else 0) >= 2
  }

  /**
   * min(1.0, max(0.0, R_h / (3 * uncert))) if (buy and uncert > 0) else 0.0,
   * with +inf clamped to 1 and -inf or NaN to 0.
   */
  function Position(buy: bool, predReturn: ExtReal, uncert: real): (p: real)
    ensures 0.0 <= p <= 1.0
    ensures p != 0.0 ==> buy && uncert > 0.0
    ensures buy && uncert > 0.0 && predReturn.Finite? && 0.0 <= predReturn.v <= 3.0 * uncert ==>
      p * 3.0 * uncert == predReturn.v
    ensures buy && uncert > 0.0 && predReturn.Finite? && predReturn.v >= 3.0 * uncert ==> p == 1.0
  {
    if buy && uncert > 0.0 then
      match predReturn
      case Finite(v) => Clamp01(v / (3.0 * uncert))
      case PosInfinity => 1.0
      case _ => 0.0
    else 0.0
  }

  /** (R_h / uncert) if uncert > 0 else float("inf"). */
  function SignalToNoise(predReturn: ExtReal, uncert: real): (r: ExtReal)
    ensures !(uncert > 0.0) ==> r == PosInfinity
    ensures uncert > 0.0 ==> (r.Finite? <==> predReturn.Finite?)
    ensures uncert > 0.0 && predReturn.Finite? ==> r.v * uncert == predReturn.v
    ensures uncert > 0.0 && !predReturn.Finite? ==> r == predReturn
  {
    if uncert > 0.0 then
      match predReturn
      case Finite(v) => Finite(v / uncert)
      case _ => predReturn
    else PosInfinity
  }

  /**
   * evaluate_decision(last_close, y_pred, rmse_day, horizon); y_pred[-1] needs a
   * non-empty path and np.polyfit of degree 1 needs two points.
   */
  function EvaluateDecision(lastClose: real, path: seq<real>, rmseDay: NonNegReal, horizon: nat,
                            sqrt: NonNegReal -> NonNegReal): (r: DecisionReport)
    requires |path| >= 2
    ensures r.predReturn == PredictedReturn(lastClose, path)
    ensures r.uncert == Uncertainty(lastClose, rmseDay, sqrt(horizon as real))
    ensures r.slope == Slope(path) && r.maxDrawdown == MaxDrawdown(path)
    ensures r.buy <==>
      var c1 := BeatsNoise(r.predReturn, r.uncert);
      var c2 := RisingAndLarge(r.slope, r.predReturn);
      var c3 := ShallowDrawdown(r.maxDrawdown);
      (c1 && c2) || (c1 && c3) || (c2 && c3)
    ensures 0.0 <= r.position <= 1.0
    ensures r.position != 0.0 ==> r.buy && r.uncert > 0.0
    ensures r.stopLoss + r.uncert == 0.0 && r.takeProfit == -2.0 * r.stopLoss
    ensures r.signalToNoise == PosInfinity <==> !(r.uncert > 0.0)
    ensures r.uncert > 0.0 ==> r.signalToNoise.Finite? && r.signalToNoise.v * r.uncert == r.predReturn.v
  {
    var rh := PredictedReturn(lastClose, path);
    var uncert := Uncertainty(lastClose, rmseDay, sqrt(horizon as real));
    var slope := Slope(path);
    var maxDd := MaxDrawdown(path);
    var buy := BuyVote(BeatsNoise(rh, uncert), RisingAndLarge(slope, rh), ShallowDrawdown(maxDd));
    var band: real := uncert;
    DecisionReport(rh, uncert, SignalToNoise(rh, uncert), slope, maxDd, buy, Position(buy, rh, uncert), -band, 2.0 * band)
  }
}
