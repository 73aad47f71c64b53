/**
 * Numbers shared by the forecast engine: non-negative reals (what a square
 * root returns), extended reals for the values numpy turns into infinity or
 * NaN after a division by zero, and the sums, means and variances the engine
 * takes of sequences of reals.
 */
module Numeric {

  type NonNegReal = x: real | x >= 0.0

  /** A float result: a real number, an infinity or NaN. */
  datatype ExtReal = Finite(v: real) | PosInfinity | NegInfinity | NotANumber

  /** Division as numpy does it on floats: a zero divisor gives an infinity or NaN instead of an error. */
  function Div(a: real, b: real): (r: ExtReal)
    ensures b != 0.0 <==> r.Finite?
    ensures r.Finite? ==> r.v * b == a
    ensures r == PosInfinity <==> b == 0.0 && a > 0.0
    ensures r == NegInfinity <==> b == 0.0 && a < 0.0
  {
    if b != 0.0 then Finite(a / b)
    else if a > 0.0 then PosInfinity
    else if a < 0.0 then NegInfinity
    else NotANumber
  }

  /** x - c on a float; infinities and NaN absorb the subtraction. */
  function SubReal(x: ExtReal, c: real): (r: ExtReal)
    ensures r.Finite? <==> x.Finite?
    ensures r.Finite? ==> r.v + c == x.v
  {
    match x
    case Finite(v) => Finite(v - c)
    case _ => x
  }

  /** x > c on a float: NaN compares false, +inf greater than every real. */
  predicate Greater(x: ExtReal, c: real) {
    match x
    case Finite(v) => v > c
    case PosInfinity => true
    case _ => false
  }

  /** x < c on a float: NaN compares false, -inf smaller than every real. */
  predicate Less(x: ExtReal, c: real) {
    match x
    case Finite(v) => v < c
    case NegInfinity => true
    case _ => false
  }

  function Max(a: real, b: real): real { if a >= b then a else b }

  function Min(a: real, b: real): real { if a <= b then a else b }

  function Sum(s: seq<real>): real
  {
    if |s| == 0 then 0.0 else Sum(s[..|s| - 1]) + s[|s| - 1]
  }

  /** np.mean; only ever taken of non-empty sequences here. */
  function Mean(s: seq<real>): real
    requires |s| > 0
  {
    Sum(s) / (|s| as real)
  }

  /** np.diff: consecutive differences. */
  function Diffs(s: seq<real>): (d: seq<real>)
    ensures |d| == if |s| == 0 then 0 else |s| - 1
    ensures forall i :: 0 <= i < |d| ==> d[i] == s[i + 1] - s[i]
  {
    if |s| <= 1 then [] else seq(|s| - 1, i requires 0 <= i < |s| - 1 => s[i + 1] - s[i])
  }

  /** Sum of squared deviations from a given centre. */
  function SumSquaredDev(s: seq<real>, centre: real): (r: real)
    ensures r >= 0.0
  {
    if |s| == 0 then 0.0
    else
      var d := s[|s| - 1] - centre;
      assert d * d >= 0.0;
      SumSquaredDev(s[..|s| - 1], centre) + d * d
  }

  /** Population variance (np.var, np.std's square, with ddof = 0). */
  function PopVariance(s: seq<real>): (r: real)
    requires |s| > 0
    ensures r >= 0.0
  {
    SumSquaredDev(s, Mean(s)) / (|s| as real)
  }

  lemma {:induction false} SumNonNeg(s: seq<real>)
    requires forall i :: 0 <= i < |s| ==> s[i] >= 0.0
    ensures Sum(s) >= 0.0
  {
    if |s| > 0 {
      SumNonNeg(s[..|s| - 1]);
    }
  }

  lemma {:induction false} SumConstant(s: seq<real>, c: real)
    requires forall i :: 0 <= i < |s| ==> s[i] == c
    ensures Sum(s) == c * (|s| as real)
  {
    if |s| > 0 {
      SumConstant(s[..|s| - 1], c);
    }
  }

  lemma {:induction false} SumBounded(s: seq<real>, hi: real)
    requires forall i :: 0 <= i < |s| ==> s[i] <= hi
    ensures Sum(s) <= hi * (|s| as real)
  {
    if |s| > 0 {
      SumBounded(s[..|s| - 1], hi);
    }
  }

  /** Values all below `hi` sum to less than `hi` times their number. */
  lemma {:induction false} SumBelow(s: seq<real>, hi: real)
    requires |s| > 0
    requires forall i :: 0 <= i < |s| ==> s[i] < hi
    ensures Sum(s) < hi * (|s| as real)
  {
    if |s| > 1 {
      SumBelow(s[..|s| - 1], hi);
    } else {
      assert Sum(s[..0]) == 0.0;
    }
  }

  /** The mean of non-negative values is non-negative (and so is an RMSE average). */
  lemma MeanNonNeg(s: seq<real>)
    requires |s| > 0
    requires forall i :: 0 <= i < |s| ==> s[i] >= 0.0
    ensures Mean(s) >= 0.0
  {
    SumNonNeg(s);
  }

  /** The mean never exceeds an upper bound of the values. */
  lemma MeanAtMost(s: seq<real>, hi: real)
    requires |s| > 0
    requires forall i :: 0 <= i < |s| ==> s[i] <= hi
    ensures Mean(s) <= hi
  {
    SumBounded(s, hi);
  }

  /** The mean of a constant sequence is that constant. */
  lemma MeanConstant(s: seq<real>, c: real)
    requires |s| > 0
    requires forall i :: 0 <= i < |s| ==> s[i] == c
    ensures Mean(s) == c
  {
    SumConstant(s, c);
  }

}
