/**
 * The "ML Stock Recommendations" panel: a forecast is requested for each of
 * eight stocks; a failed request becomes null and is dropped, every other
 * reply becomes a Buy/Sell/Hold recommendation with the predicted return
 * as a signed percentage, and the list is sorted best return first.
 *
 * The replies are given, one per stock in order (`None` for a failed
 * request). Of a reply only the decision's `buy` flag and `pred_return_h`
 * are read; the return is taken to be a finite number.
 */
module Recommendations {
  import opened Wrappers
  import opened Strings
  import opened ArraySort

  /** The stocks the panel analyses, in the order it requests them. */
  const StocksToAnalyze: seq<string> := ["TSLA", "MSFT", "AAPL", "JPM", "NVDA", "BABA", "ADBE", "CAT"]

  /** The forecast horizon and lag count the panel asks for. */
  const RequestHorizon: nat := 5
  const RequestLags: nat := 10

  /** The predicted return a Buy needs to exceed and a Sell to fall below, in size. */
  const ActionThreshold: real := 0.02

  /** The part of a forecast reply the panel reads. */
  datatype ForecastReply = ForecastReply(buy: bool, predReturn: real)

  datatype Action = Buy | Sell | Hold

  /** One row of the panel. */
  datatype Recommendation = Recommendation(symbol: string, change: string, action: Action, predictedReturn: real)

  /** Buy when the model says buy and expects more than +2%; else Sell below -2%; else Hold. */
  function ActionOf(buy: bool, predReturn: real): (a: Action)
    ensures a == Buy <==> buy && predReturn > ActionThreshold
    ensures a == Sell <==> !(buy && predReturn > ActionThreshold) && predReturn < -ActionThreshold
    ensures a == Hold <==> !(buy && predReturn > ActionThreshold) && predReturn >= -ActionThreshold
  {
    if buy && predReturn > ActionThreshold then Buy
    else if predReturn < -ActionThreshold then Sell
    else Hold
  }

  function Abs(x: real): real {
    if x < 0.0 then -x else x
  }

  /**
   * The whole number of tenths nearest to |x|; of two equally near, the
   * larger, as Number.prototype.toFixed picks.
   */
  function RoundedTenths(x: real): (t: nat)
    ensures Abs(x) * 10.0 - 0.5 < t as real <= Abs(x) * 10.0 + 0.5
  {
    var y := Abs(x) * 10.0 + 0.5;
    assert y.Floor as real <= y < y.Floor as real + 1.0;
    y.Floor
  }

  /** x.toFixed(1): a minus sign for a negative x, the whole part, a point and one decimal. */
  function ToFixed1(x: real): string {
    var t := RoundedTenths(x);
    (if x < 0.0 then "-" else "") + NatToString(t / 10) + "." + [DigitChar(t % 10)]
  }

  /** `${pred >= 0 ? '+' : ''}${(pred * 100).toFixed(1)}%`. */
  function ChangeText(predReturn: real): string {
    (if predReturn >= 0.0 then "+" else "") + ToFixed1(predReturn * 100.0) + "%"
  }

  /**
   * The change text carries the sign of the return ("+" exactly when it is
   * not negative), its size in percent to the nearest tenth, and a "%".
   */
  lemma ChangeTextShape(predReturn: real)
    ensures var text := ChangeText(predReturn);
      var t := RoundedTenths(predReturn * 100.0);
      text == (if predReturn >= 0.0 then "+" else "-") + NatToString(t / 10) + "." + [DigitChar(t % 10)] + "%" &&
      Abs(predReturn) * 1000.0 - 0.5 < t as real <= Abs(predReturn) * 1000.0 + 0.5
  {
    var x := predReturn * 100.0;
    assert Abs(x) * 10.0 == Abs(predReturn) * 1000.0;
  }

  /** The change text starts with "+" exactly when the predicted return is not negative, and with "-" otherwise. */
  lemma ChangeTextSign(predReturn: real)
    ensures ChangeText(predReturn)[0] == '+' <==> predReturn >= 0.0
    ensures ChangeText(predReturn)[0] == '-' <==> predReturn < 0.0
  {
    ChangeTextShape(predReturn);
  }

  /** A Buy always shows a "+" change and a Sell a "-" change. */
  lemma ActionMatchesChange(buy: bool, predReturn: real)
    ensures ActionOf(buy, predReturn) == Buy ==> ChangeText(predReturn)[0] == '+'
    ensures ActionOf(buy, predReturn) == Sell ==> ChangeText(predReturn)[0] == '-'
  {
    ChangeTextSign(predReturn);
  }

  /** The recommendation built from one reply. */
  function RecommendationOf(symbol: string, reply: ForecastReply): Recommendation {
    Recommendation(symbol, ChangeText(reply.predReturn), ActionOf(reply.buy, reply.predReturn), reply.predReturn)
  }

  /** The positions of the replies that arrived, in order. */
  function ArrivedIndices(results: seq<Option<ForecastReply>>): (idx: seq<nat>)
    ensures forall k :: 0 <= k < |idx| ==> idx[k] < |results| && results[idx[k]].Some?
    ensures forall k, l :: 0 <= k < l < |idx| ==> idx[k] < idx[l]
    ensures forall i :: 0 <= i < |results| && results[i].Some? ==> i in idx
  {
    if |results| == 0 then []
    else
      var n := |results| - 1;
      ArrivedIndices(results[..n]) + (if results[n].Some? then [n] else [])
  }

  /** How many replies arrived. */
  function ArrivedCount(results: seq<Option<ForecastReply>>): nat {
    if |results| == 0 then 0
    else ArrivedCount(results[..|results| - 1]) + (if results[|results| - 1].Some? then 1 else 0)
  }

  /** There is one arrived position per reply that arrived. */
  lemma {:induction false} ArrivedIndicesCount(results: seq<Option<ForecastReply>>)
    ensures |ArrivedIndices(results)| == ArrivedCount(results)
    ensures ArrivedCount(results) <= |results|
  {
    if |results| > 0 {
      ArrivedIndicesCount(results[..|results| - 1]);
    }
  }

  /** results.map(...).filter(rec => rec !== null): one recommendation per arrived reply, under its own stock's symbol. */
  function BuildRecommendations(results: seq<Option<ForecastReply>>): (recs: seq<Recommendation>)
    requires |results| == |StocksToAnalyze|
    ensures |recs| == |ArrivedIndices(results)|
    ensures forall k :: 0 <= k < |recs| ==>
      var i := ArrivedIndices(results)[k];
      i < |results| && results[i].Some? && recs[k] == RecommendationOf(StocksToAnalyze[i], results[i].value)
  {
    var idx := ArrivedIndices(results);
    seq(|idx|, k requires 0 <= k < |idx| => RecommendationOf(StocksToAnalyze[idx[k]], results[idx[k]].value))
  }

  /** Every arrived reply appears, and a failed one never does: the output has as many rows as replies arrived. */
  lemma BuildRecommendationsComplete(results: seq<Option<ForecastReply>>)
    requires |results| == |StocksToAnalyze|
    ensures |BuildRecommendations(results)| == ArrivedCount(results)
    ensures forall i :: 0 <= i < |results| && results[i].Some? ==>
      RecommendationOf(StocksToAnalyze[i], results[i].value) in BuildRecommendations(results)
  {
    ArrivedIndicesCount(results);
    var idx := ArrivedIndices(results);
    var recs := BuildRecommendations(results);
    forall i | 0 <= i < |results| && results[i].Some?
      ensures RecommendationOf(StocksToAnalyze[i], results[i].value) in recs
    {
      var k :| 0 <= k < |idx| && idx[k] == i;
      assert recs[k] == RecommendationOf(StocksToAnalyze[i], results[i].value);
    }
  }

  /** The comparator `(a, b) => b.predictedReturn - a.predictedReturn`. */
  function ByReturnDescending(x: Recommendation, y: Recommendation): real {
    y.predictedReturn - x.predictedReturn
  }

  lemma ByReturnDescendingOrder(s: seq<Recommendation>)
    ensures Antisymmetric(ByReturnDescending)
    ensures TransitiveOn(s, ByReturnDescending)
  {
  }

  /** The recommendations whose predicted return is v. */
  function SameReturn(v: real): Recommendation -> bool {
    (r: Recommendation) => r.predictedReturn == v
  }

  /**
   * The recommendations the panel shows: those built from the arrived
   * replies, as a permutation, with the best predicted return first and
   * equal returns in the order the replies arrived in.
   */
  method LoadRecommendations(results: seq<Option<ForecastReply>>) returns (recs: seq<Recommendation>)
    requires |results| == |StocksToAnalyze|
    ensures recs == InsertionSorted(BuildRecommendations(results), ByReturnDescending)
    ensures forall v :: Filter(recs, SameReturn(v)) == Filter(BuildRecommendations(results), SameReturn(v))
    ensures multiset(recs) == multiset(BuildRecommendations(results))
    ensures forall i, j :: 0 <= i < j < |recs| ==> recs[i].predictedReturn >= recs[j].predictedReturn
  {
    var built := BuildRecommendations(results);
    var a := new Recommendation[|built|](i requires 0 <= i < |built| => built[i]);
    assert a[..] == built;
    ByReturnDescendingOrder([]);
    SortBy(a, ByReturnDescending);
    recs := a[..];
    forall v
      ensures Filter(recs, SameReturn(v)) == Filter(built, SameReturn(v))
    {
      InsertionSortedStable(built, ByReturnDescending, SameReturn(v));
    }
    ByReturnDescendingOrder(recs);
    AdjacentOrderedSorted(recs, ByReturnDescending);
    assert forall i, j :: 0 <= i < j < |recs| ==> ByReturnDescending(recs[i], recs[j]) <= 0.0;
  }
}
