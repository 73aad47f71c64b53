/**
 * The stock-data endpoint of the Flask server (`get_stock_data`): the price
 * change against the previous close and the trend. The trend comes from the
 * forecast's decision report when the forecast succeeds (it is asked for 10
 * lags, a 5-day horizon and the last 5000 rows) and otherwise from the last
 * close against the mean of the recent closes.
 *
 * The market data (the recent closes, the quote's previous close) and the
 * outcome of the forecast are parameters.
 */
module StockQuote {
  import opened Wrappers
  import opened Numeric
  import opened Scoring
  import opened Decision
  import opened Pipeline
  import opened Http

  /** A predicted return above this, with a buy vote, is a bullish trend. */
  const BullishReturn: real := 0.0
  /** A predicted return below this is a bearish trend. */
  const BearishReturn: real := -0.02

  /** The JSON body of a successful reply (rounding to two places is not modelled). */
  datatype Quote = Quote(
    ticker: string, currentPrice: real, previousClose: real, priceChange: real,
    priceChangePercent: ExtReal, trend: string,
    predictedPrice: Option<real>, predictedChange: Option<real>,
    predictedChangePercent: Option<ExtReal>, signalStrength: Option<ExtReal>)

  const NoStockData := HttpError(404, "Unable to fetch stock data")
  /** hist['Close'].iloc[-2] of a one-row history raises before the quote's previous close is consulted. */
  const NoPreviousRow := HttpError(500, "single positional indexer is out-of-bounds")

  /** Bullish on a buy vote with a positive predicted return, otherwise bearish below -2%, otherwise neutral. */
  function ForecastTrend(d: DecisionReport): (t: Polarity)
    ensures t == Bullish <==> d.buy && Greater(d.predReturn, BullishReturn)
    ensures t == Bearish <==> !(d.buy && Greater(d.predReturn, BullishReturn)) && Less(d.predReturn, BearishReturn)
  {
    if d.buy && Greater(d.predReturn, BullishReturn) then Bullish
    else if Less(d.predReturn, BearishReturn) then Bearish
    else Neutral
  }

  /**
   * For the decision report of a positive last close, a bullish trend means
   * the forecast ends above the last close and a buy vote was cast, and a
   * bearish trend means it ends more than 2% below the last close.
   */
  lemma ForecastTrendFollowsPath(lastClose: real, path: seq<real>, rmseDay: NonNegReal, horizon: nat,
                                 sqrt: NonNegReal -> NonNegReal)
    requires |path| >= 2 && lastClose > 0.0
    ensures var d := EvaluateDecision(lastClose, path, rmseDay, horizon, sqrt);
      (ForecastTrend(d) == Bullish ==> d.buy && path[|path| - 1] > lastClose) &&
      (ForecastTrend(d) == Bearish ==> path[|path| - 1] < 0.98 * lastClose)
  {
    var d := EvaluateDecision(lastClose, path, rmseDay, horizon, sqrt);
    TrendOfReturn(d, lastClose, path[|path| - 1]);
  }

  /** The trend of a report whose return carries a positive last close to `last`. */
  lemma TrendOfReturn(d: DecisionReport, lastClose: real, last: real)
    requires lastClose > 0.0 && d.predReturn.Finite? && (d.predReturn.v + 1.0) * lastClose == last
    ensures ForecastTrend(d) == Bullish ==> d.buy && last > lastClose
    ensures ForecastTrend(d) == Bearish ==> last < 0.98 * lastClose
  {
    ReturnSign(d.predReturn.v, lastClose, last);
  }

  /** A return v carries a positive base c to p = (v + 1) * c: a positive return raises it, one below -2% takes it under 98%. */
  lemma ReturnSign(v: real, c: real, p: real)
    requires c > 0.0 && (v + 1.0) * c == p
    ensures v > 0.0 ==> p > c
    ensures v < -0.02 ==> p < 0.98 * c
  {
    assert p == v * c + c;
    if v > 0.0 {
      assert v * c > 0.0;
    }
    if v < -0.02 {
      assert v * c < -0.02 * c;
    }
  }

  /** The fallback: bullish when the current close is above the mean of the recent closes, otherwise bearish. */
  function FallbackTrend(closes: seq<real>): (t: Polarity)
    requires |closes| > 0
    ensures t != Neutral
    ensures t == Bullish <==> closes[|closes| - 1] > Mean(closes)
  {
    if closes[|closes| - 1] > Mean(closes) then Bullish else Bearish
  }

  /** Flat closes are not above their mean: the fallback reads them as bearish. */
  lemma FallbackTrendFlat(closes: seq<real>, c: real)
    requires |closes| > 0
    requires forall i :: 0 <= i < |closes| ==> closes[i] == c
    ensures FallbackTrend(closes) == Bearish
  {
    MeanConstant(closes, c);
  }

  /** A current close above every earlier one is above the mean: the fallback reads it as bullish. */
  lemma FallbackTrendNewHigh(closes: seq<real>)
    requires |closes| >= 2
    requires forall i :: 0 <= i < |closes| - 1 ==> closes[i] < closes[|closes| - 1]
    ensures FallbackTrend(closes) == Bullish
  {
    var n := |closes|;
    var last := closes[n - 1];
    var prefix := closes[..n - 1];
    SumBelow(prefix, last);
    assert Sum(closes) < last * (n as real);
    var m := Mean(closes);
    assert m * (n as real) == Sum(closes);
    assert m >= last ==> m * (n as real) >= last * (n as real);
  }

  /** info.get('previousClose', hist['Close'].iloc[-2]); the default is evaluated first and fails on one row. */
  function PreviousClose(infoPrevious: Option<real>, closes: seq<real>): (p: Option<real>)
    ensures p.None? <==> |closes| < 2
    ensures p.Some? && infoPrevious.Some? ==> p.value == infoPrevious.value
    ensures p.Some? && infoPrevious.None? ==> p.value == closes[|closes| - 2]
  {
    if |closes| < 2 then None else Some(infoPrevious.GetOr(closes[|closes| - 2]))
  }

  /** x * 100 on a float: infinities and NaN stay as they are. */
  function Times100(x: ExtReal): (r: ExtReal)
    ensures r.Finite? <==> x.Finite?
    ensures r.Finite? ==> r.v == 100.0 * x.v
  {
    if x.Finite? then Finite(100.0 * x.v) else x
  }

  /** (change / base) * 100, with numpy's division by a zero base. */
  function PercentOf(change: real, base: real): (p: ExtReal)
    ensures p.Finite? <==> base != 0.0
    ensures p.Finite? ==> p.v * base == 100.0 * change
    ensures base == 0.0 ==> (p == PosInfinity <==> change > 0.0) && (p == NegInfinity <==> change < 0.0)
  {
    Times100(Div(change, base))
  }

  /**
   * get_stock_data. `closes` are the closes of the recent history (the last
   * is the current price), `infoPrevious` the quote's previous close if it
   * has one, and `forecast` the outcome of run_forecast.
   */
  function GetStockData(tickerParam: Option<string>, infoPrevious: Option<real>, closes: seq<real>,
                        forecast: Result<ForecastOutput, ForecastError>): (r: Result<Quote, HttpError>)
    ensures TickerParam(tickerParam) == "" <==> r == Failure(MissingTicker)
    ensures TickerParam(tickerParam) != "" && |closes| == 0 <==> r == Failure(NoStockData)
    ensures TickerParam(tickerParam) != "" && |closes| == 1 <==> r == Failure(NoPreviousRow)
    ensures r.Success? ==> |closes| >= 2 && r.value.ticker == TickerParam(tickerParam)
    ensures r.Success? ==> r.value.currentPrice == closes[|closes| - 1]
    ensures r.Success? ==> PreviousClose(infoPrevious, closes) == Some(r.value.previousClose)
    ensures r.Success? ==> r.value.priceChange + r.value.previousClose == r.value.currentPrice
    ensures r.Success? ==> r.value.priceChangePercent == PercentOf(r.value.priceChange, r.value.previousClose)
    ensures r.Success? && forecast.Success? ==>
      r.value.trend == PolarityName(ForecastTrend(forecast.value.decision)) &&
      r.value.predictedPrice == Some(forecast.value.predLast) &&
      r.value.predictedChange == Some(forecast.value.predLast - r.value.currentPrice) &&
      r.value.predictedChangePercent == Some(PercentOf(forecast.value.predLast - r.value.currentPrice, r.value.currentPrice)) &&
      r.value.signalStrength == Some(forecast.value.decision.signalToNoise)
    ensures r.Success? && forecast.Failure? ==>
      r.value.trend == PolarityName(FallbackTrend(closes)) && r.value.trend != "neutral" &&
      r.value.predictedPrice.None? && r.value.predictedChange.None? &&
      r.value.predictedChangePercent.None? && r.value.signalStrength.None?
  {
    var ticker := TickerParam(tickerParam);
    if ticker == "" then Failure(MissingTicker)
    else if |closes| == 0 then Failure(NoStockData)
    else if |closes| == 1 then Failure(NoPreviousRow)
    else
      var current := closes[|closes| - 1];
      var previous := PreviousClose(infoPrevious, closes).value;
      var change := current - previous;
      var percent := PercentOf(change, previous);
      match forecast
      case Success(out) =>
        var predicted := out.predLast;
        Success(Quote(ticker, current, previous, change, percent, PolarityName(ForecastTrend(out.decision)),
                      Some(predicted), Some(predicted - current), Some(PercentOf(predicted - current, current)),
                      Some(out.decision.signalToNoise)))
      case Failure(_) =>
        Success(Quote(ticker, current, previous, change, percent, PolarityName(FallbackTrend(closes)),
                      None, None, None, None))
  }
}
