/**
 * The forecast pipeline (`run_forecast`, and the same steps inlined in the
 * command-line `main`): load the panel, refuse an unknown ticker with a
 * sample of known ones, keep the ticker's last `perRows` rows, convert their
 * closes to floats, refuse a history of at most lags + 5 closes, refuse lag
 * features with no column, fit on the lag features, forecast
 * `horizon` steps from the last `lags` closes, date the predictions with the
 * following business days and attach the decision report.
 *
 * Reading the file, the date parser, float() on text, the regressor fit,
 * the fold RMSEs of the backtest and the square root are parameters.
 */
module Pipeline {
  import opened Wrappers
  import opened Numeric
  import opened Panel
  import opened Supervised
  import opened Forecaster
  import opened Backtest
  import opened Decision
  import opened Calendar

  datatype ForecastError =
    | Schema(columns: seq<string>)
    | TickerNotFound(ticker: string, sample: seq<Cell>)
    /** astype(float) on a close cell that is not a float (ValueError or TypeError). */
    | CloseNotFloat(cell: Cell)
    | InsufficientHistory
    /** StandardScaler refuses lag features with no column (lags <= 0). */
    | NoFeatures
    /** y_pred[-1] of an empty forecast (horizon 0) raises IndexError. */
    | NoPrediction
    /** np.polyfit of degree 1 on a forecast of one point (horizon 1) cannot fit a slope. */
    | SinglePointFit

  datatype ForecastRow = ForecastRow(date: int, ticker: string, predClose: real)

  datatype ForecastOutput = ForecastOutput(
    ticker: string,
    lastClose: real,
    predLast: real,
    horizon: nat,
    lags: nat,
    forecast: seq<ForecastRow>,
    decision: DecisionReport)

  /** How many sample tickers an unknown-ticker error lists. */
  const SampleSize: nat := 20

  /** n_splits of the backtest run_forecast performs. */
  const BacktestSplits: nat := 5

  /** The prepared panel LoadAndPrepare returns for a table with the required columns. */
  function PreparedPanel(frame: Frame, toDate: Cell -> Option<int>): seq<Record>
    requires WellFormed(frame) && HasRequired(NormalizeColumns(frame.columns))
  {
    SortByKey(KeptRecords(frame.rows, NormalizeColumns(frame.columns), toDate))
  }

  function TickerColumn(panel: seq<Record>): (ts: seq<Cell>)
    ensures |ts| == |panel| && forall i :: 0 <= i < |panel| ==> ts[i] == panel[i].ticker
  {
    seq(|panel|, i requires 0 <= i < |panel| => panel[i].ticker)
  }

  /** drop_duplicates(): every value once, at its first occurrence. */
  function Distinct(s: seq<Cell>): (d: seq<Cell>)
    ensures forall x :: x in d <==> x in s
    ensures forall i, j :: 0 <= i < j < |d| ==> d[i] != d[j]
  {
    if |s| == 0 then []
    else
      var front := Distinct(s[..|s| - 1]);
      if s[|s| - 1] in front then front else front + [s[|s| - 1]]
  }

  /** df["ticker"].drop_duplicates().head(20). */
  function TickerSample(panel: seq<Record>): (sample: seq<Cell>)
    ensures |sample| <= SampleSize
    ensures forall i, j :: 0 <= i < j < |sample| ==> sample[i] != sample[j]
    ensures forall x :: x in sample ==> x in TickerColumn(panel)
    ensures |Distinct(TickerColumn(panel))| <= SampleSize ==> forall x :: x in TickerColumn(panel) ==> x in sample
  {
    var d := Distinct(TickerColumn(panel));
    if |d| <= SampleSize then d else d[..SampleSize]
  }

  /**
   * df[df["ticker"] == ticker]: the ticker's rows, in panel order. The
   * requested ticker is a string, so only a text cell equal to it matches.
   */
  function RowsFor(panel: seq<Record>, ticker: string): (g: seq<Record>)
    ensures |g| <= |panel|
    ensures forall i :: 0 <= i < |g| ==> g[i].ticker == Text(ticker)
  {
    if |panel| == 0 then []
    else
      var front := RowsFor(panel[..|panel| - 1], ticker);
      assert panel == panel[..|panel| - 1] + [panel[|panel| - 1]];
      if panel[|panel| - 1].ticker == Text(ticker) then front + [panel[|panel| - 1]] else front
  }

  /** The ticker's rows are exactly the panel rows that carry the ticker. */
  lemma {:induction false} RowsForMembers(panel: seq<Record>, ticker: string)
    ensures forall rec :: rec in RowsFor(panel, ticker) <==> rec in panel && rec.ticker == Text(ticker)
  {
    if |panel| > 0 {
      RowsForMembers(panel[..|panel| - 1], ticker);
      assert panel == panel[..|panel| - 1] + [panel[|panel| - 1]];
    }
  }

  /** A ticker that passes the unknown-ticker guard has at least one row. */
  lemma KnownTickerHasRows(panel: seq<Record>, ticker: string)
    requires Text(ticker) in TickerColumn(panel)
    ensures |RowsFor(panel, ticker)| > 0
  {
    var i :| 0 <= i < |panel| && TickerColumn(panel)[i] == Text(ticker);
    RowsForMembers(panel, ticker);
    assert panel[i] in RowsFor(panel, ticker);
  }

  /** s.tail(k): the last k elements, or all of them when there are fewer. */
  function Tail<T>(s: seq<T>, k: nat): (t: seq<T>)
    ensures |t| == if k <= |s| then k else |s|
    ensures forall i :: 0 <= i < |t| ==> t[i] == s[|s| - |t| + i]
  {
    if k <= |s| then s[|s| - k..] else s
  }

  /** g after the optional g.tail(per_rows). */
  function History(panel: seq<Record>, ticker: string, perRows: int): (g: seq<Record>)
    ensures perRows > 0 ==> |g| <= perRows
    ensures forall i :: 0 <= i < |g| ==> g[i].ticker == Text(ticker)
    ensures |RowsFor(panel, ticker)| > 0 ==> |g| > 0
  {
    var g := RowsFor(panel, ticker);
    if perRows > 0 then Tail(g, perRows) else g
  }

  /**
   * float() on one close cell, as astype(float) applies it: a number is
   * itself, text is parsed by `toFloat` (None where Python's float() raises
   * ValueError), and a day stamp raises TypeError. dropna has already
   * removed missing cells.
   */
  function FloatOf(c: Cell, toFloat: string -> Option<real>): (v: Option<real>)
    ensures c.Number? ==> v == Some(c.x)
    ensures c.Text? ==> v == toFloat(c.s)
    ensures c.Stamp? || c.Null? ==> v.None?
  {
    match c
    case Number(x) => Some(x)
    case Text(t) => toFloat(t)
    case _ => None
  }

  /** Every close cell of g converts to a float. */
  predicate AllFloat(g: seq<Record>, toFloat: string -> Option<real>) {
    forall i :: 0 <= i < |g| ==> FloatOf(g[i].close, toFloat).Some?
  }

  /** g["close"].astype(float): every close as a float, or a cell that is none. */
  function FloatCloses(g: seq<Record>, toFloat: string -> Option<real>): (r: Result<seq<real>, Cell>)
    ensures r.Success? <==> AllFloat(g, toFloat)
    ensures r.Success? ==> |r.value| == |g| && forall i :: 0 <= i < |g| ==> FloatOf(g[i].close, toFloat) == Some(r.value[i])
    ensures r.Failure? ==> FloatOf(r.error, toFloat).None? && exists i :: 0 <= i < |g| && g[i].close == r.error
  {
    if |g| == 0 then Success([])
    else
      var front := FloatCloses(g[..|g| - 1], toFloat);
      if front.Failure? then
        assert g[..|g| - 1][0] == g[0];
        front
      else
        match FloatOf(g[|g| - 1].close, toFloat)
        case None => Failure(g[|g| - 1].close)
        case Some(x) => Success(front.value + [x])
  }

  /** A history of numeric closes converts to exactly those numbers. */
  lemma {:induction false} NumericClosesConvert(g: seq<Record>, toFloat: string -> Option<real>)
    requires forall i :: 0 <= i < |g| ==> g[i].close.Number?
    ensures FloatCloses(g, toFloat).Success?
    ensures forall i :: 0 <= i < |g| ==> FloatCloses(g, toFloat).value[i] == g[i].close.x
  {
    var r := FloatCloses(g, toFloat);
    assert forall i :: 0 <= i < |g| ==> FloatOf(g[i].close, toFloat) == Some(g[i].close.x);
  }

  /** The forecast list: zip(future_dates, preds), each row tagged with the ticker. */
  function ForecastRows(dates: seq<int>, ticker: string, preds: seq<real>): (rows: seq<ForecastRow>)
    requires |dates| == |preds|
    ensures |rows| == |preds|
    ensures forall i :: 0 <= i < |rows| ==> rows[i] == ForecastRow(dates[i], ticker, preds[i])
  {
    seq(|preds|, i requires 0 <= i < |preds| => ForecastRow(dates[i], ticker, preds[i]))
  }

  /** last_lags = close.tail(lags).values[::-1]: the seed of the recursion, newest first. */
  function Seed(close: seq<real>, lags: nat): seq<real> {
    Reverse(Tail(close, lags))
  }

  /** The predicted path: the model fitted on the lag features, run from the seed. */
  function PredictedPath(close: seq<real>, lags: nat, horizon: nat,
                         fit: (seq<seq<real>>, seq<real>) -> (seq<real> -> real)): (preds: seq<real>)
    ensures |preds| == horizon
  {
    Predictions(Seed(close, lags), fit(LagMatrix(close, lags), Targets(close, lags)), horizon)
  }

  /**
   * The dictionary run_forecast returns for the ticker's float closes, whose
   * last row is dated lastDay: one forecast row per prediction, dated with
   * the business days after lastDay, pred_last the final prediction, and
   * the decision report on the path with the backtest RMSE.
   */
  function ForecastOf(close: seq<real>, lastDay: int, ticker: string, lags: nat, horizon: nat,
                      fit: (seq<seq<real>>, seq<real>) -> (seq<real> -> real),
                      sqrt: NonNegReal -> NonNegReal, foldRmses: seq<NonNegReal>): (out: ForecastOutput)
    requires |close| > 0 && horizon >= 2
    ensures out.ticker == ticker && out.horizon == horizon && out.lags == lags
    ensures out.lastClose == close[|close| - 1]
    ensures |out.forecast| == horizon
    ensures forall i :: 0 <= i < horizon ==>
      out.forecast[i] == ForecastRow(FutureDates(lastDay, horizon)[i], ticker, PredictedPath(close, lags, horizon, fit)[i])
    ensures out.predLast == out.forecast[horizon - 1].predClose
    ensures out.decision == EvaluateDecision(out.lastClose, PredictedPath(close, lags, horizon, fit),
      DailyRmse(close, lags, BacktestSplits, sqrt, foldRmses), horizon, sqrt)
  {
    var preds := PredictedPath(close, lags, horizon, fit);
    var dates := FutureDates(lastDay, horizon);
    var rows := ForecastRows(dates, ticker, preds);
    ForecastOutput(ticker, close[|close| - 1], preds[|preds| - 1], horizon, lags, rows,
      EvaluateDecision(close[|close| - 1], preds, DailyRmse(close, lags, BacktestSplits, sqrt, foldRmses), horizon, sqrt))
  }

  /**
   * The forecast dates lie after the last observed day, are business days
   * and increase, with every weekday in between used.
   */
  lemma ForecastDates(close: seq<real>, lastDay: int, ticker: string, lags: nat, horizon: nat,
                      fit: (seq<seq<real>>, seq<real>) -> (seq<real> -> real),
                      sqrt: NonNegReal -> NonNegReal, foldRmses: seq<NonNegReal>)
    requires |close| > 0 && horizon >= 2
    ensures var rows := ForecastOf(close, lastDay, ticker, lags, horizon, fit, sqrt, foldRmses).forecast;
      && (forall i :: 0 <= i < horizon ==> lastDay < rows[i].date && IsBusinessDay(rows[i].date))
      && (forall i, j :: 0 <= i < j < horizon ==> rows[i].date < rows[j].date)
  {
    var rows := ForecastOf(close, lastDay, ticker, lags, horizon, fit, sqrt, foldRmses).forecast;
    var dates := FutureDates(lastDay, horizon);
    assert dates == BusinessDays(lastDay + 1, horizon);
    assert forall i :: 0 <= i < horizon ==> rows[i].date == dates[i];
  }

  /**
   * The part of run_forecast after the guards, on the ticker's float closes
   * (more than lags + 5 of them) whose last row is dated lastDay: fit,
   * forecast, date, backtest and decide. Lags of 0 or less give lag
   * features with no column, which the scaler of fit_pipe refuses; a horizon
   * of 0 has no last prediction and one of 1 no slope to fit.
   */
  method ForecastHistory(close: seq<real>, lastDay: int, ticker: string, lags: int, horizon: nat,
                         fit: (seq<seq<real>>, seq<real>) -> (seq<real> -> real),
                         sqrt: NonNegReal -> NonNegReal, foldRmses: seq<NonNegReal>)
    returns (r: Result<ForecastOutput, ForecastError>)
    requires |close| > lags + 5
    ensures lags <= 0 ==> r == Failure(NoFeatures)
    ensures lags > 0 && horizon == 0 ==> r == Failure(NoPrediction)
    ensures lags > 0 && horizon == 1 ==> r == Failure(SinglePointFit)
    ensures lags > 0 && horizon >= 2 ==> r == Success(ForecastOf(close, lastDay, ticker, lags, horizon, fit, sqrt, foldRmses))
  {
    if lags <= 0 {
      return Failure(NoFeatures);
    }
    var X, y := MakeSupervised(close, lags);
    var model := fit(X, y);
    var lastLags := Seed(close, lags);
    var preds := ForecastRecursive(lastLags, model, horizon);
    var futureDates := FutureDates(lastDay, horizon);
    var rmseDay := BacktestRmse(close, lags, BacktestSplits, sqrt, foldRmses);
    if horizon == 0 {
      return Failure(NoPrediction);
    }
    if horizon == 1 {
      return Failure(SinglePointFit);
    }
    var decision := EvaluateDecision(close[|close| - 1], preds, rmseDay, horizon, sqrt);
    var forecast := ForecastRows(futureDates, ticker, preds);
    return Success(ForecastOutput(ticker, close[|close| - 1], preds[|preds| - 1], horizon, lags, forecast, decision));
  }

  /**
   * The first two guards of run_forecast (and of the command-line main): the
   * schema check of load_and_prepare, then the unknown ticker with a sample
   * of known ones. On success, the ticker's rows after the optional tail.
   */
  function TickerHistory(frame: Frame, toDate: Cell -> Option<int>, ticker: string, perRows: int)
    : (h: Result<seq<Record>, ForecastError>)
    requires WellFormed(frame)
    ensures h.Failure? ==> h.error.Schema? || h.error.TickerNotFound?
    ensures h.Failure? && h.error.Schema? <==> !HasRequired(NormalizeColumns(frame.columns))
    ensures h.Failure? && h.error.Schema? ==> h.error.columns == NormalizeColumns(frame.columns)
    ensures HasRequired(NormalizeColumns(frame.columns)) ==>
      var panel := PreparedPanel(frame, toDate);
      && (h.Failure? <==> Text(ticker) !in TickerColumn(panel))
      && (h.Failure? ==> h.error.ticker == ticker && h.error.sample == TickerSample(panel))
    ensures h.Success? ==>
      && HasRequired(NormalizeColumns(frame.columns))
      && h.value == History(PreparedPanel(frame, toDate), ticker, perRows)
      && 0 < |h.value|
      && (perRows > 0 ==> |h.value| <= perRows)
      && forall i :: 0 <= i < |h.value| ==> h.value[i].ticker == Text(ticker)
  {
    if !HasRequired(NormalizeColumns(frame.columns)) then Failure(Schema(NormalizeColumns(frame.columns)))
    else
      var panel := PreparedPanel(frame, toDate);
      if Text(ticker) !in TickerColumn(panel) then Failure(TickerNotFound(ticker, TickerSample(panel)))
      else
        KnownTickerHasRows(panel, ticker);
        Success(History(panel, ticker, perRows))
  }

  /**
   * All the guards of run_forecast before fitting, in order: the two of
   * TickerHistory, the float conversion of the closes, then a history too
   * short for the lags (len(close) <= lags + 5). On success, the closes.
   */
  function GuardedHistory(frame: Frame, toDate: Cell -> Option<int>, toFloat: string -> Option<real>,
                          ticker: string, lags: int, perRows: int)
    : (h: Result<seq<real>, ForecastError>)
    requires WellFormed(frame)
    ensures TickerHistory(frame, toDate, ticker, perRows).Failure? ==>
      h == Failure(TickerHistory(frame, toDate, ticker, perRows).error)
    ensures TickerHistory(frame, toDate, ticker, perRows).Success? ==>
      var g := TickerHistory(frame, toDate, ticker, perRows).value;
      && (h.Failure? && h.error.CloseNotFloat? <==> !AllFloat(g, toFloat))
      && (h.Failure? && h.error.CloseNotFloat? ==> h.error.cell == FloatCloses(g, toFloat).error)
      && (h.Failure? && h.error.InsufficientHistory? <==> AllFloat(g, toFloat) && |g| <= lags + 5)
      && (h.Failure? ==> h.error.CloseNotFloat? || h.error.InsufficientHistory?)
      && (h.Success? ==> h.value == FloatCloses(g, toFloat).value && |h.value| > lags + 5)
  {
    match TickerHistory(frame, toDate, ticker, perRows)
    case Failure(e) => Failure(e)
    case Success(g) =>
      match FloatCloses(g, toFloat)
      case Failure(cell) => Failure(CloseNotFloat(cell))
      case Success(close) =>
        if |close| <= lags + 5 then Failure(InsufficientHistory) else Success(close)
  }

  /**
   * run_forecast(ticker, lags, horizon, per_rows). `fit` is fit_pipe,
   * `foldRmses` the fold RMSEs of the backtest on the ticker's closes and
   * `toFloat` Python's float() on text.
   */
  method RunForecast(frame: Frame, toDate: Cell -> Option<int>, toFloat: string -> Option<real>,
                     ticker: string, lags: int, horizon: nat, perRows: int,
                     fit: (seq<seq<real>>, seq<real>) -> (seq<real> -> real),
                     sqrt: NonNegReal -> NonNegReal, foldRmses: seq<NonNegReal>)
    returns (r: Result<ForecastOutput, ForecastError>)
    requires WellFormed(frame)
    ensures GuardedHistory(frame, toDate, toFloat, ticker, lags, perRows).Failure? ==>
      r == Failure(GuardedHistory(frame, toDate, toFloat, ticker, lags, perRows).error)
    ensures GuardedHistory(frame, toDate, toFloat, ticker, lags, perRows).Success? && lags <= 0 ==>
      r == Failure(NoFeatures)
    ensures GuardedHistory(frame, toDate, toFloat, ticker, lags, perRows).Success? && lags > 0 && horizon == 0 ==>
      r == Failure(NoPrediction)
    ensures GuardedHistory(frame, toDate, toFloat, ticker, lags, perRows).Success? && lags > 0 && horizon == 1 ==>
      r == Failure(SinglePointFit)
    ensures GuardedHistory(frame, toDate, toFloat, ticker, lags, perRows).Success? && lags > 0 && horizon >= 2 ==>
      var g := TickerHistory(frame, toDate, ticker, perRows).value;
      r == Success(ForecastOf(GuardedHistory(frame, toDate, toFloat, ticker, lags, perRows).value,
                              g[|g| - 1].date, ticker, lags, horizon, fit, sqrt, foldRmses))
  {
    var loaded := LoadAndPrepare(frame, toDate);
    if loaded.Failure? {
      return Failure(Schema(loaded.error.columns));
    }
    var panel := loaded.value;
    assert panel == PreparedPanel(frame, toDate);
    if Text(ticker) !in TickerColumn(panel) {
      return Failure(TickerNotFound(ticker, TickerSample(panel)));
    }
    var g := RowsFor(panel, ticker);
    if perRows > 0 {
      g := Tail(g, perRows);
    }
    assert g == History(panel, ticker, perRows);
    assert TickerHistory(frame, toDate, ticker, perRows) == Success(g);
    var converted := FloatCloses(g, toFloat);
    if converted.Failure? {
      return Failure(CloseNotFloat(converted.error));
    }
    var close := converted.value;
    if |close| <= lags + 5 {
      return Failure(InsufficientHistory);
    }
    assert GuardedHistory(frame, toDate, toFloat, ticker, lags, perRows) == Success(close);
    r := ForecastHistory(close, g[|g| - 1].date, ticker, lags, horizon, fit, sqrt, foldRmses);
  }

  /**
   * The first model input is the oldest-first tail of the closes: the seed is
   * already newest first and forecast_recursive reverses it once more.
   */
  lemma FirstInputOldestFirst(close: seq<real>, lags: nat)
    requires 0 < lags <= |close|
    ensures Window(Seed(close, lags), lags) == Tail(close, lags)
    ensures Window(Seed(close, lags), lags)[0] == close[|close| - lags]
  {
  }

  /**
   * The training rows of make_supervised hold the same closes newest first:
   * the row whose target follows the last close is the seed itself, the
   * reverse of the first model input.
   */
  lemma TrainingRowIsSeed(close: seq<real>, lags: nat, next: real)
    requires lags <= |close|
    ensures LagRow(close + [next], lags, |close| - lags) == Seed(close, lags)
  {
  }

  /** So whenever the oldest and newest of the last lags closes differ, the first prediction sees its lags in the opposite order to training. */
  lemma FirstInputOrderDiffers(close: seq<real>, lags: nat, next: real)
    requires 0 < lags <= |close|
    requires close[|close| - lags] != close[|close| - 1]
    ensures Window(Seed(close, lags), lags) != LagRow(close + [next], lags, |close| - lags)
  {
    FirstInputOldestFirst(close, lags);
    TrainingRowIsSeed(close, lags, next);
    assert Window(Seed(close, lags), lags)[0] != Seed(close, lags)[0];
  }
}
