# FinSight forecasting and sentiment core, in Dafny

FinSight is a small stock-analysis application. This project models three parts of it and proves properties of them.

**The forecast-and-decision engine** (`Project/forecast_model_final.py`, and the root `forecast_model_final.py`, whose `main` inlines the same pipeline):
- `load_and_prepare` normalises the panel.
- `make_supervised` turns a close series into lag features.
- `forecast_recursive` feeds each prediction back into the model.
- `backtest_rmse` estimates the daily error.
- `evaluate_decision` turns a predicted path into a buy vote, a position, risk bands and a signal-to-noise ratio.
- `run_forecast` adds the guards around them and pairs business days with predictions.

**Sentiment aggregation** (`Project/server.py`, `Project/sentiment_test.py`, `Project/finbert.py`):
- A classifier labels each text POS, NEG or NEU with a confidence.
- POS adds its score and NEG subtracts it; only these two labels are counted.
- The average is read against the thresholds +-0.15.
- The server also derives a price trend from the decision report, or a fallback when no forecast exists.

**The dashboard's pure helpers** (`SentimentSignals.js`, `MLStockRecommendations.js`, `NewsFeed.js`):
- relative-time texts and the parser that reads them back for sorting;
- Buy/Sell/Hold classification, null filtering and the descending sort;
- sentiment capitalisation and the CSS class chosen for a sentiment.

Modules follow the program's components:

| module | file | models |
|---|---|---|
| `Wrappers`, `Numeric`, `Strings` | `wrappers.dfy`, `numeric.dfy`, `strings.dfy` | Option/Result; numpy floats with infinities and NaN; Python/JavaScript string operations |
| `Panel`, `Supervised`, `Forecaster`, `Backtest`, `Decision`, `Calendar`, `Pipeline` | one file each | the forecast engine |
| `Scoring`, `Http`, `Feeds`, `NewsSentiment`, `StockQuote` | one file each | the server's sentiment and stock endpoints |
| `SentimentScript`, `FinbertScript` | `sentiment_script.dfy`, `finbert_script.dfy` | the two command-line scripts |
| `RelativeTime`, `ArraySort`, `SentimentSignals`, `Recommendations`, `NewsFeed` | `relative_time.dfy`, `array_sort.dfy`, `signals.dfy`, `recommendations.dfy`, `news_feed.dfy` | the React panels |

Modelling choices:
- **Code that changes state step by step is a method with loop invariants**, proved against a specification function. This covers `MakeSupervised`, `ForecastRecursive`, `BacktestRmse`, `LoadAndPrepare`, `RunForecast` and the three scoring loops.
- **`Array.prototype.sort` is an in-place insertion sort on an `array`.**
  - `ArraySort.SortBy` leaves the array equal to `ArraySort.InsertionSorted` of its old contents, a stable order.
  - `ArraySort.InsertionSortedStable` proves the stability: elements that tie keep their input order. `Array.prototype.sort` is stable too.
  - The lemmas about `InsertionSorted` prove it is a permutation with every neighbour pair in order.
  - Neighbour order is all any sort can promise for a comparator that is not transitive. A JavaScript comparator that can return NaN is such a comparator.
- **Table cells are kept raw.** `load_and_prepare` drops a row only for a missing cell (None, NaN or NaT, the cell `Null`) or a date `pd.to_datetime` cannot read. The ticker and close cells are kept as they are, of whatever kind. `run_forecast` converts the closes with `astype(float)`, which either parses a text cell or raises.
- **Prices are `real`.**
  - Divisions that numpy turns into infinities or NaN use `Numeric.ExtReal`.
  - The fitted regressor (`fit_pipe`) is a parameter: a function from a window to a prediction.
  - The square root is a parameter.
  - The per-fold RMSEs of the time-series cross-validation are given.
- **The clock and JavaScript's date parser** become a function from a published date to the milliseconds elapsed since then (`None` for a date JavaScript cannot parse).

**The seed is reversed twice.** `run_forecast` passes the seed newest-first (`Project/forecast_model_final.py:136`). `forecast_recursive` reverses the buffer's tail once more (`:58`), so the first model input is oldest-first. The training rows, however, hold their lags newest-first. The model follows the code as written:
- `Pipeline.FirstInputOldestFirst` proves the first input is the tail of the closes in time order.
- `Pipeline.FirstInputOrderDiffers` proves this differs from the training layout whenever the oldest and newest of those closes differ.

The comments "lag_1=most recent" (`forecast_model_final.py:47`, `:132`) therefore hold only for the training rows.

## Model

| member | source | states |
|---|---|---|
| `Numeric.Div` | Project/forecast_model_final.py:82 | numpy division: a real quotient exactly when the divisor is non-zero; +inf or -inf by the dividend's sign otherwise, NaN for 0/0 |
| `Numeric.SubReal` | Project/forecast_model_final.py:82 | subtracting from a float: infinities and NaN absorb it, a real result adds back to the operand |
| `Numeric.Diffs` | Project/forecast_model_final.py:69 | np.diff: one element fewer, element i is s[i+1] - s[i] |
| `Numeric.PopVariance` | Project/forecast_model_final.py:70 | the population variance (ddof 0) is never negative |
| `Numeric.MeanNonNeg` | Project/forecast_model_final.py:77 | a mean of non-negative values (fold RMSEs) is non-negative |
| `Numeric.MeanAtMost` | Project/forecast_model_final.py:77 | a mean never exceeds an upper bound of its values |
| `Numeric.MeanConstant` | Project/server.py:195-196 | the mean of equal values is that value |
| `Strings.Lower` | Project/server.py:425 | str.lower(): same length, each character lower-cased |
| `Strings.Upper` | Project/server.py:385 | str.upper(): same length, each character upper-cased, and the result is upper case |
| `Strings.StripLeft` | Project/forecast_model_final.py:21 | removing leading whitespace never lengthens a name |
| `Strings.StripRight` | Project/forecast_model_final.py:21 | removing trailing whitespace never lengthens a name |
| `Strings.SplitOn` | Project/sentiment_test.py:39 | str.split always yields at least one piece |
| `Strings.SplitOnOneSep` | Project/finsight/src/app/components/Blocks/SentimentSignals.js:96-98 | a text with one separator splits into exactly the part before and the part after |
| `Strings.NatToString` | Project/finsight/src/app/components/Blocks/SentimentSignals.js:83-86 | `${n}` renders a non-empty run of decimal digits |
| `Strings.ParseIntNatToString` | Project/finsight/src/app/components/Blocks/SentimentSignals.js:97 | parseInt reads back every rendered whole number |
| `Strings.StrLessTransitive` | Project/forecast_model_final.py:31 | Python's string order, used to sort tickers, is transitive |
| `Strings.StrLessTotal` | Project/forecast_model_final.py:31 | of two different tickers one sorts first |
| `Strings.StrLessIrreflexive` | Project/forecast_model_final.py:31 | no ticker sorts before itself |
| `Strings.StrLessAsymmetric` | Project/forecast_model_final.py:31 | two tickers never each sort before the other |
| `Panel.Rename` | Project/forecast_model_final.py:22-25 | DataFrame.rename: every column with the old name takes the new one, the others are kept |
| `Panel.NormalizeColumns` | Project/forecast_model_final.py:21-25 | one normalised name per column |
| `Panel.RecordOf` | Project/forecast_model_final.py:28-31 | a row is dropped exactly when its date cell is missing or unparsable, or its close cell or (when the column exists) its ticker cell is missing; a kept row carries the raw ticker and close cells, "UNK" when there is no ticker column |
| `Panel.KeptRecords` | Project/forecast_model_final.py:28-31 | dropna never adds rows, no kept row has a missing ticker or close, and without a ticker column every kept row is "UNK" |
| `Panel.CompleteRowsKept` | Project/forecast_model_final.py:31 | when no row has a missing or unparsable required cell, dropna keeps every row |
| `Panel.CellLessTransitive` | Project/forecast_model_final.py:31 | the order of ticker cells (numbers, then text, then day stamps) is transitive |
| `Panel.CellLessTotal` | Project/forecast_model_final.py:31 | any two different ticker cells are ordered one way or the other |
| `Panel.Insert` | Project/forecast_model_final.py:31 | inserting a record adds exactly that record |
| `Panel.InsertSorted` | Project/forecast_model_final.py:31 | inserting into a (ticker, date)-sorted panel keeps it sorted |
| `Panel.SortByKey` | Project/forecast_model_final.py:31 | sort_values(["ticker", "date"]) is a sorted permutation |
| `Panel.KeyLeTransitive` | Project/forecast_model_final.py:31 | the (ticker, date) order is transitive |
| `Panel.KeyLeWhenNotLess` | Project/forecast_model_final.py:31 | the (ticker, date) order is total |
| `Panel.LoadAndPrepare` | Project/forecast_model_final.py:18-32 | fails, carrying the normalised columns, exactly when date or close is missing; otherwise returns the kept rows as a sorted permutation with no missing ticker or close, "UNK" when there is no ticker column |
| `Supervised.Shift` | Project/forecast_model_final.py:39 | Series.shift(k): position i holds series[i-k], the first k are missing |
| `Supervised.LagRow` | Project/forecast_model_final.py:38-41 | one feature per lag |
| `Supervised.LagMatrix` | Project/forecast_model_final.py:41 | N - n rows when N > n, none otherwise |
| `Supervised.Targets` | Project/forecast_model_final.py:42 | N - n targets when N > n, none otherwise |
| `Supervised.MakeSupervised` | Project/forecast_model_final.py:35-43 | N - n rows; y[i] = series[i+n]; lag column j (lag_{j+1}) holds series[i+n-(j+1)] |
| `Forecaster.Reverse` | Project/forecast_model_final.py:58 | s[::-1] |
| `Forecaster.Window` | Project/forecast_model_final.py:58 | buf[-k:][::-1]: the last k entries newest-first, the whole buffer when k is 0 or too large |
| `Forecaster.Predictions` | Project/forecast_model_final.py:53-62 | the recursion yields exactly n predictions |
| `Forecaster.PredictionStep` | Project/forecast_model_final.py:57-61 | prediction t is the model applied to the window of the seed followed by predictions 0..t-1 |
| `Forecaster.PredictionsPrefix` | Project/forecast_model_final.py:57-61 | running longer never changes earlier predictions (the seed is never modified) |
| `Forecaster.ForecastRecursive` | Project/forecast_model_final.py:53-62 | the loop returns exactly n_steps predictions, those of the recursion |
| `Forecaster.FirstWindowReversesSeed` | forecast_model_final.py:43-51 | the first model input is the seed read back to front |
| `Forecaster.MeanModelKeepsConstant` | Project/forecast_model_final.py:53-62 | a mean-of-window model started on a constant seed predicts that constant at every step |
| `Backtest.DiffStd` | Project/forecast_model_final.py:69-70 | the fallback is 0 with fewer than two targets |
| `Backtest.DiffStdOfConstant` | Project/forecast_model_final.py:69-70 | targets that never move give sqrt(0) |
| `Backtest.DiffStdExample` | Project/forecast_model_final.py:69-70 | targets 100, 101, 99 give 1.5 |
| `Backtest.FoldMean` | Project/forecast_model_final.py:77 | 0 when no fold was produced |
| `Backtest.FoldMeanAtMost` | Project/forecast_model_final.py:77 | the estimate never exceeds the worst fold |
| `Backtest.FoldMeanConstant` | Project/forecast_model_final.py:77 | equal fold RMSEs average to that value |
| `Backtest.BacktestRmse` | Project/forecast_model_final.py:65-77 | below max(10, n_splits+5) rows, the std of the target differences (0 with fewer than two targets); otherwise the mean of the fold RMSEs |
| `Decision.SlopeOfLine` | Project/forecast_model_final.py:84 | the least-squares slope of a straight-line path a + b*i is b |
| `Decision.SquaredSpread` | Project/forecast_model_final.py:84 | the slope's denominator is never negative |
| `Decision.RunMax` | Project/forecast_model_final.py:86 | cummax at i bounds every earlier value and is one of them |
| `Decision.MaxSkipNaN` | Project/forecast_model_final.py:87 | Series.max skips NaN: NaN only when both are NaN, otherwise one of the operands |
| `Decision.MaxDrawdownOfPositivePath` | Project/forecast_model_final.py:85-87 | on positive prices the drawdown is a real number in [0, 1) |
| `Decision.MaxDrawdownOfRisingPath` | Project/forecast_model_final.py:85-87 | a positive path that never falls has drawdown 0 |
| `Decision.PredictedReturn` | Project/forecast_model_final.py:82 | R_h: real exactly when last_close != 0, and then (R_h + 1) * last_close is the final prediction; +inf for a zero close and a positive prediction |
| `Decision.Uncertainty` | Project/forecast_model_final.py:83 | 0 when last_close <= 0, otherwise uncert * last_close = sqrt(h) * rmse_day |
| `Decision.Clamp01` | Project/forecast_model_final.py:94 | min(1, max(0, x)) lies in [0, 1] and is x inside it |
| `Decision.BuyVote` | forecast_model_final.py:69-84 | buy exactly when at least two of the three conditions hold |
| `Decision.Position` | Project/forecast_model_final.py:94 | in [0, 1]; non-zero only with buy and uncert > 0; R_h / (3 uncert) inside the band, 1 above it |
| `Decision.SignalToNoise` | Project/forecast_model_final.py:101 | +inf exactly when uncert is not > 0, otherwise snr * uncert = R_h |
| `Decision.EvaluateDecision` | Project/forecast_model_final.py:80-108 | on a path of at least two points (y_pred[-1] and the degree-1 np.polyfit need them), the report's fields: the buy vote over the three conditions, position in [0, 1] and 0 unless buy and uncert > 0, stop = -uncert, take = 2 uncert, snr infinite exactly when uncert is not > 0 |
| `Calendar.Weekday` | Project/forecast_model_final.py:140 | the weekday is one of seven |
| `Calendar.NextBusinessDay` | Project/forecast_model_final.py:140 | the first weekday on or after a day, at most two days later |
| `Calendar.BusinessDays` | Project/forecast_model_final.py:140 | bdate_range(start, periods=n): n strictly increasing weekdays from start |
| `Calendar.BusinessDaysComplete` | Project/forecast_model_final.py:140 | no weekday in the range is skipped |
| `Calendar.BusinessDaysGap` | Project/forecast_model_final.py:140 | consecutive dates are at most three days apart |
| `Calendar.FutureDates` | Project/forecast_model_final.py:139-140 | horizon dates, all after the last observed day |
| `Calendar.WeekendSkippedExample` | forecast_model_final.py:135-136 | after Friday 1970-01-02 come Monday and Tuesday |
| `Pipeline.TickerColumn` | Project/forecast_model_final.py:121 | the ticker column, row by row |
| `Pipeline.Distinct` | Project/forecast_model_final.py:122 | drop_duplicates keeps every value once |
| `Pipeline.TickerSample` | Project/forecast_model_final.py:122 | at most 20 distinct ticker cells of the panel, all of them when there are no more than 20 |
| `Pipeline.RowsFor` | Project/forecast_model_final.py:125 | the selected rows all carry the ticker as text |
| `Pipeline.RowsForMembers` | Project/forecast_model_final.py:125 | a row is selected exactly when it is in the panel with a text ticker equal to the requested one |
| `Pipeline.KnownTickerHasRows` | Project/forecast_model_final.py:121-125 | a ticker that passes the guard has rows |
| `Pipeline.Tail` | Project/forecast_model_final.py:126-127 | tail(k): the last k rows, or all |
| `Pipeline.FloatOf` | Project/forecast_model_final.py:129 | float() on one close cell: a number is itself, text is parsed, a day stamp fails |
| `Pipeline.FloatCloses` | Project/forecast_model_final.py:129 | astype(float) succeeds exactly when every close cell converts, giving each converted value in row order; otherwise it reports an unconvertible cell of the column |
| `Pipeline.NumericClosesConvert` | Project/forecast_model_final.py:129 | a column of numeric closes converts to exactly those numbers |
| `Pipeline.ForecastRows` | Project/forecast_model_final.py:145-152 | one row per prediction, pairing date i with prediction i |
| `Pipeline.PredictedPath` | Project/forecast_model_final.py:133-137 | horizon predictions |
| `Pipeline.ForecastOf` | Project/forecast_model_final.py:133-162 | the result: last float close, one forecast row per prediction dated after the last row's day, pred_last the final prediction, the decision on that path |
| `Pipeline.ForecastDates` | Project/forecast_model_final.py:139-152 | forecast dates are increasing weekdays after the last observed day |
| `Pipeline.ForecastHistory` | Project/forecast_model_final.py:133-162 | lags of 0 or less fail in the scaler (no feature column); otherwise a horizon of 0 fails (y_pred[-1] on an empty path) and a horizon of 1 fails (np.polyfit of degree 1 on one point); otherwise the result above |
| `Pipeline.TickerHistory` | forecast_model_final.py:116-123 | schema error with the normalised columns, then unknown ticker with the sample; on success the non-empty, optionally tailed rows of the ticker |
| `Pipeline.GuardedHistory` | forecast_model_final.py:116-127 | after those two, a close that astype(float) cannot convert, then too little history (len(close) <= lags + 5), all before any fitting; on success the float closes |
| `Pipeline.RunForecast` | Project/forecast_model_final.py:111-162 | run_forecast: the guards' error, the no-feature failure for lags <= 0, a horizon-0 failure, a horizon-1 failure, or the forecast of the float closes dated from the last row |
| `Pipeline.FirstInputOldestFirst` | Project/forecast_model_final.py:136-137 | the first model input is the last lags closes oldest-first |
| `Pipeline.TrainingRowIsSeed` | Project/forecast_model_final.py:133-136 | the training row that would predict the next close is the seed, newest-first |
| `Pipeline.FirstInputOrderDiffers` | Project/forecast_model_final.py:136-137 | the first input and that training row differ when the oldest and newest lag differ |
| `Scoring.Contribution` | Project/server.py:444-456 | POS adds its score, NEG subtracts it, any other label adds 0 |
| `Scoring.CountedCount` | Project/server.py:460 | the count never exceeds the number of results |
| `Scoring.TotalAppend` | Project/server.py:444-460 | one more result adds its contribution and counts exactly when POS or NEG |
| `Scoring.NeutralResultIgnored` | Project/finbert.py:47 | a result that is neither POS nor NEG leaves the verdict unchanged |
| `Scoring.PolarityOf` | Project/server.py:491-503 | bullish exactly above 0.15, bearish exactly below -0.15, neutral in between |
| `Scoring.PolarityName` | Project/server.py:491-503 | the server's names bullish, bearish, neutral, one per polarity |
| `Scoring.PolarityWord` | Project/sentiment_test.py:76-86 | the scripts' labels Positive, Negative, Neutral, one per polarity |
| `Scoring.Aggregate` | Project/server.py:484-508 | with counted results the score times the count is the total; with none the score is 0 and neutral; the polarity is read from the score |
| `Scoring.TotalBounded` | Project/server.py:444-460 | with confidences in [0, 1] the total is bounded by the count |
| `Scoring.ScoreBounded` | Project/server.py:487 | with confidences in [0, 1] the final score lies in [-1, 1] |
| `Scoring.ConfidentPositivesTotal` | Project/server.py:444-460 | confident POS results are all counted and sum above 0.15 times their number |
| `Scoring.ConfidentPositivesBullish` | Project/server.py:484-493 | a run of confident POS results is bullish |
| `Http.TickerParam` | Project/server.py:385 | data.get('ticker', '').upper(): empty exactly when missing or empty, upper case |
| `Feeds.UrlSource` | Project/sentiment_test.py:39 | url.split("/")[2] of an https URL is its host |
| `Feeds.UrlListSources` | Project/sentiment_test.py:16-23 | the host of every feed URL |
| `NewsSentiment.SummaryText` | Project/server.py:424 | the summary when present, else the title |
| `NewsSentiment.FirstEntries` | Project/server.py:421 | feed.entries[:10]: a prefix of at most ten entries |
| `NewsSentiment.TextToAnalyze` | Project/server.py:432-436 | the summary text when longer than 20 characters, else the title, cut to 500 characters |
| `NewsSentiment.ShortSummary` | Project/server.py:469 | unchanged up to 200 characters, else the first 200 followed by "..." |
| `NewsSentiment.LabelPolarity` | Project/server.py:444-456 | bullish exactly for POS, bearish exactly for NEG, neutral for an uncounted label |
| `NewsSentiment.Recommendation` | Project/server.py:491-508 | "Insufficient data..." exactly when nothing was counted |
| `NewsSentiment.Analysed` | Project/server.py:421-480 | at most one analysed item per entry |
| `NewsSentiment.AnalysedItemsRead` | Project/server.py:425-437 | every analysed item comes from the feed, mentions the keyword and carries the classifier's result on its text |
| `NewsSentiment.AnalysedEveryEntry` | Project/server.py:421-480 | with no keyword and a classifier that never raises, every entry is analysed, in order |
| `NewsSentiment.AnalysedNext` | Project/server.py:421-480 | one more entry adds at most that entry |
| `NewsSentiment.Articles` | Project/server.py:464-472 | one reply article per analysed item |
| `NewsSentiment.Results` | Project/server.py:437 | one classifier result per analysed item |
| `NewsSentiment.ArticlesAppend` | Project/server.py:464-472 | one more analysed item appends its article and result |
| `NewsSentiment.Report` | Project/server.py:512-520 | the reply counts at most as many articles as it lists |
| `NewsSentiment.ScoreEntries` | Project/server.py:421-480 | the loop's articles, total and count are those of the analysed items |
| `NewsSentiment.GetNewsSentiment` | Project/server.py:383-523 | 400 exactly without a ticker, 500 exactly for an unparsable feed, otherwise the report over the first ten entries, filtered by the lower-cased keyword (the ticker by default) |
| `StockQuote.ForecastTrend` | Project/server.py:180-186 | bullish exactly on a buy with R_h > 0, else bearish exactly below -2%, else neutral |
| `StockQuote.ForecastTrendFollowsPath` | Project/server.py:176-186 | for a positive close, bullish means a buy and a forecast above the close; bearish means a forecast more than 2% below it |
| `StockQuote.FallbackTrend` | Project/server.py:192-196 | never neutral; bullish exactly when the current close is above the mean of the recent closes |
| `StockQuote.FallbackTrendFlat` | Project/server.py:195-196 | flat closes read bearish |
| `StockQuote.FallbackTrendNewHigh` | Project/server.py:195-196 | a new high reads bullish |
| `StockQuote.PreviousClose` | Project/server.py:153 | fails exactly on a history shorter than two rows (the default is evaluated first), else the quote's previous close, else the second-to-last close |
| `StockQuote.Times100` | Project/server.py:157 | multiplying a float by 100 keeps infinities and NaN |
| `StockQuote.PercentOf` | Project/server.py:156-157 | change / previous * 100: real exactly for a non-zero base, signed infinity for a zero base |
| `StockQuote.GetStockData` | Project/server.py:119-225 | 400 without a ticker, 404 without history, 500 on one row; otherwise change + previous = current, the percent, and the trend from the forecast or the fallback |
| `SentimentScript.FeedPaths` | Project/sentiment_test.py:16-23 | six feed paths |
| `SentimentScript.HostsHaveNoSlash` | Project/sentiment_test.py:16-23 | no feed host contains "/" |
| `SentimentScript.RssFeeds` | Project/sentiment_test.py:16-23 | six URLs, the first the ticker's Yahoo feed, each with its host as source |
| `SentimentScript.EntryArticles` | Project/sentiment_test.py:32-40 | at most one article per entry |
| `SentimentScript.EntryArticlesMention` | Project/sentiment_test.py:33-39 | every collected article mentions the keyword and carries its feed's host |
| `SentimentScript.EntryArticlesAll` | Project/sentiment_test.py:33-34 | when every entry mentions the keyword, every entry is collected |
| `SentimentScript.GetArticles` | Project/sentiment_test.py:15-42 | the loop collects the articles of the parsed feeds in feed order, then entry order |
| `SentimentScript.TextOf` | Project/sentiment_test.py:62 | summary or title: empty only when the title is |
| `SentimentScript.ScriptResults` | Project/sentiment_test.py:55-74 | at most one result per article |
| `SentimentScript.ScriptResultsNext` | Project/sentiment_test.py:61-74 | one more article adds at most the classifier's result on it |
| `SentimentScript.ScriptRecommendation` | Project/sentiment_test.py:91-96 | the recommendation is determined by the label alone |
| `SentimentScript.ReportOf` | Project/sentiment_test.py:76-89 | counted articles never exceed those found |
| `SentimentScript.ScoreArticles` | Project/sentiment_test.py:52-74 | the loop's total and count are those of the classified articles |
| `SentimentScript.AnalyzeSentiment` | Project/sentiment_test.py:48-98 | the report over the collected articles |
| `FinbertScript.FinbertResults` | Project/finbert.py:27-50 | at most one result per entry |
| `FinbertScript.FinbertResultsNext` | Project/finbert.py:27-50 | one more entry adds at most the classifier's result on its summary |
| `FinbertScript.ScoreEntries` | Project/finbert.py:27-50 | succeeds exactly when no entry stops the run, otherwise names the first that does; the total and count are those of the classified summaries |
| `FinbertScript.RunFinbert` | Project/finbert.py:13-63 | the script's report, whose count never exceeds the number of entries |
| `RelativeTime.AgeOf` | Project/finsight/src/app/components/Blocks/SentimentSignals.js:77-86 | the bucket: "just now" exactly under a minute; whole minutes under 60; whole hours under 24; one day exactly in [1, 2) days; otherwise whole days >= 2; NaN for an invalid date |
| `RelativeTime.NestedFloors` | Project/finsight/src/app/components/Blocks/SentimentSignals.js:78-80 | whole hours are whole minutes / 60 and whole days whole hours / 24 |
| `SentimentSignals.NumberAndUnit` | Project/finsight/src/app/components/Blocks/SentimentSignals.js:96-98 | "N unit" splits into the number and the unit, and the number reads back |
| `SentimentSignals.NumberUnitRoundTrip` | Project/finsight/src/app/components/Blocks/SentimentSignals.js:96-102 | a number with a min, hour or day unit reads back as N, 60N or 1440N |
| `SentimentSignals.JustNowRoundTrip` | Project/finsight/src/app/components/Blocks/SentimentSignals.js:103 | "just now" reads back as 0 |
| `SentimentSignals.NaNDaysRoundTrip` | Project/finsight/src/app/components/Blocks/SentimentSignals.js:86-102 | "NaN days" reads back as NaN |
| `SentimentSignals.MinutesRoundTrip` | Project/finsight/src/app/components/Blocks/SentimentSignals.js:83-98 | "N min" reads back as N minutes |
| `SentimentSignals.HoursRoundTrip` | Project/finsight/src/app/components/Blocks/SentimentSignals.js:84-99 | "N hours" reads back as 60N minutes |
| `SentimentSignals.OneDayRoundTrip` | Project/finsight/src/app/components/Blocks/SentimentSignals.js:85-100 | "1 day" reads back as 1440 minutes |
| `SentimentSignals.DaysRoundTrip` | Project/finsight/src/app/components/Blocks/SentimentSignals.js:86-100 | "N days" reads back as 1440N minutes |
| `SentimentSignals.TimestampRoundTrip` | Project/finsight/src/app/components/Blocks/SentimentSignals.js:73-104 | parseTimestamp(formatTimestamp(e)) is the minutes of e's bucket, NaN for an invalid date |
| `SentimentSignals.AgeMinutesTruncates` | Project/finsight/src/app/components/Blocks/SentimentSignals.js:73-104 | the key read back is at most floor(ms / 60000) and less than a day below it; 0 for "just now" |
| `SentimentSignals.AgeMinutesMonotone` | Project/finsight/src/app/components/Blocks/SentimentSignals.js:73-104 | an older article never reads back as fewer minutes |
| `SentimentSignals.Compare` | Project/finsight/src/app/components/Blocks/SentimentSignals.js:50-54 | timeA - timeB: 0 when either is NaN, otherwise not positive exactly when the first is not later |
| `SentimentSignals.RowOrderAntisymmetric` | Project/finsight/src/app/components/Blocks/SentimentSignals.js:50-54 | the row comparator is antisymmetric |
| `SentimentSignals.RowOrderTransitive` | Project/finsight/src/app/components/Blocks/SentimentSignals.js:50-54 | without NaN keys the row comparator is transitive |
| `SentimentSignals.FirstNonNeutral` | Project/finsight/src/app/components/Blocks/SentimentSignals.js:31-32 | find: the first non-neutral article, none when all are neutral |
| `SentimentSignals.SignificantArticle` | Project/finsight/src/app/components/Blocks/SentimentSignals.js:31-33 | the first non-neutral article, else the first, none only for no articles |
| `SentimentSignals.SentimentSymbol` | Project/finsight/src/app/components/Blocks/SentimentSignals.js:36-37 | "+" exactly for bullish, "-" exactly for bearish, "~" otherwise |
| `SentimentSignals.TransformRow` | Project/finsight/src/app/components/Blocks/SentimentSignals.js:29-47 | the row's stock, symbol, the significant article's age text and confidence (0 and "NaN days" without one); its text always parses |
| `SentimentSignals.TransformedData` | Project/finsight/src/app/components/Blocks/SentimentSignals.js:29-47 | one row per tracked stock, in order |
| `SentimentSignals.DatedRowsSorted` | Project/finsight/src/app/components/Blocks/SentimentSignals.js:50-54 | with every shown date valid, rows in neighbour order are fully sorted |
| `SentimentSignals.LoadSignals` | Project/finsight/src/app/components/Blocks/SentimentSignals.js:29-54 | the stable sort of the transformed rows: a permutation in neighbour order, rows whose timestamps read back alike in their transformed order, fully ascending by minutes when every date is valid |
| `SentimentSignals.SameKeyTies` | Project/finsight/src/app/components/Blocks/SentimentSignals.js:50-54 | rows whose timestamps read back alike compare 0 |
| `ArraySort.AdjacentOrderedSorted` | Project/finsight/src/app/components/Blocks/MLStockRecommendations.js:61 | with a transitive comparator, neighbour order is full order |
| `ArraySort.InsertPos` | Project/finsight/src/app/components/Blocks/SentimentSignals.js:50-54 | an element is inserted just after the last element that does not compare greater, so it passes only greater elements |
| `ArraySort.Insert` | Project/finsight/src/app/components/Blocks/SentimentSignals.js:50-54 | insertion adds exactly that element |
| `ArraySort.InsertionSorted` | Project/finsight/src/app/components/Blocks/SentimentSignals.js:50-54 | the sorted order is a permutation of the input |
| `ArraySort.InsertOrdered` | Project/finsight/src/app/components/Blocks/SentimentSignals.js:50-54 | inserting into a sequence in neighbour order keeps neighbour order |
| `ArraySort.InsertionSortedOrdered` | Project/finsight/src/app/components/Blocks/SentimentSignals.js:50-54 | the sorted order has every neighbour pair in order |
| `ArraySort.FilterAppend` | Project/finsight/src/app/components/Blocks/SentimentSignals.js:50-54 | selecting from a concatenation selects from each part |
| `ArraySort.InsertStable` | Project/finsight/src/app/components/Blocks/SentimentSignals.js:50-54 | an insertion keeps the order of the tied elements and puts the new one after them |
| `ArraySort.InsertionSortedStable` | Project/finsight/src/app/components/Blocks/MLStockRecommendations.js:61 | stability: elements of a class that never compares positive within itself keep their input order |
| `ArraySort.Inserted` | Project/finsight/src/app/components/Blocks/SentimentSignals.js:50-54 | where the insertion loop stops, the prefix is the insertion of the element |
| `ArraySort.InsertLast` | Project/finsight/src/app/components/Blocks/SentimentSignals.js:50-54 | moving one element left past greater neighbours inserts it into the prefix and leaves the rest |
| `ArraySort.SortBy` | Project/finsight/src/app/components/Blocks/SentimentSignals.js:50-54 | Array.prototype.sort in place: the stable insertion order of the old contents, a permutation with every neighbour pair in order |
| `Recommendations.ActionOf` | Project/finsight/src/app/components/Blocks/MLStockRecommendations.js:43-49 | Buy exactly on buy and pred > 0.02, else Sell exactly below -0.02, else Hold |
| `Recommendations.RoundedTenths` | Project/finsight/src/app/components/Blocks/MLStockRecommendations.js:53 | toFixed(1): the tenths nearest to the size, ties up |
| `Recommendations.ChangeTextShape` | Project/finsight/src/app/components/Blocks/MLStockRecommendations.js:53 | the sign, the percent rounded to a tenth, and "%" |
| `Recommendations.ChangeTextSign` | Project/finsight/src/app/components/Blocks/MLStockRecommendations.js:53 | starts with "+" exactly when pred >= 0, with "-" exactly when negative |
| `Recommendations.ActionMatchesChange` | Project/finsight/src/app/components/Blocks/MLStockRecommendations.js:43-53 | a Buy shows "+", a Sell "-" |
| `Recommendations.ArrivedIndices` | Project/finsight/src/app/components/Blocks/MLStockRecommendations.js:33-58 | the positions of the replies that arrived, increasing, all of them |
| `Recommendations.ArrivedIndicesCount` | Project/finsight/src/app/components/Blocks/MLStockRecommendations.js:33-58 | one position per arrived reply |
| `Recommendations.BuildRecommendations` | Project/finsight/src/app/components/Blocks/MLStockRecommendations.js:33-58 | one recommendation per arrived reply, under the symbol at its own index |
| `Recommendations.BuildRecommendationsComplete` | Project/finsight/src/app/components/Blocks/MLStockRecommendations.js:22-58 | as many rows as replies arrived, each arrived reply present |
| `Recommendations.LoadRecommendations` | Project/finsight/src/app/components/Blocks/MLStockRecommendations.js:33-61 | the stable sort of the built recommendations: a permutation descending by predicted return, equal returns in the order the replies arrived |
| `NewsFeed.GetSentimentClass` | Project/finsight/src/app/components/Blocks/NewsFeed.js:7-12 | three distinct classes for bullish, bearish, neutral; none for anything else |
| `NewsFeed.NumberThenUnit` | Project/finsight/src/app/components/Blocks/NewsFeed.js:66-69 | a rendered number and unit read back as the number |
| `NewsFeed.OtherUnit` | Project/finsight/src/app/components/Blocks/NewsFeed.js:66-69 | a text with one unit never reads as another |
| `NewsFeed.TimestampReadsBack` | Project/finsight/src/app/components/Blocks/NewsFeed.js:56-69 | every age text reads back as the bucket it was made from |
| `NewsFeed.SameTextSameAge` | Project/finsight/src/app/components/Blocks/NewsFeed.js:56-69 | two times show the same text exactly when they fall in the same bucket |
| `NewsFeed.Capitalize` | Project/finsight/src/app/components/Blocks/NewsFeed.js:32 | only the first character is upper-cased |
| `NewsFeed.CapitalizeLower` | Project/finsight/src/app/components/Blocks/NewsFeed.js:32 | lower-casing the capitalised text gives the lower-cased original |
| `NewsFeed.TransformNews` | Project/finsight/src/app/components/Blocks/NewsFeed.js:29-37 | one item per article, in order, id its index |
| `NewsFeed.ItemClassOfArticle` | Project/finsight/src/app/components/Blocks/NewsFeed.js:32-109 | an item is drawn with its article's sentiment class; a lower-case sentiment gets its own class back |

## Left out

- `StockQuote.Quote` leaves out the `company`, `volume`, `fiftyTwoWeekHigh`, `fiftyTwoWeekLow`, `marketCap` and `timestamp` fields of the reply (server.py:204-214); the 500 that `int(hist['Volume'].iloc[-1])` raises on a missing (NaN) volume is therefore not modelled either.
- `Panel.Record` dates are whole day numbers (daily bars): pandas' ordering by time of day within one day is not modelled, and rows of one ticker on the same day keep their input order.
- Reading parquet files, RSS feeds, HTTP requests and responses, JSON, printing, plotting, CSV output and the CLI argument parsing are I/O. Tables, feeds, request fields and classifier results are parameters.
- `fit_pipe` is not modelled: the scaler and linear regression are a given function from the lag features to a model. The per-fold RMSEs (TimeSeriesSplit, fitting, mean_squared_error) are given as a sequence.
- Square roots are a parameter `sqrt`. Floats are real numbers; rounding error and overflow are not modelled.
- The rounding of reply numbers is not modelled: `round(..., 2)` on prices and changes (Project/server.py:205-224), and `round(..., 3)` on each article's confidence and on the average sentimentScore (Project/server.py:471, :515). `NewsSentiment.Articles` and `NewsSentiment.Report` carry the unrounded values.
- `StockQuote.GetStockData` takes the outcome of `run_forecast(ticker, lags=10, horizon=5, per_rows=5000)` as its `forecast` parameter rather than computing it. `Pipeline.RunForecast` models that call.
- The exception np.polyfit raises on a one-point forecast is reported as the error value `SinglePointFit`; its type and message are not modelled.
- `Backtest.BacktestRmse`: TimeSeriesSplit raising for n_splits < 2 or too few rows is not modelled; the fold RMSEs are given.
- `Pipeline.RunForecast`: a negative `horizon` is not modelled; `horizon` is a natural number.
- Lower- and upper-casing and whitespace stripping cover ASCII only.
- Date parsing (`pd.to_datetime`, `new Date`) and Python's `float()` on text are given functions. A missing cell is always NaT for `pd.to_datetime`.
- `Pipeline.FloatOf`: a text close that `float()` reads as nan or inf has no real value here. `toFloat` reports such a text as not convertible, where the source would go on with a NaN or infinite close.
- `Panel.SortByKey`: pandas raises TypeError when sorting a ticker column that mixes day stamps with other kinds. The model orders stamps after text instead. (A parquet column holds one type, so such a mix does not arise from a file.)
- `Pipeline.FloatCloses`: the error names an unconvertible cell of the column. Which cell pandas' message names is not modelled.
- Duplicate column names after normalisation are not modelled.
- `api_server.py`, the `/api/stock/forecast`, `/api/portfolio` and `/api/health` endpoints are not part of this model.
- `get_news_sentiment` reads `entry.title` and `entry.link` as always present. A missing link would raise after the totals were updated; that partial update is not modelled.
- `FinbertScript` and `SentimentScript` also take `entry.title` and `entry.link` as always present (finbert.py:31-32, sentiment_test.py:33 and :38); an entry missing either would stop those scripts, which the models do not report.
- The server's model loading, its error printing and the reply timestamps are left out.
- JavaScript's `parseInt` on leading whitespace or hex prefixes is not modelled; the model reads an optional sign and then a leading run of decimal digits.
- The relative order that `Array.prototype.sort` gives to rows with a NaN key is implementation-defined. `SentimentSignals.LoadSignals` follows the stable insertion order there; it promises full order only when every date is valid.
- `Recommendations.LoadRecommendations`: `pred_return_h` is taken to be finite (an infinite or NaN return does not survive JSON).
- `Recommendations.RoundedTenths`: `toFixed` above 1e21 switches to exponent notation; not modelled.
- `Promise.all`, the axios calls in `lib/api.js` and React state are not modelled: replies are given, a failed forecast request is `None`.
- The components' `catch` branches (e.g. "N/A" from `formatTimestamp`) are not reachable in the model because the date function never throws.
