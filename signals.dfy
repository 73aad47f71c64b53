/**
 * The "Sentiment Signals" panel: one row per tracked stock, built from the
 * news endpoint's reply for that stock, then sorted by the age of the
 * article the row shows. The age is rendered as text ("12 min",
 * "3 hours") and the sort reads it back into minutes, so the order of the
 * rows is only as fine as that text.
 *
 * The replies are given (one per tracked stock, in order), and the clock
 * and the date parser are a function `elapsed` from a published date to
 * the milliseconds since then (`None` for a date JavaScript cannot parse).
 */
module SentimentSignals {
  import opened Wrappers
  import opened Strings
  import opened RelativeTime
  import opened NewsSentiment
  import opened ArraySort

  /** The tickers the panel tracks, in the order it requests them. */
  const StocksToTrack: seq<string> := ["TSLA", "NFLX", "GOOG", "AMZN", "AAPL", "MSFT"]

  const SignalSource: string := "Yahoo Finance"

  /** One row of the panel. */
  datatype SignalRow = SignalRow(
    stock: string, sentiment: string, source: string, timestamp: string,
    confidence: real, overallSentiment: string)

  /** The age text of a row (no " ago": the panel prints "just now", "12 min", "1 day"). */
  function FormatTimestamp(elapsed: Option<int>): string {
    match AgeOf(elapsed)
    case JustNow => "just now"
    case MinutesAgo(n) => NatToString(n) + " min"
    case HoursAgo(h) => NatToString(h) + " hours"
    case OneDay => "1 day"
    case DaysAgo(d) => NatToString(d) + " days"
    case NaNDays => "NaN days"
  }

  /** What the sort compares: a number of minutes, Infinity, or NaN. */
  datatype SortKey = Minutes(m: int) | Infinite | NaNKey

  /** parseInt(...) times a unit factor; NaN stays NaN. */
  function Scaled(value: Option<int>, factor: int): SortKey {
    match value
    case None => NaNKey
    case Some(v) => Minutes(v * factor)
  }

  /**
   * parseTimestamp: an empty text or "N/A" sorts last; otherwise the number
   * before the first space is scaled by the unit after it (minutes, hours,
   * days), and any other unit counts as 0 minutes. A text without a space
   * has no unit, and reading its prefix throws a TypeError (`None`).
   */
  function ParseTimestamp(t: string): Option<SortKey> {
    if t == "" || t == "N/A" then Some(Infinite)
    else
      var parts := SplitOn(t, ' ');
      if |parts| < 2 then None
      else
        var value := ParseInt(parts[0]);
        var unit := parts[1];
        if "min" <= unit then Some(Scaled(value, 1))
        else if "hour" <= unit then Some(Scaled(value, 60))
        else if "day" <= unit then Some(Scaled(value, 1440))
        else Some(Minutes(0))
  }

  /** The minutes an age reads back as. */
  function AgeMinutes(age: Age): int
    requires age != NaNDays
  {
    match age
    case JustNow => 0
    case MinutesAgo(n) => n
    case HoursAgo(h) => 60 * h
    case OneDay => 1440
    case DaysAgo(d) => 1440 * d
  }

  /** The key an age reads back as. */
  function AgeKey(age: Age): SortKey {
    if age == NaNDays then NaNKey else Minutes(AgeMinutes(age))
  }

  /** A text whose first character differs from a unit's does not start with it. */
  lemma NotUnitPrefix(unit: string, word: string)
    requires |unit| > 0 && |word| > 0 && unit[0] != word[0]
    ensures !(unit <= word)
  {
  }

  /** A number, a space and a unit split into the two and read the number back. */
  lemma NumberAndUnit(n: nat, unit: string)
    requires ' ' !in unit
    ensures SplitOn(NatToString(n) + " " + unit, ' ') == [NatToString(n), unit]
    ensures ParseInt(NatToString(n)) == Some(n)
  {
    var digits := NatToString(n);
    assert ' ' !in digits by {
      assert forall i :: 0 <= i < |digits| ==> IsDigit(digits[i]);
    }
    assert digits + " " + unit == digits + [' '] + unit;
    SplitOnOneSep(digits, unit, ' ');
    ParseIntNatToString(n);
  }

  /** A number followed by a unit the parser knows reads back as the number scaled by the unit. */
  lemma NumberUnitRoundTrip(n: nat, unit: string, factor: int)
    requires ' ' !in unit && |unit| > 0
    requires factor == 1 ==> "min" <= unit
    requires factor == 60 ==> !("min" <= unit) && "hour" <= unit
    requires factor == 1440 ==> !("min" <= unit) && !("hour" <= unit) && "day" <= unit
    requires factor == 1 || factor == 60 || factor == 1440
    ensures ParseTimestamp(NatToString(n) + " " + unit) == Some(Minutes(n * factor))
  {
    var t := NatToString(n) + " " + unit;
    assert t != "" && t != "N/A" by {
      assert |t| >= 3 && t[|NatToString(n)|] == ' ';
      assert ' ' !in "N/A";
    }
    NumberAndUnit(n, unit);
  }

  /** "just now" has no number and an unknown unit: it reads back as 0 minutes. */
  lemma JustNowRoundTrip()
    ensures ParseTimestamp("just now") == Some(Minutes(0))
  {
    assert "just now" == "just" + [' '] + "now";
    SplitOnOneSep("just", "now", ' ');
    assert ParseInt("just") == None by {
      assert DigitRun("just") == 0;
    }
    NotUnitPrefix("min", "now");
    NotUnitPrefix("hour", "now");
    NotUnitPrefix("day", "now");
  }

  /** "NaN days" has the unit of days but no number: it reads back as NaN. */
  lemma NaNDaysRoundTrip()
    ensures ParseTimestamp("NaN days") == Some(NaNKey)
  {
    assert "NaN days" == "NaN" + [' '] + "days";
    SplitOnOneSep("NaN", "days", ' ');
    assert ParseInt("NaN") == None by {
      assert DigitRun("NaN") == 0;
    }
    NotUnitPrefix("min", "days");
    NotUnitPrefix("hour", "days");
    assert "day" <= "days";
  }

  /** "N min" reads back as N minutes. */
  lemma MinutesRoundTrip(n: nat)
    ensures ParseTimestamp(NatToString(n) + " min") == Some(Minutes(n))
  {
    assert "min" <= "min";
    NumberUnitRoundTrip(n, "min", 1);
    assert NatToString(n) + " min" == NatToString(n) + " " + "min";
  }

  /** "H hours" reads back as 60 H minutes. */
  lemma HoursRoundTrip(h: nat)
    ensures ParseTimestamp(NatToString(h) + " hours") == Some(Minutes(60 * h))
  {
    NotUnitPrefix("min", "hours");
    assert "hour" <= "hours";
    NumberUnitRoundTrip(h, "hours", 60);
    assert NatToString(h) + " hours" == NatToString(h) + " " + "hours";
  }

  /** "1 day" reads back as 1440 minutes. */
  lemma OneDayRoundTrip()
    ensures ParseTimestamp("1 day") == Some(Minutes(1440))
  {
    NotUnitPrefix("min", "day");
    NotUnitPrefix("hour", "day");
    assert "day" <= "day";
    NumberUnitRoundTrip(1, "day", 1440);
    assert NatToString(1) == "1";
    assert "1 day" == NatToString(1) + " " + "day";
  }

  /** "D days" reads back as 1440 D minutes. */
  lemma DaysRoundTrip(d: nat)
    ensures ParseTimestamp(NatToString(d) + " days") == Some(Minutes(1440 * d))
  {
    NotUnitPrefix("min", "days");
    NotUnitPrefix("hour", "days");
    assert "day" <= "days";
    NumberUnitRoundTrip(d, "days", 1440);
    assert NatToString(d) + " days" == NatToString(d) + " " + "days";
  }

  /** Every text the panel writes reads back as the minutes of its age, and NaN for an invalid date. */
  lemma TimestampRoundTrip(elapsed: Option<int>)
    ensures ParseTimestamp(FormatTimestamp(elapsed)) == Some(AgeKey(AgeOf(elapsed)))
  {
    match AgeOf(elapsed)
    case JustNow => JustNowRoundTrip();
    case MinutesAgo(n) => MinutesRoundTrip(n);
    case HoursAgo(h) => HoursRoundTrip(h);
    case OneDay => OneDayRoundTrip();
    case DaysAgo(d) => DaysRoundTrip(d);
    case NaNDays => NaNDaysRoundTrip();
  }

  /**
   * The minutes read back are the elapsed whole minutes truncated to the
   * unit shown: never more than the elapsed minutes and less than a day
   * below them.
   */
  lemma AgeMinutesTruncates(ms: int)
    ensures AgeOf(Some(ms)) == JustNow ==> AgeMinutes(AgeOf(Some(ms))) == 0
    ensures ms >= MsPerMinute ==>
      ms / MsPerMinute - 1440 < AgeMinutes(AgeOf(Some(ms))) <= ms / MsPerMinute
  {
    NestedFloors(ms);
  }

  /** An older article never reads back as fewer minutes than a newer one. */
  lemma AgeMinutesMonotone(ms1: int, ms2: int)
    requires ms1 <= ms2
    ensures AgeMinutes(AgeOf(Some(ms1))) <= AgeMinutes(AgeOf(Some(ms2)))
  {
    NestedFloors(ms1);
    NestedFloors(ms2);
    var m1 := ms1 / MsPerMinute;
    var m2 := ms2 / MsPerMinute;
    assert m1 <= m2;
    assert m1 / 60 <= m2 / 60;
    assert m1 / 60 / 24 <= m2 / 60 / 24;
  }

  /**
   * The sign of `timeA - timeB`: negative puts the first row first. A
   * difference that is NaN (a NaN key, or Infinity minus Infinity) counts as 0.
   */
  function Compare(x: SortKey, y: SortKey): (c: real)
    ensures x.NaNKey? || y.NaNKey? ==> c == 0.0
    ensures x.Minutes? && y.Minutes? ==> (c <= 0.0 <==> x.m <= y.m)
  {
    match (x, y)
    case (Minutes(a), Minutes(b)) => (a - b) as real
    case (Infinite, Minutes(_)) => 1.0
    case (Minutes(_), Infinite) => -1.0
    case _ => 0.0
  }

  /** A positive comparison, read the other way round, is negative. */
  lemma CompareAntisymmetric(x: SortKey, y: SortKey)
    requires Compare(x, y) > 0.0
    ensures Compare(y, x) < 0.0
  {
  }

  /** Without NaN, `Compare(x, y) <= 0` is a total order: transitive. */
  lemma CompareTransitive(x: SortKey, y: SortKey, z: SortKey)
    requires !y.NaNKey?
    requires Compare(x, y) <= 0.0 && Compare(y, z) <= 0.0
    requires !x.NaNKey? && !z.NaNKey?
    ensures Compare(x, z) <= 0.0
  {
  }

  /** The key of a row; every row the panel builds parses (see `TransformRow`). */
  function RowKey(r: SignalRow): SortKey {
    ParseTimestamp(r.timestamp).GetOr(NaNKey)
  }

  predicate Parses(r: SignalRow) {
    ParseTimestamp(r.timestamp).Some?
  }

  /** The comparator `(a, b) => parseTimestamp(a.timestamp) - parseTimestamp(b.timestamp)`. */
  function RowOrder(x: SignalRow, y: SignalRow): real {
    Compare(RowKey(x), RowKey(y))
  }

  lemma RowOrderAntisymmetric()
    ensures Antisymmetric(RowOrder)
  {
    forall x, y | RowOrder(x, y) > 0.0
      ensures RowOrder(y, x) < 0.0
    {
      CompareAntisymmetric(RowKey(x), RowKey(y));
    }
  }

  /** Rows without a NaN key are ordered transitively. */
  lemma RowOrderTransitive(s: seq<SignalRow>)
    requires forall i :: 0 <= i < |s| ==> !RowKey(s[i]).NaNKey?
    ensures TransitiveOn(s, RowOrder)
  {
    forall i, j, k |
      0 <= i < |s| && 0 <= j < |s| && 0 <= k < |s| && RowOrder(s[i], s[j]) <= 0.0 && RowOrder(s[j], s[k]) <= 0.0
      ensures RowOrder(s[i], s[k]) <= 0.0
    {
      CompareTransitive(RowKey(s[i]), RowKey(s[j]), RowKey(s[k]));
    }
  }

  /** articles.find(a => a.sentiment !== 'neutral'): the index of the first non-neutral article. */
  function FirstNonNeutral(articles: seq<ArticleSentiment>): (r: Option<nat>)
    ensures r.Some? ==> r.value < |articles| && articles[r.value].sentiment != "neutral"
    ensures r.Some? ==> forall k :: 0 <= k < r.value ==> articles[k].sentiment == "neutral"
    ensures r.None? ==> forall k :: 0 <= k < |articles| ==> articles[k].sentiment == "neutral"
  {
    if |articles| == 0 then None
    else if articles[0].sentiment != "neutral" then Some(0)
    else
      match FirstNonNeutral(articles[1..])
      case None => None
      case Some(i) => Some(i + 1)
  }

  /** The article a row shows: the first non-neutral one, else the first one, else none. */
  function SignificantArticle(articles: seq<ArticleSentiment>): (r: Option<ArticleSentiment>)
    ensures r.None? <==> |articles| == 0
    ensures r.Some? && r.value.sentiment == "neutral" ==>
      r.value == articles[0] && forall k :: 0 <= k < |articles| ==> articles[k].sentiment == "neutral"
    ensures r.Some? && r.value.sentiment != "neutral" ==>
      exists i :: 0 <= i < |articles| && articles[i] == r.value &&
        forall k :: 0 <= k < i ==> articles[k].sentiment == "neutral"
  {
    match FirstNonNeutral(articles)
    case Some(i) => Some(articles[i])
    case None => if |articles| > 0 then Some(articles[0]) else None
  }

  /** "+" for bullish, "-" for bearish, "~" for anything else. */
  function SentimentSymbol(overall: string): (sym: string)
    ensures sym == "+" <==> overall == "bullish"
    ensures sym == "-" <==> overall == "bearish"
    ensures sym == "~" <==> overall != "bullish" && overall != "bearish"
  {
    if overall == "bullish" then "+" else if overall == "bearish" then "-" else "~"
  }

  /** The row for one stock. A missing article has an undefined date, which is an invalid one. */
  function TransformRow(stock: string, report: NewsReport, elapsed: string -> Option<int>): (row: SignalRow)
    ensures row.stock == stock && row.overallSentiment == report.overallSentiment
    ensures row.sentiment == SentimentSymbol(report.overallSentiment)
    ensures Parses(row)
    ensures |report.articles| == 0 ==> row.timestamp == "NaN days" && row.confidence == 0.0
    ensures |report.articles| > 0 ==>
      var art := SignificantArticle(report.articles).value;
      row.timestamp == FormatTimestamp(elapsed(art.published)) && row.confidence == art.confidence
  {
    var art := SignificantArticle(report.articles);
    var published := match art case None => None case Some(x) => elapsed(x.published);
    TimestampRoundTrip(published);
    SignalRow(stock, SentimentSymbol(report.overallSentiment), SignalSource,
      FormatTimestamp(published), match art case None => 0.0 case Some(x) => x.confidence,
      report.overallSentiment)
  }

  /** results.map(...): one row per tracked stock, in the tracked order. */
  function TransformedData(reports: seq<NewsReport>, elapsed: string -> Option<int>): (rows: seq<SignalRow>)
    requires |reports| == |StocksToTrack|
    ensures |rows| == |StocksToTrack|
    ensures forall i :: 0 <= i < |rows| ==> rows[i] == TransformRow(StocksToTrack[i], reports[i], elapsed)
  {
    seq(|StocksToTrack|, i requires 0 <= i < |StocksToTrack| => TransformRow(StocksToTrack[i], reports[i], elapsed))
  }

  /** Every stock has an article, and every shown article has a date JavaScript can parse. */
  ghost predicate Dated(reports: seq<NewsReport>, elapsed: string -> Option<int>) {
    forall i :: 0 <= i < |reports| ==> DatedReport(reports[i], elapsed)
  }

  ghost predicate DatedReport(report: NewsReport, elapsed: string -> Option<int>) {
    |report.articles| > 0 && elapsed(SignificantArticle(report.articles).value.published).Some?
  }

  /** The row of a stock whose shown article has a valid date has a key that is not NaN. */
  lemma DatedRowKey(reports: seq<NewsReport>, elapsed: string -> Option<int>, m: nat)
    requires |reports| == |StocksToTrack| && m < |reports|
    requires DatedReport(reports[m], elapsed)
    ensures !RowKey(TransformedData(reports, elapsed)[m]).NaNKey?
  {
    var art := SignificantArticle(reports[m].articles).value;
    TimestampRoundTrip(elapsed(art.published));
  }

  /** With every shown date valid, no row has a NaN key, so rows in neighbour order are fully sorted. */
  lemma DatedRowsSorted(reports: seq<NewsReport>, elapsed: string -> Option<int>, rows: seq<SignalRow>)
    requires |reports| == |StocksToTrack|
    requires Dated(reports, elapsed)
    requires multiset(rows) == multiset(TransformedData(reports, elapsed))
    requires AdjacentOrdered(rows, RowOrder)
    ensures Sorted(rows, RowOrder)
  {
    var data := TransformedData(reports, elapsed);
    forall k | 0 <= k < |rows|
      ensures !RowKey(rows[k]).NaNKey?
    {
      assert rows[k] in multiset(data);
      var m :| 0 <= m < |data| && data[m] == rows[k];
      DatedRowKey(reports, elapsed, m);
    }
    RowOrderTransitive(rows);
    AdjacentOrderedSorted(rows, RowOrder);
  }

  /** The rows whose timestamp reads back as the key k. */
  function SameKey(k: SortKey): SignalRow -> bool {
    (r: SignalRow) => RowKey(r) == k
  }

  /** Rows with the same key tie: the comparator never puts one after another. */
  lemma SameKeyTies(s: seq<SignalRow>, k: SortKey)
    ensures forall x, y :: x in s && y in s && SameKey(k)(x) && SameKey(k)(y) ==> RowOrder(x, y) <= 0.0
  {
    assert Compare(k, k) == 0.0;
  }

  /**
   * The rows the panel shows: the transformed rows, sorted by the age their
   * text reads back as; rows that read back the same keep their order.
   */
  method LoadSignals(reports: seq<NewsReport>, elapsed: string -> Option<int>) returns (rows: seq<SignalRow>)
    requires |reports| == |StocksToTrack|
    ensures rows == InsertionSorted(TransformedData(reports, elapsed), RowOrder)
    ensures forall k :: Filter(rows, SameKey(k)) == Filter(TransformedData(reports, elapsed), SameKey(k))
    ensures multiset(rows) == multiset(TransformedData(reports, elapsed))
    ensures AdjacentOrdered(rows, RowOrder)
    ensures Dated(reports, elapsed) ==> Sorted(rows, RowOrder)
  {
    var data := TransformedData(reports, elapsed);
    var a := new SignalRow[|data|](i requires 0 <= i < |data| => data[i]);
    assert a[..] == data;
    RowOrderAntisymmetric();
    SortBy(a, RowOrder);
    rows := a[..];
    forall k
      ensures Filter(rows, SameKey(k)) == Filter(data, SameKey(k))
    {
      SameKeyTies(data, k);
      InsertionSortedStable(data, RowOrder, SameKey(k));
    }
    if Dated(reports, elapsed) {
      DatedRowsSorted(reports, elapsed, rows);
    }
  }
}
