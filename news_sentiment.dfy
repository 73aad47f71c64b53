/**
 * The news-sentiment endpoint of the Flask server (`get_news_sentiment`).
 * It reads Yahoo Finance's headline feed for the ticker, keeps the first ten
 * items that mention the keyword, has the classifier read each one and
 * averages the scores into a bullish, bearish or neutral verdict with a
 * fixed recommendation.
 *
 * The classifier is a function from a text to its result; `None` stands
 * for a text on which it raised, which the endpoint skips.
 */
module NewsSentiment {
  import opened Wrappers
  import opened Strings
  import opened Feeds
  import opened Scoring
  import opened Http

  /** Only the first ten feed items are read. */
  const EntryLimit: nat := 10
  /** A summary longer than this is analysed; a shorter one is replaced by the title. */
  const MinSummaryLength: nat := 20
  /** The analysed text is cut to this many characters. */
  const TextLimit: nat := 500
  /** The summary in the reply is cut to this many characters, followed by "...". */
  const SummaryLimit: nat := 200

  /** One article of the reply. */
  datatype ArticleSentiment = ArticleSentiment(
    title: string, link: string, published: string, summary: string,
    sentiment: string, confidence: real)

  /** The JSON body of a successful reply. */
  datatype NewsReport = NewsReport(
    ticker: string, overallSentiment: string, sentimentScore: real,
    articlesAnalyzed: nat, recommendation: string, articles: seq<ArticleSentiment>)

  const FeedUnavailable := HttpError(500, "Unable to fetch news feed")

  /** entry.get('summary', entry.title). */
  function SummaryText(e: Entry): (t: string)
    ensures e.summary.Some? ==> t == e.summary.value
    ensures e.summary.None? ==> t == e.title
  {
    e.summary.GetOr(e.title)
  }

  /** An item is read when the keyword is empty or occurs in its summary text, ignoring case. */
  predicate Mentions(e: Entry, keyword: string) {
    keyword == "" || Contains(Lower(SummaryText(e)), Lower(keyword))
  }

  /** feed.entries[:10]. */
  function FirstEntries(entries: seq<Entry>): (first: seq<Entry>)
    ensures |first| <= EntryLimit && first <= entries
    ensures |entries| <= EntryLimit ==> first == entries
  {
    if |entries| <= EntryLimit then entries else entries[..EntryLimit]
  }

  /**
   * The text given to the classifier: the summary text when it is longer
   * than 20 characters, otherwise the title, and at most its first 500
   * characters.
   */
  function TextToAnalyze(e: Entry): (t: string)
    ensures |t| <= TextLimit
    ensures var chosen := if |SummaryText(e)| > MinSummaryLength then SummaryText(e) else e.title;
      t <= chosen && (|chosen| <= TextLimit ==> t == chosen)
  {
    var text := if |SummaryText(e)| > MinSummaryLength then SummaryText(e) else e.title;
    if |text| > TextLimit then text[..TextLimit] else text
  }

  /** The summary of the reply: unchanged up to 200 characters, otherwise its first 200 and "...". */
  function ShortSummary(s: string): (r: string)
    ensures |r| <= SummaryLimit + 3
    ensures |s| <= SummaryLimit ==> r == s
    ensures |s| > SummaryLimit ==> |r| == SummaryLimit + 3 && r[..SummaryLimit] == s[..SummaryLimit] && r[SummaryLimit..] == "..."
  {
    if |s| > SummaryLimit then s[..SummaryLimit] + "..." else s
  }

  /** POS reads as bullish, NEG as bearish, any other label as neutral. */
  function LabelPolarity(c: Classification): (p: Polarity)
    ensures p == Bullish <==> c.tag == "POS"
    ensures p == Bearish <==> c.tag == "NEG"
    ensures p == Neutral <==> !Counted(c)
  {
    if c.tag == "POS" then Bullish
    else if c.tag == "NEG" then Bearish
    else Neutral
  }

  /** The recommendation of a verdict; with nothing counted there is too little data. */
  function Recommendation(v: Verdict): (text: string)
    ensures v.counted == 0 <==> text == "Insufficient data to make a recommendation."
  {
    if v.counted == 0 then "Insufficient data to make a recommendation."
    else match v.polarity
      case Bullish => "Consider investing in this company."
      case Bearish => "Consider avoiding investment in this company for now."
      case Neutral => "Hold or wait for more information before investing."
  }

  /** An item that was read and classified, with the classifier's result. */
  datatype Analysis = Analysis(entry: Entry, result: Classification)

  /**
   * The items that are read and classified, in feed order: those that
   * mention the keyword and on whose text the classifier did not raise.
   */
  function Analysed(entries: seq<Entry>, keyword: string, classify: string -> Option<Classification>): (a: seq<Analysis>)
    ensures |a| <= |entries|
  {
    if |entries| == 0 then []
    else
      var earlier := Analysed(entries[..|entries| - 1], keyword, classify);
      var e := entries[|entries| - 1];
      if Mentions(e, keyword) && classify(TextToAnalyze(e)).Some? then
        earlier + [Analysis(e, classify(TextToAnalyze(e)).value)]
      else earlier
  }

  /** An analysed item comes from `entries`, mentions the keyword and carries the classifier's result for its text. */
  predicate ReadFrom(x: Analysis, entries: seq<Entry>, keyword: string, classify: string -> Option<Classification>) {
    x.entry in entries && Mentions(x.entry, keyword) && classify(TextToAnalyze(x.entry)) == Some(x.result)
  }

  /** Every analysed item was read from the feed and classified. */
  lemma {:induction false} AnalysedItemsRead(entries: seq<Entry>, keyword: string, classify: string -> Option<Classification>)
    ensures forall i :: 0 <= i < |Analysed(entries, keyword, classify)| ==>
      ReadFrom(Analysed(entries, keyword, classify)[i], entries, keyword, classify)
  {
    if |entries| > 0 {
      var prefix := entries[..|entries| - 1];
      AnalysedItemsRead(prefix, keyword, classify);
      var earlier := Analysed(prefix, keyword, classify);
      var a := Analysed(entries, keyword, classify);
      var e := entries[|entries| - 1];
      if Mentions(e, keyword) && classify(TextToAnalyze(e)).Some? {
        assert a == earlier + [Analysis(e, classify(TextToAnalyze(e)).value)];
      } else {
        assert a == earlier;
      }
      forall i | 0 <= i < |earlier|
        ensures ReadFrom(a[i], entries, keyword, classify)
      {
        assert a[i] == earlier[i];
        assert ReadFrom(earlier[i], prefix, keyword, classify);
      }
    }
  }

  /** With no keyword and a classifier that never raises, every item is analysed, in order. */
  lemma {:induction false} AnalysedEveryEntry(entries: seq<Entry>, classify: string -> Option<Classification>)
    requires forall t :: classify(t).Some?
    ensures |Analysed(entries, "", classify)| == |entries|
    ensures forall i :: 0 <= i < |entries| ==> Analysed(entries, "", classify)[i].entry == entries[i]
  {
    if |entries| > 0 {
      AnalysedEveryEntry(entries[..|entries| - 1], classify);
    }
  }

  function ArticleOf(x: Analysis): ArticleSentiment {
    var e := x.entry;
    ArticleSentiment(e.title, e.link, e.published.GetOr("Unknown"), ShortSummary(SummaryText(e)),
                     PolarityName(LabelPolarity(x.result)), x.result.score)
  }

  function Articles(a: seq<Analysis>): (r: seq<ArticleSentiment>)
    ensures |r| == |a|
  {
    seq(|a|, i requires 0 <= i < |a| => ArticleOf(a[i]))
  }

  function Results(a: seq<Analysis>): (r: seq<Classification>)
    ensures |r| == |a|
  {
    seq(|a|, i requires 0 <= i < |a| => a[i].result)
  }

  /** One more item extends the analysed items by at most that item. */
  lemma AnalysedNext(entries: seq<Entry>, i: nat, keyword: string, classify: string -> Option<Classification>)
    requires i < |entries|
    ensures var e := entries[i];
      if Mentions(e, keyword) && classify(TextToAnalyze(e)).Some? then
        Analysed(entries[..i + 1], keyword, classify) ==
          Analysed(entries[..i], keyword, classify) + [Analysis(e, classify(TextToAnalyze(e)).value)]
      else Analysed(entries[..i + 1], keyword, classify) == Analysed(entries[..i], keyword, classify)
  {
    assert entries[..i + 1][..i] == entries[..i];
  }

  lemma ArticlesAppend(a: seq<Analysis>, x: Analysis)
    ensures Articles(a + [x]) == Articles(a) + [ArticleOf(x)]
    ensures Results(a + [x]) == Results(a) + [x.result]
  {
  }

  /** The three running values of the loop over entries[..i]. */
  ghost predicate ScoredUpTo(entries: seq<Entry>, i: nat, keyword: string, classify: string -> Option<Classification>,
                             articles: seq<ArticleSentiment>, totalScore: real, numArticles: nat)
    requires i <= |entries|
  {
    var a := Analysed(entries[..i], keyword, classify);
    articles == Articles(a) && totalScore == Total(Results(a)) && numArticles == CountedCount(Results(a))
  }

  /** An item that is read and classified adds its article, its contribution and its count. */
  lemma ScoredStep(entries: seq<Entry>, i: nat, keyword: string, classify: string -> Option<Classification>,
                   articles: seq<ArticleSentiment>, totalScore: real, numArticles: nat, c: Classification)
    requires i < |entries| && Mentions(entries[i], keyword) && classify(TextToAnalyze(entries[i])) == Some(c)
    requires ScoredUpTo(entries, i, keyword, classify, articles, totalScore, numArticles)
    ensures ScoredUpTo(entries, i + 1, keyword, classify, articles + [ArticleOf(Analysis(entries[i], c))],
                       totalScore + Contribution(c), numArticles + if Counted(c) then 1 else 0)
  {
    var before := Analysed(entries[..i], keyword, classify);
    AnalysedNext(entries, i, keyword, classify);
    ArticlesAppend(before, Analysis(entries[i], c));
    TotalAppend(Results(before), c);
  }

  /** An item that is skipped changes none of the running values. */
  lemma SkippedStep(entries: seq<Entry>, i: nat, keyword: string, classify: string -> Option<Classification>,
                    articles: seq<ArticleSentiment>, totalScore: real, numArticles: nat)
    requires i < |entries| && !(Mentions(entries[i], keyword) && classify(TextToAnalyze(entries[i])).Some?)
    requires ScoredUpTo(entries, i, keyword, classify, articles, totalScore, numArticles)
    ensures ScoredUpTo(entries, i + 1, keyword, classify, articles, totalScore, numArticles)
  {
    AnalysedNext(entries, i, keyword, classify);
  }

  /** The reply assembled from the analysed items. */
  function Report(ticker: string, a: seq<Analysis>): (r: NewsReport)
    ensures r.articlesAnalyzed <= |r.articles| == |a|
  {
    var v := Aggregate(Results(a));
    NewsReport(ticker, PolarityName(v.polarity), v.score, v.counted, Recommendation(v), Articles(a))
  }

  /**
   * The loop of get_news_sentiment over the first feed items: the articles
   * of the reply, the running total of the scores and the number of POS and
   * NEG results.
   */
  method ScoreEntries(entries: seq<Entry>, keyword: string, classify: string -> Option<Classification>)
    returns (articles: seq<ArticleSentiment>, totalScore: real, numArticles: nat)
    ensures articles == Articles(Analysed(entries, keyword, classify))
    ensures totalScore == Total(Results(Analysed(entries, keyword, classify)))
    ensures numArticles == CountedCount(Results(Analysed(entries, keyword, classify)))
  {
    articles := [];
    totalScore := 0.0;
    numArticles := 0;
    var i := 0;
    while i < |entries|
      invariant 0 <= i <= |entries|
      invariant ScoredUpTo(entries, i, keyword, classify, articles, totalScore, numArticles)
    {
      var entry := entries[i];
      var summaryText := SummaryText(entry);
      if Mentions(entry, keyword) {
        var text := TextToAnalyze(entry);
        var outcome := classify(text);
        if outcome.Some? {
          var sentiment := outcome.value;
          ScoredStep(entries, i, keyword, classify, articles, totalScore, numArticles, sentiment);
          var sentimentLabel: string;
          if sentiment.tag == "POS" {
            sentimentLabel := "bullish";
            totalScore := totalScore + sentiment.score;
          } else if sentiment.tag == "NEG" {
            sentimentLabel := "bearish";
            totalScore := totalScore - sentiment.score;
          } else {
            sentimentLabel := "neutral";
          }
          numArticles := numArticles + if Counted(sentiment) then 1 else 0;
          var summary := if |summaryText| > SummaryLimit then summaryText[..SummaryLimit] + "..." else summaryText;
          var article := ArticleSentiment(entry.title, entry.link, entry.published.GetOr("Unknown"),
                                          summary, sentimentLabel, sentiment.score);
          assert article == ArticleOf(Analysis(entry, sentiment));
          articles := articles + [article];
        } else {
          SkippedStep(entries, i, keyword, classify, articles, totalScore, numArticles);
        }
      } else {
        SkippedStep(entries, i, keyword, classify, articles, totalScore, numArticles);
      }
      i := i + 1;
    }
    assert entries[..i] == entries;
  }

  /**
   * get_news_sentiment. The request's `ticker` and `keyword` fields are the
   * two parameters; `fetch` reads a feed URL and `classify` is the sentiment
   * model.
   */
  method GetNewsSentiment(tickerParam: Option<string>, keywordParam: Option<string>,
                          fetch: string -> Feed, classify: string -> Option<Classification>)
    returns (r: Result<NewsReport, HttpError>)
    ensures TickerParam(tickerParam) == "" <==> r == Failure(MissingTicker)
    ensures TickerParam(tickerParam) != "" && fetch(YahooHeadlineUrl(TickerParam(tickerParam))).bozo <==>
      r == Failure(FeedUnavailable)
    ensures r.Success? ==>
      var ticker := TickerParam(tickerParam);
      var keyword := Lower(keywordParam.GetOr(ticker));
      var entries := FirstEntries(fetch(YahooHeadlineUrl(ticker)).entries);
      r.value == Report(ticker, Analysed(entries, keyword, classify))
    ensures r.Success? ==> |r.value.articles| <= EntryLimit && r.value.articlesAnalyzed <= |r.value.articles|
  {
    var ticker := TickerParam(tickerParam);
    var keyword := Lower(keywordParam.GetOr(ticker));
    if ticker == "" {
      return Failure(MissingTicker);
    }
    var feed := fetch(YahooHeadlineUrl(ticker));
    if feed.bozo {
      return Failure(FeedUnavailable);
    }
    var entries := FirstEntries(feed.entries);
    var articles, totalScore, numArticles := ScoreEntries(entries, keyword, classify);
    ghost var verdict := Aggregate(Results(Analysed(entries, keyword, classify)));
    var finalScore: real;
    var overallSentiment: string;
    var recommendation: string;
    if numArticles > 0 {
      finalScore := totalScore / numArticles as real;
      if finalScore > Threshold {
        overallSentiment := "bullish";
        recommendation := "Consider investing in this company.";
      } else if finalScore < -Threshold {
        overallSentiment := "bearish";
        recommendation := "Consider avoiding investment in this company for now.";
      } else {
        overallSentiment := "neutral";
        recommendation := "Hold or wait for more information before investing.";
      }
    } else {
      finalScore := 0.0;
      overallSentiment := "neutral";
      recommendation := "Insufficient data to make a recommendation.";
    }
    assert finalScore == verdict.score;
    assert overallSentiment == PolarityName(verdict.polarity) && recommendation == Recommendation(verdict);
    r := Success(NewsReport(ticker, overallSentiment, finalScore, numArticles, recommendation, articles));
  }
}
