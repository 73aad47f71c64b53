/**
 * The command-line sentiment script (Project/sentiment_test.py). It collects
 * the articles that mention a keyword from six RSS feeds, has the classifier
 * read each one, and reports the average score as Positive, Negative or
 * Neutral with a recommendation.
 *
 * Fetching is a function from the feed URL to the parsed feed, and the
 * classifier a function from a text to its result (`None` where it raised).
 * What the script prints is returned as a value.
 */
module SentimentScript {
  import opened Wrappers
  import opened Strings
  import opened Feeds
  import opened Scoring

  /** One collected article and the host of the feed it came from. */
  datatype ScriptArticle = ScriptArticle(title: string, summary: string, link: string, source: string)

  /** What the script reports: articles found, final score, label, articles counted and recommendation. */
  datatype ScriptReport = ScriptReport(
    articlesFound: nat, finalScore: real, sentimentLabel: string, articlesAnalyzed: nat, recommendation: string)

  /** The hosts of the six feeds, in the order they are read. */
  const FeedHosts: seq<string> := [
    "feeds.finance.yahoo.com", "www.marketwatch.com", "www.cnbc.com",
    "www.investing.com", "www.reutersagency.com", "news.google.com"]

  /** The paths of the six feeds; the first names the ticker and the last searches for the keyword. */
  function FeedPaths(ticker: string, keyword: string): (paths: seq<string>)
    ensures |paths| == |FeedHosts|
  {
    ["rss/2.0/headline?s=" + ticker + "&region=US&lang=en-US",
     "rss/topstories",
     "id/100003114/device/rss/rss.html",
     "rss/news.rss",
     "feed/?best-topics=business-finance&post_type=best",
     "rss/search?q=" + keyword + "+stock&hl=en-US&gl=US&ceid=US:en"]
  }

  lemma HostsHaveNoSlash()
    ensures forall i :: 0 <= i < |FeedHosts| ==> '/' !in FeedHosts[i]
  {
    assert '/' !in FeedHosts[0];
    assert '/' !in FeedHosts[1];
    assert '/' !in FeedHosts[2];
    assert '/' !in FeedHosts[3];
    assert '/' !in FeedHosts[4];
    assert '/' !in FeedHosts[5];
  }

  /**
   * The six feed URLs; the first is the ticker's Yahoo Finance headline
   * feed, and url.split("/")[2] of each is the host of that feed.
   */
  function RssFeeds(ticker: string, keyword: string): (urls: seq<string>)
    ensures |urls| == |FeedHosts|
    ensures urls[0] == YahooHeadlineUrl(ticker)
    ensures forall i :: 0 <= i < |urls| ==> HasSource(urls[i]) && SourceOf(urls[i]) == FeedHosts[i]
  {
    var paths := FeedPaths(ticker, keyword);
    HostsHaveNoSlash();
    UrlListSources(FeedHosts, paths);
    seq(|FeedHosts|, i requires 0 <= i < |FeedHosts| => Url(FeedHosts[i], paths[i]))
  }

  /** (entry.title + " " + entry.get("summary", "")).lower(). */
  function SearchText(e: Entry): string {
    Lower(e.title + " " + e.summary.GetOr(""))
  }

  /** An entry is collected when the lower-cased keyword occurs in its lower-cased title and summary. */
  predicate MentionsKeyword(e: Entry, keyword: string) {
    Contains(SearchText(e), Lower(keyword))
  }

  function ArticleOf(e: Entry, source: string): ScriptArticle {
    ScriptArticle(e.title, e.summary.GetOr(""), e.link, source)
  }

  /** The articles collected from one feed's entries, in entry order. */
  function EntryArticles(entries: seq<Entry>, keyword: string, source: string): (articles: seq<ScriptArticle>)
    ensures |articles| <= |entries|
  {
    if |entries| == 0 then []
    else
      var e := entries[|entries| - 1];
      EntryArticles(entries[..|entries| - 1], keyword, source) +
        if MentionsKeyword(e, keyword) then [ArticleOf(e, source)] else []
  }

  /** The articles collected from the feeds, in feed order; a feed that fails to parse adds none. */
  function FeedArticles(urls: seq<string>, keyword: string, fetch: string -> Feed): seq<ScriptArticle>
    requires forall i :: 0 <= i < |urls| ==> HasSource(urls[i])
  {
    if |urls| == 0 then []
    else
      var url := urls[|urls| - 1];
      var feed := fetch(url);
      FeedArticles(urls[..|urls| - 1], keyword, fetch) +
        if feed.bozo then [] else EntryArticles(feed.entries, keyword, SourceOf(url))
  }

  /** Every collected article mentions the keyword, and its source is the host of the feed it came from. */
  lemma {:induction false} EntryArticlesMention(entries: seq<Entry>, keyword: string, source: string)
    ensures forall i :: 0 <= i < |EntryArticles(entries, keyword, source)| ==>
      EntryArticles(entries, keyword, source)[i].source == source &&
      Contains(Lower(EntryArticles(entries, keyword, source)[i].title + " " + EntryArticles(entries, keyword, source)[i].summary), Lower(keyword))
  {
    if |entries| > 0 {
      EntryArticlesMention(entries[..|entries| - 1], keyword, source);
    }
  }

  /** Every entry of a parsed feed that mentions the keyword is collected when the keyword is in all of them. */
  lemma {:induction false} EntryArticlesAll(entries: seq<Entry>, keyword: string, source: string)
    requires forall i :: 0 <= i < |entries| ==> MentionsKeyword(entries[i], keyword)
    ensures |EntryArticles(entries, keyword, source)| == |entries|
  {
    if |entries| > 0 {
      EntryArticlesAll(entries[..|entries| - 1], keyword, source);
    }
  }

  /** One more entry adds at most its own article. */
  lemma EntryArticlesNext(entries: seq<Entry>, e: nat, keyword: string, source: string)
    requires e < |entries|
    ensures EntryArticles(entries[..e + 1], keyword, source) ==
      EntryArticles(entries[..e], keyword, source) +
        if MentionsKeyword(entries[e], keyword) then [ArticleOf(entries[e], source)] else []
  {
    assert entries[..e + 1][..e] == entries[..e];
  }

  /** The articles after the first e entries of a feed: those collected before it, then the feed's own. */
  ghost predicate CollectedUpTo(entries: seq<Entry>, e: nat, keyword: string, source: string,
                                collected: seq<ScriptArticle>, articles: seq<ScriptArticle>)
    requires e <= |entries|
  {
    articles == collected + EntryArticles(entries[..e], keyword, source)
  }

  /** Entry e adds its article exactly when its title and summary mention the keyword. */
  lemma CollectedStep(entries: seq<Entry>, e: nat, keyword: string, source: string,
                      collected: seq<ScriptArticle>, articles: seq<ScriptArticle>)
    requires e < |entries|
    requires CollectedUpTo(entries, e, keyword, source, collected, articles)
    ensures var x := entries[e];
      CollectedUpTo(entries, e + 1, keyword, source, collected,
        if Contains(Lower(x.title + " " + x.summary.GetOr("")), Lower(keyword))
        then articles + [ScriptArticle(x.title, x.summary.GetOr(""), x.link, source)]
        else articles)
  {
    EntryArticlesNext(entries, e, keyword, source);
  }

  /** One more feed adds the articles of its entries, or none when it fails to parse. */
  lemma FeedArticlesNext(urls: seq<string>, u: nat, keyword: string, fetch: string -> Feed)
    requires u < |urls|
    requires forall i :: 0 <= i < |urls| ==> HasSource(urls[i])
    ensures FeedArticles(urls[..u + 1], keyword, fetch) ==
      FeedArticles(urls[..u], keyword, fetch) +
        if fetch(urls[u]).bozo then [] else EntryArticles(fetch(urls[u]).entries, keyword, SourceOf(urls[u]))
  {
    assert urls[..u + 1][..u] == urls[..u];
  }

  /** get_articles(ticker, keyword). */
  method GetArticles(ticker: string, keyword: string, fetch: string -> Feed) returns (articles: seq<ScriptArticle>)
    ensures articles == FeedArticles(RssFeeds(ticker, keyword), keyword, fetch)
  {
    var rssFeeds := RssFeeds(ticker, keyword);
    articles := [];
    var u := 0;
    while u < |rssFeeds|
      invariant 0 <= u <= |rssFeeds|
      invariant articles == FeedArticles(rssFeeds[..u], keyword, fetch)
    {
      var url := rssFeeds[u];
      var feed := fetch(url);
      FeedArticlesNext(rssFeeds, u, keyword, fetch);
      ghost var collected := articles;
      if !feed.bozo {
        var source := SourceOf(url);
        var e := 0;
        while e < |feed.entries|
          invariant 0 <= e <= |feed.entries|
          invariant CollectedUpTo(feed.entries, e, keyword, source, collected, articles)
        {
          var entry := feed.entries[e];
          CollectedStep(feed.entries, e, keyword, source, collected, articles);
          var text := Lower(entry.title + " " + entry.summary.GetOr(""));
          if Contains(text, Lower(keyword)) {
            articles := articles + [ScriptArticle(entry.title, entry.summary.GetOr(""), entry.link, source)];
          }
          e := e + 1;
        }
        assert feed.entries[..e] == feed.entries;
      }
      u := u + 1;
    }
    assert rssFeeds[..u] == rssFeeds;
  }

  /** entry["summary"] or entry["title"]: the summary unless it is empty. */
  function TextOf(a: ScriptArticle): (t: string)
    ensures t == "" ==> a.title == ""
  {
    if a.summary != "" then a.summary else a.title
  }

  /** The classifier's results on the collected articles, skipping those it raised on. */
  function ScriptResults(articles: seq<ScriptArticle>, classify: string -> Option<Classification>): (cs: seq<Classification>)
    ensures |cs| <= |articles|
  {
    if |articles| == 0 then []
    else
      var outcome := classify(TextOf(articles[|articles| - 1]));
      ScriptResults(articles[..|articles| - 1], classify) + if outcome.Some? then [outcome.value] else []
  }

  /** One more article adds at most the classifier's result on it. */
  lemma ScriptResultsNext(articles: seq<ScriptArticle>, i: nat, classify: string -> Option<Classification>)
    requires i < |articles|
    ensures var outcome := classify(TextOf(articles[i]));
      ScriptResults(articles[..i + 1], classify) ==
        ScriptResults(articles[..i], classify) + if outcome.Some? then [outcome.value] else []
  {
    assert articles[..i + 1][..i] == articles[..i];
  }

  /** The running total and count of the loop over articles[..i]. */
  ghost predicate TalliedUpTo(articles: seq<ScriptArticle>, i: nat, classify: string -> Option<Classification>,
                              totalScore: real, numArticle: nat)
    requires i <= |articles|
  {
    var cs := ScriptResults(articles[..i], classify);
    totalScore == Total(cs) && numArticle == CountedCount(cs)
  }

  /** An article the classifier reads adds its contribution and, for POS or NEG, one to the count. */
  lemma TalliedStep(articles: seq<ScriptArticle>, i: nat, classify: string -> Option<Classification>,
                    totalScore: real, numArticle: nat, c: Classification)
    requires i < |articles| && classify(TextOf(articles[i])) == Some(c)
    requires TalliedUpTo(articles, i, classify, totalScore, numArticle)
    ensures TalliedUpTo(articles, i + 1, classify, totalScore + Contribution(c), numArticle + if Counted(c) then 1 else 0)
  {
    ScriptResultsNext(articles, i, classify);
    TotalAppend(ScriptResults(articles[..i], classify), c);
  }

  /** An article the classifier raises on changes neither. */
  lemma UntalliedStep(articles: seq<ScriptArticle>, i: nat, classify: string -> Option<Classification>,
                      totalScore: real, numArticle: nat)
    requires i < |articles| && classify(TextOf(articles[i])).None?
    requires TalliedUpTo(articles, i, classify, totalScore, numArticle)
    ensures TalliedUpTo(articles, i + 1, classify, totalScore, numArticle)
  {
    ScriptResultsNext(articles, i, classify);
    assert ScriptResults(articles[..i], classify) + [] == ScriptResults(articles[..i], classify);
  }

  /** The recommendation depends on the label alone. */
  function ScriptRecommendation(sentimentLabel: string): (text: string)
    ensures sentimentLabel == "Positive" <==> text == "\U{2705} Consider investing in this company."
    ensures sentimentLabel == "Negative" <==> text == "\U{26A0}\U{FE0F}  Consider avoiding investment for now."
  {
    if sentimentLabel == "Positive" then "\U{2705} Consider investing in this company."
    else if sentimentLabel == "Negative" then "\U{26A0}\U{FE0F}  Consider avoiding investment for now."
    else "\U{1F552} Hold or wait for more information before investing."
  }

  /** The report of a run over the collected articles. */
  function ReportOf(articles: seq<ScriptArticle>, classify: string -> Option<Classification>): (r: ScriptReport)
    ensures r.articlesAnalyzed <= r.articlesFound == |articles|
  {
    var v := Aggregate(ScriptResults(articles, classify));
    var word := PolarityWord(v.polarity);
    ScriptReport(|articles|, v.score, word, v.counted, ScriptRecommendation(word))
  }

  /** The scoring loop of analyze_sentiment: the running total and the number of POS and NEG results. */
  method ScoreArticles(articles: seq<ScriptArticle>, classify: string -> Option<Classification>)
    returns (totalScore: real, numArticle: nat)
    ensures totalScore == Total(ScriptResults(articles, classify))
    ensures numArticle == CountedCount(ScriptResults(articles, classify))
  {
    totalScore := 0.0;
    numArticle := 0;
    var i := 0;
    while i < |articles|
      invariant 0 <= i <= |articles|
      invariant TalliedUpTo(articles, i, classify, totalScore, numArticle)
    {
      var outcome := classify(TextOf(articles[i]));
      if outcome.Some? {
        var sentiment := outcome.value;
        TalliedStep(articles, i, classify, totalScore, numArticle, sentiment);
        if sentiment.tag == "POS" {
          totalScore := totalScore + sentiment.score;
          numArticle := numArticle + 1;
        } else if sentiment.tag == "NEG" {
          totalScore := totalScore - sentiment.score;
          numArticle := numArticle + 1;
        }
      } else {
        UntalliedStep(articles, i, classify, totalScore, numArticle);
      }
      i := i + 1;
    }
    assert articles[..i] == articles;
  }

  /** analyze_sentiment(ticker, keyword). */
  method AnalyzeSentiment(ticker: string, keyword: string, fetch: string -> Feed, classify: string -> Option<Classification>)
    returns (report: ScriptReport)
    ensures report == ReportOf(FeedArticles(RssFeeds(ticker, keyword), keyword, fetch), classify)
  {
    var articles := GetArticles(ticker, keyword, fetch);
    var totalScore, numArticle := ScoreArticles(articles, classify);
    ghost var verdict := Aggregate(ScriptResults(articles, classify));
    var finalScore: real;
    var sentimentLabel: string;
    if numArticle > 0 {
      finalScore := totalScore / numArticle as real;
      if finalScore > Threshold {
        sentimentLabel := "Positive";
      } else if finalScore < -Threshold {
        sentimentLabel := "Negative";
      } else {
        sentimentLabel := "Neutral";
      }
    } else {
      finalScore := 0.0;
      sentimentLabel := "Neutral";
    }
    assert finalScore == verdict.score && sentimentLabel == PolarityWord(verdict.polarity);
    var recommendation: string;
    if sentimentLabel == "Positive" {
      recommendation := "\U{2705} Consider investing in this company.";
    } else if sentimentLabel == "Negative" {
      recommendation := "\U{26A0}\U{FE0F}  Consider avoiding investment for now.";
    } else {
      recommendation := "\U{1F552} Hold or wait for more information before investing.";
    }
    assert recommendation == ScriptRecommendation(sentimentLabel);
    report := ScriptReport(|articles|, finalScore, sentimentLabel, numArticle, recommendation);
  }
}
