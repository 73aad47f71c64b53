/**
 * The "News Feed" panel: the news endpoint's articles for one ticker, each
 * shown with its headline, its sentiment capitalised, the source and its
 * age, and a CSS class chosen from the sentiment.
 *
 * The reply is given, and the clock and the date parser are a function
 * `elapsed` from a published date to the milliseconds since then (`None`
 * for a date JavaScript cannot parse).
 */
module NewsFeed {
  import opened Wrappers
  import opened Strings
  import opened RelativeTime
  import opened NewsSentiment

  /** The ticker shown when the page passes none. */
  const DefaultTicker: string := "AAPL"

  const FeedSource: string := "Yahoo Finance"

  /** The style sheet's classes for a sentiment; `NoStyle` is the empty class name. */
  datatype SentimentClass = BullishStyle | BearishStyle | MixedStyle | NoStyle

  /** getSentimentClass: bullish, bearish and neutral have their own classes (neutral is "mixed"); anything else none. */
  function GetSentimentClass(sentiment: string): (c: SentimentClass)
    ensures c == BullishStyle <==> sentiment == "bullish"
    ensures c == BearishStyle <==> sentiment == "bearish"
    ensures c == MixedStyle <==> sentiment == "neutral"
    ensures c == NoStyle <==> sentiment !in {"bullish", "bearish", "neutral"}
  {
    if sentiment == "bullish" then BullishStyle
    else if sentiment == "bearish" then BearishStyle
    else if sentiment == "neutral" then MixedStyle
    else NoStyle
  }

  /** The age text of an item. */
  function FormatTimestamp(elapsed: Option<int>): string {
    match AgeOf(elapsed)
    case JustNow => "just now"
    case MinutesAgo(n) => NatToString(n) + " min ago"
    case HoursAgo(h) => NatToString(h) + " hrs ago"
    case OneDay => "yesterday"
    case DaysAgo(d) => NatToString(d) + " days ago"
    case NaNDays => "NaN days ago"
  }

  /** The whole number written before `suffix`, when `t` is digits followed by it. */
  function NumberBefore(t: string, suffix: string): Option<nat> {
    if |t| > |suffix| && t[|t| - |suffix|..] == suffix && AllDigits(t[..|t| - |suffix|])
    then Some(DigitsValue(t[..|t| - |suffix|]))
    else None
  }

  /**
   * Reads an age text back into the age it shows. Nothing in the panel
   * does this; it is the reference that shows the text loses nothing.
   */
  function ReadAge(t: string): Option<Age> {
    if t == "just now" then Some(JustNow)
    else if t == "yesterday" then Some(OneDay)
    else if t == "NaN days ago" then Some(NaNDays)
    else if NumberBefore(t, " min ago").Some? then Some(MinutesAgo(NumberBefore(t, " min ago").value))
    else if NumberBefore(t, " hrs ago").Some? then Some(HoursAgo(NumberBefore(t, " hrs ago").value))
    else if NumberBefore(t, " days ago").Some? then Some(DaysAgo(NumberBefore(t, " days ago").value))
    else None
  }

  /** A rendered number followed by a unit text: it starts with a digit, and the number reads back. */
  lemma NumberThenUnit(n: nat, suffix: string)
    requires |suffix| > 0 && !IsDigit(suffix[0])
    ensures var t := NatToString(n) + suffix;
      IsDigit(t[0]) && NumberBefore(t, suffix) == Some(n)
  {
    var d := NatToString(n);
    var t := d + suffix;
    assert t[0] == d[0];
    assert t[..|t| - |suffix|] == d;
    assert t[|t| - |suffix|..] == suffix;
    DigitsValueOfNatToString(n);
  }

  /** A text that ends in one unit is not digits followed by another unit of the same length or one longer. */
  lemma OtherUnit(n: nat, suffix: string, other: string)
    requires |suffix| > 0 && !IsDigit(suffix[0])
    requires |other| <= |suffix|
    requires suffix[|suffix| - |other|..] != other
    ensures NumberBefore(NatToString(n) + suffix, other).None?
  {
    var d := NatToString(n);
    var t := d + suffix;
    var k := |other|;
    assert t[|t| - k..] == suffix[|suffix| - k..] by {
      forall j | |d| <= j < |t|
        ensures t[j] == suffix[j - |d|]
      {
      }
    }
  }

  /** A text that starts with a digit is none of the fixed texts. */
  lemma NotFixedText(t: string)
    requires |t| > 0 && IsDigit(t[0])
    ensures t != "just now" && t != "yesterday" && t != "NaN days ago"
  {
  }

  /** The age text reads back as exactly the age it was made from, so different ages never look alike. */
  lemma TimestampReadsBack(elapsed: Option<int>)
    ensures ReadAge(FormatTimestamp(elapsed)) == Some(AgeOf(elapsed))
  {
    match AgeOf(elapsed)
    case JustNow =>
    case MinutesAgo(n) =>
      NumberThenUnit(n, " min ago");
      NotFixedText(NatToString(n) + " min ago");
    case HoursAgo(h) =>
      NumberThenUnit(h, " hrs ago");
      NotFixedText(NatToString(h) + " hrs ago");
      OtherUnit(h, " hrs ago", " min ago");
    case OneDay =>
    case DaysAgo(d) =>
      NumberThenUnit(d, " days ago");
      NotFixedText(NatToString(d) + " days ago");
      OtherUnit(d, " days ago", " min ago");
      OtherUnit(d, " days ago", " hrs ago");
    case NaNDays =>
  }

  /** Two elapsed times show the same text exactly when they fall in the same bucket. */
  lemma SameTextSameAge(e1: Option<int>, e2: Option<int>)
    ensures FormatTimestamp(e1) == FormatTimestamp(e2) <==> AgeOf(e1) == AgeOf(e2)
  {
    TimestampReadsBack(e1);
    TimestampReadsBack(e2);
  }

  /** charAt(0).toUpperCase() + slice(1). */
  function Capitalize(s: string): (r: string)
    ensures |r| == |s|
    ensures |s| > 0 ==> r[0] == UpperChar(s[0]) && r[1..] == s[1..]
  {
    if |s| == 0 then "" else [UpperChar(s[0])] + s[1..]
  }

  /** Lower-casing a capitalised text gives the lower-cased original. */
  lemma CapitalizeLower(s: string)
    ensures Lower(Capitalize(s)) == Lower(s)
  {
    var c := Capitalize(s);
    forall i | 0 <= i < |s|
      ensures LowerChar(c[i]) == LowerChar(s[i])
    {
      if i > 0 {
        assert c[i] == c[1..][i - 1] == s[1..][i - 1];
      }
    }
  }

  /** One item of the panel. */
  datatype NewsItem = NewsItem(
    id: nat, headline: string, sentiment: string, source: string,
    timestamp: string, link: string, confidence: real)

  /** data.articles.map((article, index) => ...): one item per article, in order, numbered from 0. */
  function TransformNews(articles: seq<ArticleSentiment>, elapsed: string -> Option<int>): (items: seq<NewsItem>)
    ensures |items| == |articles|
    ensures forall i :: 0 <= i < |items| ==>
      items[i].id == i && items[i].headline == articles[i].title && items[i].link == articles[i].link &&
      items[i].sentiment == Capitalize(articles[i].sentiment) && items[i].source == FeedSource &&
      items[i].timestamp == FormatTimestamp(elapsed(articles[i].published)) &&
      items[i].confidence == articles[i].confidence
  {
    seq(|articles|, i requires 0 <= i < |articles| =>
      var a := articles[i];
      NewsItem(i, a.title, Capitalize(a.sentiment), FeedSource, FormatTimestamp(elapsed(a.published)), a.link, a.confidence))
  }

  /** The class an item is drawn with: getSentimentClass of its sentiment lower-cased. */
  function ItemClass(item: NewsItem): SentimentClass {
    GetSentimentClass(Lower(item.sentiment))
  }

  /**
   * Capitalising for display and lower-casing for the class cancel out: an
   * item is drawn with the class of its article's sentiment, lower-cased,
   * and the server's three sentiments each get their own class.
   */
  lemma ItemClassOfArticle(articles: seq<ArticleSentiment>, elapsed: string -> Option<int>, i: int)
    requires 0 <= i < |articles|
    ensures ItemClass(TransformNews(articles, elapsed)[i]) == GetSentimentClass(Lower(articles[i].sentiment))
    ensures IsLowerCase(articles[i].sentiment) ==>
      ItemClass(TransformNews(articles, elapsed)[i]) == GetSentimentClass(articles[i].sentiment)
  {
    CapitalizeLower(articles[i].sentiment);
    var s := articles[i].sentiment;
    if IsLowerCase(s) {
      assert Lower(s) == s;
    }
  }
}
