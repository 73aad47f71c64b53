/**
 * The module-level trial script Project/finbert.py: it reads the META
 * headline feed, keeps the entries whose summary mentions "meta", has the
 * classifier read each summary and averages the scores into Positive,
 * Negative or Neutral.
 *
 * A feed that fails to parse only prints a warning; its entries are read
 * all the same. The script reads `entry.summary` for every entry and
 * `entry.published` for every kept entry outside any exception handler,
 * so an entry missing either stops the run: the model reports the index of
 * that entry. The title and link it prints for a kept entry are taken to be
 * always present.
 */
module FinbertScript {
  import opened Wrappers
  import opened Strings
  import opened Feeds
  import opened Scoring

  const ScriptTicker := "META"
  const ScriptKeyword := "meta"

  /** The entry's summary mentions the keyword, ignoring case. */
  predicate Mentions(e: Entry)
    requires e.summary.Some?
  {
    Contains(Lower(e.summary.value), Lower(ScriptKeyword))
  }

  /** The run stops at this entry: it has no summary, or it is kept and has no publication date. */
  predicate Stops(e: Entry) {
    e.summary.None? || (Mentions(e) && e.published.None?)
  }

  /** The classifier's results on the kept summaries, in feed order, skipping those it raised on. */
  function FinbertResults(entries: seq<Entry>, classify: string -> Option<Classification>): (cs: seq<Classification>)
    ensures |cs| <= |entries|
  {
    if |entries| == 0 then []
    else
      var e := entries[|entries| - 1];
      FinbertResults(entries[..|entries| - 1], classify) +
        if e.summary.Some? && Mentions(e) && classify(e.summary.value).Some? then [classify(e.summary.value).value] else []
  }

  lemma FinbertResultsNext(entries: seq<Entry>, i: nat, classify: string -> Option<Classification>)
    requires i < |entries|
    ensures var e := entries[i];
      if e.summary.Some? && Mentions(e) && classify(e.summary.value).Some? then
        FinbertResults(entries[..i + 1], classify) == FinbertResults(entries[..i], classify) + [classify(e.summary.value).value]
      else FinbertResults(entries[..i + 1], classify) == FinbertResults(entries[..i], classify)
  {
    assert entries[..i + 1][..i] == entries[..i];
  }

  /** The running total and count of the loop over entries[..i]. */
  ghost predicate TalliedUpTo(entries: seq<Entry>, i: nat, classify: string -> Option<Classification>,
                              totalScore: real, numArticle: nat)
    requires i <= |entries|
  {
    var cs := FinbertResults(entries[..i], classify);
    totalScore == Total(cs) && numArticle == CountedCount(cs)
  }

  /** A kept summary the classifier reads adds its contribution and, for POS or NEG, one to the count. */
  lemma TalliedStep(entries: seq<Entry>, i: nat, classify: string -> Option<Classification>,
                    totalScore: real, numArticle: nat, c: Classification)
    requires i < |entries| && entries[i].summary.Some? && Mentions(entries[i])
    requires classify(entries[i].summary.value) == Some(c)
    requires TalliedUpTo(entries, i, classify, totalScore, numArticle)
    ensures TalliedUpTo(entries, i + 1, classify, totalScore + Contribution(c), numArticle + if Counted(c) then 1 else 0)
  {
    FinbertResultsNext(entries, i, classify);
    TotalAppend(FinbertResults(entries[..i], classify), c);
  }

  /** Any other entry with a summary changes neither. */
  lemma UntalliedStep(entries: seq<Entry>, i: nat, classify: string -> Option<Classification>,
                      totalScore: real, numArticle: nat)
    requires i < |entries| && entries[i].summary.Some?
    requires !(Mentions(entries[i]) && classify(entries[i].summary.value).Some?)
    requires TalliedUpTo(entries, i, classify, totalScore, numArticle)
    ensures TalliedUpTo(entries, i + 1, classify, totalScore, numArticle)
  {
    FinbertResultsNext(entries, i, classify);
  }

  /** What the script prints at the end: the final score, its label and the number of counted articles. */
  datatype FinbertReport = FinbertReport(finalScore: real, sentimentLabel: string, articlesAnalyzed: nat)

  function ReportOf(v: Verdict): FinbertReport {
    FinbertReport(v.score, PolarityWord(v.polarity), v.counted)
  }

  /** The scoring loop over all entries of the feed; Failure(i) when entry i stops the run. */
  method ScoreEntries(entries: seq<Entry>, classify: string -> Option<Classification>)
    returns (r: Result<(real, nat), nat>)
    ensures r.Success? <==> forall i :: 0 <= i < |entries| ==> !Stops(entries[i])
    ensures r.Failure? ==> r.error < |entries| && Stops(entries[r.error])
    ensures r.Failure? ==> forall j :: 0 <= j < r.error ==> !Stops(entries[j])
    ensures r.Success? ==> r.value.0 == Total(FinbertResults(entries, classify))
    ensures r.Success? ==> r.value.1 == CountedCount(FinbertResults(entries, classify))
  {
    var totalScore := 0.0;
    var numArticle := 0;
    var i := 0;
    while i < |entries|
      invariant 0 <= i <= |entries|
      invariant forall j :: 0 <= j < i ==> !Stops(entries[j])
      invariant TalliedUpTo(entries, i, classify, totalScore, numArticle)
    {
      var entry := entries[i];
      if entry.summary.None? {
        return Failure(i);
      }
      var summary := entry.summary.value;
      if Mentions(entry) {
        if entry.published.None? {
          return Failure(i);
        }
        var outcome := classify(summary);
        if outcome.Some? {
          var sentiment := outcome.value;
          TalliedStep(entries, i, classify, totalScore, numArticle, sentiment);
          if sentiment.tag == "POS" {
            totalScore := totalScore + sentiment.score;
            numArticle := numArticle + 1;
          } else if sentiment.tag == "NEG" {
            totalScore := totalScore - sentiment.score;
            numArticle := numArticle + 1;
          }
        } else {
          UntalliedStep(entries, i, classify, totalScore, numArticle);
        }
      } else {
        UntalliedStep(entries, i, classify, totalScore, numArticle);
      }
      i := i + 1;
    }
    assert entries[..i] == entries;
    return Success((totalScore, numArticle));
  }

  /** The whole script, given the feed fetch and the classifier. */
  method RunFinbert(fetch: string -> Feed, classify: string -> Option<Classification>)
    returns (r: Result<FinbertReport, nat>)
    ensures var entries := fetch(YahooHeadlineUrl(ScriptTicker)).entries;
      (r.Success? <==> forall i :: 0 <= i < |entries| ==> !Stops(entries[i])) &&
      (r.Failure? ==> r.error < |entries| && Stops(entries[r.error])) &&
      (r.Failure? ==> forall j :: 0 <= j < r.error ==> !Stops(entries[j])) &&
      (r.Success? ==> r.value == ReportOf(Aggregate(FinbertResults(entries, classify))))
    ensures r.Success? ==> r.value.articlesAnalyzed <= |fetch(YahooHeadlineUrl(ScriptTicker)).entries|
  {
    var feed := fetch(YahooHeadlineUrl(ScriptTicker));
    var scored := ScoreEntries(feed.entries, classify);
    if scored.Failure? {
      return Failure(scored.error);
    }
    var (totalScore, numArticle) := scored.value;
    var finalScore: real;
    var sentimentLabel: string;
    if numArticle > 0 {
      finalScore := totalScore / numArticle as real;
      if finalScore > Threshold {
        sentimentLabel := "Positive";
      } else if finalScore < -Threshold {
        sentimentLabel := "Negative";
      } else {
        sentimentLabel := "Neutral";
      }
    } else {
      finalScore := 0.0;
      sentimentLabel := "Neutral";
    }
    r := Success(FinbertReport(finalScore, sentimentLabel, numArticle));
  }
}
