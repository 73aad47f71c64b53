/**
 * Sentiment scoring shared by the news endpoint and the two sentiment
 * scripts. The classifier labels a text POS, NEG or NEU with a confidence
 * score; a positive label adds its score to the running total, a negative
 * one subtracts it, and only those two labels are counted. The average of
 * the counted scores is read against the thresholds +-0.15.
 */
module Scoring {

  /** One classifier result: its label (`tag`, since `label` is a Dafny keyword) and the confidence score. */
  datatype Classification = Classification(tag: string, score: real)

  /** The overall reading of an average score. */
  datatype Polarity = Bullish | Bearish | Neutral

  /** The average score a polarity needs to exceed, upwards or downwards. */
  const Threshold: real := 0.15

  /** Only POS and NEG results enter the average. */
  predicate Counted(c: Classification) {
    c.tag == "POS" || c.tag == "NEG"
  }

  /** What one result adds to the running total. */
  function Contribution(c: Classification): (r: real)
    ensures !Counted(c) ==> r == 0.0
    ensures c.score >= 0.0 ==> (c.tag == "POS" ==> r >= 0.0) && (c.tag == "NEG" ==> r <= 0.0)
  {
    if c.tag == "POS" then c.score
    else if c.tag == "NEG" then -c.score
    else 0.0
  }

  /** The running total after every result in order. */
  function Total(cs: seq<Classification>): real {
    if |cs| == 0 then 0.0 else Total(cs[..|cs| - 1]) + Contribution(cs[|cs| - 1])
  }

  /** How many results are counted. */
  function CountedCount(cs: seq<Classification>): (n: nat)
    ensures n <= |cs|
  {
    if |cs| == 0 then 0
    else CountedCount(cs[..|cs| - 1]) + (if Counted(cs[|cs| - 1]) then 1 else 0)
  }

  /** Bullish above +0.15, bearish below -0.15, neutral in between (both ends included). */
  function PolarityOf(score: real): (p: Polarity)
    ensures p == Bullish <==> score > Threshold
    ensures p == Bearish <==> score < -Threshold
    ensures p == Neutral <==> -Threshold <= score <= Threshold
  {
    if score > Threshold then Bullish
    else if score < -Threshold then Bearish
    else Neutral
  }

  /** How the server's replies name a polarity. */
  function PolarityName(p: Polarity): (name: string)
    ensures name in {"bullish", "bearish", "neutral"}
    ensures name == "bullish" <==> p == Bullish
    ensures name == "bearish" <==> p == Bearish
  {
    match p
    case Bullish => "bullish"
    case Bearish => "bearish"
    case Neutral => "neutral"
  }

  /** How the two command-line scripts name a polarity. */
  function PolarityWord(p: Polarity): (word: string)
    ensures word in {"Positive", "Negative", "Neutral"}
    ensures word == "Positive" <==> p == Bullish
    ensures word == "Negative" <==> p == Bearish
  {
    match p
    case Bullish => "Positive"
    case Bearish => "Negative"
    case Neutral => "Neutral"
  }

  /** The outcome of a run: the final score, its polarity and the number of counted results. */
  datatype Verdict = Verdict(score: real, polarity: Polarity, counted: nat)

  /**
   * The final score is the total divided by the number of counted results,
   * and 0 when nothing was counted; the polarity is read from that score.
   */
  function Aggregate(cs: seq<Classification>): (v: Verdict)
    ensures v.counted == CountedCount(cs) && v.counted <= |cs|
    ensures v.counted == 0 ==> v.score == 0.0 && v.polarity == Neutral
    ensures v.counted > 0 ==> v.score * (v.counted as real) == Total(cs)
    ensures v.polarity == PolarityOf(v.score)
  {
    var n := CountedCount(cs);
    if n == 0 then Verdict(0.0, Neutral, 0)
    else
      var score := Total(cs) / (n as real);
      Verdict(score, PolarityOf(score), n)
  }

  /** One more result adds its contribution to the total and counts when it is POS or NEG. */
  lemma TotalAppend(cs: seq<Classification>, c: Classification)
    ensures Total(cs + [c]) == Total(cs) + Contribution(c)
    ensures CountedCount(cs + [c]) == CountedCount(cs) + (if Counted(c) then 1 else 0)
  {
    assert (cs + [c])[..|cs|] == cs;
  }

  /** A result that is neither POS nor NEG leaves the verdict as it was. */
  lemma NeutralResultIgnored(cs: seq<Classification>, c: Classification)
    requires !Counted(c)
    ensures Aggregate(cs + [c]) == Aggregate(cs)
  {
    TotalAppend(cs, c);
  }

  /** With confidences in [0, 1] the total never exceeds the count in size. */
  lemma {:induction false} TotalBounded(cs: seq<Classification>)
    requires forall i :: 0 <= i < |cs| ==> 0.0 <= cs[i].score <= 1.0
    ensures -(CountedCount(cs) as real) <= Total(cs) <= CountedCount(cs) as real
  {
    if |cs| > 0 {
      TotalBounded(cs[..|cs| - 1]);
    }
  }

  /** With confidences in [0, 1] the final score lies in [-1, 1]. */
  lemma ScoreBounded(cs: seq<Classification>)
    requires forall i :: 0 <= i < |cs| ==> 0.0 <= cs[i].score <= 1.0
    ensures -1.0 <= Aggregate(cs).score <= 1.0
  {
    TotalBounded(cs);
    var n := CountedCount(cs);
    if n > 0 {
      QuotientBounded(Total(cs), n as real);
    }
  }

  /** A total no larger in size than a positive count averages to a number in [-1, 1]. */
  lemma QuotientBounded(total: real, n: real)
    requires n > 0.0 && -n <= total <= n
    ensures -1.0 <= total / n <= 1.0
  {
  }

  /** Every result positive with confidence above the threshold: the total exceeds threshold times count. */
  lemma {:induction false} ConfidentPositivesTotal(cs: seq<Classification>)
    requires forall i :: 0 <= i < |cs| ==> cs[i].tag == "POS" && cs[i].score > Threshold
    ensures CountedCount(cs) == |cs|
    ensures |cs| > 0 ==> Total(cs) > Threshold * (|cs| as real)
  {
    if |cs| > 0 {
      ConfidentPositivesTotal(cs[..|cs| - 1]);
    }
  }

  /** A run in which every text reads confidently positive is bullish. */
  lemma ConfidentPositivesBullish(cs: seq<Classification>)
    requires |cs| > 0
    requires forall i :: 0 <= i < |cs| ==> cs[i].tag == "POS" && cs[i].score > Threshold
    ensures Aggregate(cs).polarity == Bullish
  {
    ConfidentPositivesTotal(cs);
    var v := Aggregate(cs);
    var n := |cs| as real;
    assert v.score * n > Threshold * n;
  }
}
