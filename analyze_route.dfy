/** The stock-feed analysis route (client/src/app/api/analyze/route.ts):
    the rate-limit, input and configuration short-circuits, the mapping of
    the analysis service's results, and the overall summary. The crawler
    and the analysis service are inputs. */
module AnalyzeRoute {
  import opened Common
  import opened Counting
  import opened SentimentSummary

  /** `getSentimentStrength`. A score of exactly 45 is "약함". */
  function SentimentStrength(score: real): (r: string)
    ensures r == "매우 강함" <==> score >= 75.0
    ensures r == "강함" <==> 55.0 <= score < 75.0
    ensures r == "보통" <==> 45.0 < score < 55.0
    ensures r == "약함" <==> 25.0 <= score <= 45.0
    ensures r == "매우 약함" <==> score < 25.0
  {
    if score >= 75.0 then "매우 강함"
    else if score >= 55.0 then "강함"
    else if score > 45.0 then "보통"
    else if score >= 25.0 then "약함"
    else "매우 약함"
  }

  /** One result of the analysis service. */
  datatype ServiceResult = ServiceResult(score: real, sentiment: string, confidence: string,
                                         classProbabilities: seq<(string, real)>)

  /** One mapped result; the numeric fields as their `toFixed(2)` texts
      read back. */
  datatype KoreanResult = KoreanResult(
    sentimentScore: real,
    positivePercent: real,
    negativePercent: real,
    detailedSentiment: string,
    confidence: string,
    overallSentiment: string,
    classProbabilities: seq<(string, real)>,
    sentimentStrength: string)

  /** The per-result mapping: the score rounded to two places is both the
      sentiment score and the positive share, and its complement to 100,
      rounded, the negative share, so the two shares add up to 100 within
      0.01; the service's label is both the detailed and the overall
      sentiment, and the strength is that of the unrounded score. */
  function KoreanResultOf(r: ServiceResult): (k: KoreanResult)
    ensures k.sentimentScore == k.positivePercent == Fixed(r.score, 2)
    ensures Abs(k.sentimentScore - r.score) <= 0.005
    ensures k.negativePercent == Fixed(100.0 - r.score, 2)
    ensures Abs(k.positivePercent + k.negativePercent - 100.0) <= 0.01
    ensures k.detailedSentiment == k.overallSentiment == r.sentiment
    ensures k.confidence == r.confidence && k.classProbabilities == r.classProbabilities
    ensures k.sentimentStrength == SentimentStrength(r.score)
  {
    FixedNear(r.score, 2);
    assert Pow10(2) == 100;
    FixedSum(r.score, 100.0 - r.score);
    KoreanResult(Fixed(r.score, 2), Fixed(r.score, 2), Fixed(100.0 - r.score, 2), r.sentiment, r.confidence,
                 r.sentiment, r.classProbabilities, SentimentStrength(r.score))
  }

  function KoreanResults(rs: seq<ServiceResult>): (ks: seq<KoreanResult>)
    ensures |ks| == |rs| && forall i :: 0 <= i < |rs| ==> ks[i] == KoreanResultOf(rs[i])
  {
    seq(|rs|, i requires 0 <= i < |rs| => KoreanResultOf(rs[i]))
  }

  function Labels(ks: seq<KoreanResult>): (ls: seq<string>)
    ensures |ls| == |ks| && forall i :: 0 <= i < |ks| ==> ls[i] == ks[i].detailedSentiment
  {
    seq(|ks|, i requires 0 <= i < |ks| => ks[i].detailedSentiment)
  }

  function Scores(ks: seq<KoreanResult>): (xs: seq<real>)
    ensures |xs| == |ks| && forall i :: 0 <= i < |ks| ==> xs[i] == ks[i].sentimentScore
  {
    seq(|ks|, i requires 0 <= i < |ks| => ks[i].sentimentScore)
  }

  /** The overall summary, the average before its `toFixed(2)`. */
  datatype Overall = Overall(
    dominantSentiment: string,
    averageScore: real,
    distribution: seq<Share>,
    overallConfidence: string,
    sentimentStrength: string,
    totalAnalyzed: nat)

  /** `determineOverallSentiment` as written: an empty list makes the
      reduce without a seed throw (`None`); otherwise the dominant label is
      what the label-keeping reducer leaves. */
  function OverallAsWritten(ks: seq<KoreanResult>): (r: Option<Overall>)
    ensures r.None? <==> ks == []
  {
    if ks == [] then None
    else
      var d := Distribution(Labels(ks));
      var avg := Mean(Scores(ks));
      Some(Overall(KeepFirstLabel(d[0], d[1..]).sentiment, avg, d, ks[0].confidence,
                   SentimentStrength(avg), |ks|))
  }

  /** As written, the dominant label is always the first result's label. */
  lemma AsWrittenDominantIsFirst(ks: seq<KoreanResult>)
    requires ks != []
    ensures OverallAsWritten(ks).value.dominantSentiment == ks[0].detailedSentiment
  {
    var d := Distribution(Labels(ks));
    DistributionCounts(Labels(ks));
    KeepFirstLabelKeeps(d[0], d[1..]);
  }

  /** The three results labelled `a, b, b` get `a` as dominant. */
  lemma AsWrittenMisreports(a: string, b: string, k: KoreanResult)
    requires a != b
    ensures var ks := [k.(detailedSentiment := a), k.(detailedSentiment := b), k.(detailedSentiment := b)];
      OverallAsWritten(ks).value.dominantSentiment == a &&
      OverallOf(ks).value.dominantSentiment == b
  {
    var ks := [k.(detailedSentiment := a), k.(detailedSentiment := b), k.(detailedSentiment := b)];
    assert Labels(ks) == [a, b, b];
    DominantMismatch(a, b);
  }

  /** `determineOverallSentiment` with the dominant label the first one of
      greatest share, as the reducer evidently means. */
  function OverallOf(ks: seq<KoreanResult>): (r: Option<Overall>)
    ensures r.None? <==> ks == []
  {
    if ks == [] then None
    else
      var d := Distribution(Labels(ks));
      var avg := Mean(Scores(ks));
      Some(Overall(d[FirstMax(d)].sentiment, avg, d, ks[0].confidence, SentimentStrength(avg), |ks|))
  }

  /** The summary of a non-empty list: it counts every result, its
      distribution's counts are the label occurrences and add up to 100
      percent, the dominant label is the first with the greatest shown
      percentage and, for at most 10000 results, one occurring at least as
      often as any other and more often than every label first seen before
      it; the average is the mean of the scores the mapped results carry
      (in [0, 100] when every one is), its strength is that of the
      average, and the confidence is the first result's. */
  lemma OverallFacts(ks: seq<KoreanResult>)
    requires ks != []
    ensures var o := OverallOf(ks).value;
      o.totalAnalyzed == |ks| &&
      (forall i :: 0 <= i < |o.distribution| ==>
        o.distribution[i].count == Occurrences(Labels(ks), o.distribution[i].sentiment)) &&
      PercentSum(o.distribution) == 100.0 &&
      (exists m :: 0 <= m < |o.distribution| && o.distribution[m].sentiment == o.dominantSentiment &&
        FirstGreatestShown(o.distribution, m) &&
        (|ks| <= 10000 ==> FirstGreatestCount(o.distribution, m))) &&
      o.averageScore == Mean(Scores(ks)) &&
      ((forall i :: 0 <= i < |ks| ==> 0.0 <= ks[i].sentimentScore <= 100.0) ==> 0.0 <= o.averageScore <= 100.0) &&
      o.sentimentStrength == SentimentStrength(o.averageScore) &&
      o.overallConfidence == ks[0].confidence
  {
    var ls := Labels(ks);
    var o := OverallOf(ks).value;
    var d := Distribution(ls);
    var m := FirstMax(d);
    assert o.distribution == d && o.dominantSentiment == d[m].sentiment;
    assert FirstGreatestShown(d, m);
    if |ks| <= 10000 {
      FirstMaxCounts(ls);
      assert FirstGreatestCount(d, m);
    }
    DistributionCounts(ls);
    DistributionSum(ls);
    if forall i :: 0 <= i < |ks| ==> 0.0 <= ks[i].sentimentScore <= 100.0 {
      MeanBounds(Scores(ks), 0.0, 100.0);
    }
  }

  /** The strength is that of the mean of the rounded scores: a single
      result scored 54.996 is carried as 55.00, which is "강함", though the
      unrounded score is "보통". */
  lemma RoundedStrength(r: ServiceResult)
    requires r.score == 54.996
    ensures SentimentStrength(r.score) == "보통"
    ensures OverallOf(KoreanResults([r])).value.sentimentStrength == "강함"
  {
    var ks := KoreanResults([r]);
    assert Round(54.996 * 100.0) == 5500;
    assert Fixed(54.996, 2) == 55.0;
    assert Scores(ks) == [55.0];
    assert Mean([55.0]) == 55.0;
  }

  /** The loop form: the label tally by the `acc`-mutating reduce, then the
      summary. */
  method DetermineOverallSentiment(ks: seq<KoreanResult>) returns (r: Option<Overall>)
    ensures r == OverallOf(ks)
  {
    if |ks| == 0 {
      return None;
    }
    var counts := CountLabels(Labels(ks));
    var d := Shares(counts, |ks|);
    var avg := Mean(Scores(ks));
    var top := FirstMax(d);
    r := Some(Overall(d[top].sentiment, avg, d, ks[0].confidence, SentimentStrength(avg), |ks|));
  }

  // ----- the POST handler -----

  /** What the handler answers. */
  datatype Response =
    | TooManyRequests
    | MissingStockId
    | NotConfigured
    | ServerError
    | Analyzed(individual: seq<(string, Option<KoreanResult>)>, overall: Overall)

  function Status(r: Response): int
  {
    match r
    case TooManyRequests => 429
    case MissingStockId => 400
    case NotConfigured => 500
    case ServerError => 500
    case Analyzed(_, _) => 200
  }

  /** `feeds.map(f => f.text).filter(Boolean)`: the present, non-empty
      texts in order. */
  function FeedTexts(feeds: seq<Option<string>>): (ts: seq<string>)
    ensures |ts| <= |feeds|
    ensures forall i :: 0 <= i < |ts| ==> ts[i] != "" && Some(ts[i]) in feeds
    ensures forall i :: 0 <= i < |feeds| && feeds[i].Some? && feeds[i].value != "" ==> feeds[i].value in ts
  {
    if feeds == [] then []
    else if feeds[0].Some? && feeds[0].value != "" then [feeds[0].value] + FeedTexts(feeds[1..])
    else FeedTexts(feeds[1..])
  }

  /** The texts of concatenated feeds are the concatenated texts. */
  lemma {:induction false} FeedTextsAppend(a: seq<Option<string>>, b: seq<Option<string>>)
    ensures FeedTexts(a + b) == FeedTexts(a) + FeedTexts(b)
  {
    if a == [] {
      assert a + b == b;
    } else {
      assert (a + b)[0] == a[0] && (a + b)[1..] == a[1..] + b;
      FeedTextsAppend(a[1..], b);
      if a[0].Some? && a[0].value != "" {
        assert FeedTexts(a + b) == [a[0].value] + (FeedTexts(a[1..]) + FeedTexts(b));
      }
    }
  }

  /** A single feed contributes its text exactly when it has a non-empty
      one. */
  lemma FeedTextsSingle(f: Option<string>)
    ensures FeedTexts([f]) == if f.Some? && f.value != "" then [f.value] else []
  {
    assert [f][1..] == [];
  }

  /** The request as the handler sees it: whether the rate limiter let the
      caller through, the body's `stock_id` (`None` when absent), whether
      both service URLs are configured, the crawler's feeds (`None` when
      the crawl fails) and the analysis service's results for the texts
      (`None` when it fails). */
  datatype Request = Request(
    allowed: bool,
    stockId: Option<string>,
    configured: bool,
    crawl: Option<seq<Option<string>>>,
    analysis: Option<seq<ServiceResult>>)

  /** `texts[i]` paired with the i-th mapped result, which is missing when
      the service answered fewer results than texts. */
  function Individual(texts: seq<string>, ks: seq<KoreanResult>): (r: seq<(string, Option<KoreanResult>)>)
    ensures |r| == |texts|
    ensures forall i :: 0 <= i < |texts| ==> r[i].0 == texts[i] && (r[i].1.Some? <==> i < |ks|)
    ensures forall i :: 0 <= i < |texts| && i < |ks| ==> r[i].1 == Some(ks[i])
  {
    seq(|texts|, i requires 0 <= i < |texts| => (texts[i], if i < |ks| then Some(ks[i]) else None))
  }

  /** `POST` as written: its only 500s are a missing configuration, a
      failed crawl, and, for a feed with text, a failed or empty analysis;
      a summary over results reports the first result's label as
      dominant, as the written reducer does. */
  function AnalyzePost(req: Request): (r: Response)
    ensures r == ServerError <==>
      req.allowed && req.stockId.Some? && req.stockId.value != "" && req.configured &&
      (req.crawl.None? || (FeedTexts(req.crawl.value) != [] && (req.analysis.None? || req.analysis.value == [])))
    ensures r.Analyzed? && r.overall.totalAnalyzed > 0 ==>
      req.analysis.Some? && |req.analysis.value| > 0 &&
      r.overall.dominantSentiment == req.analysis.value[0].sentiment
  {
    if !req.allowed then TooManyRequests
    else if req.stockId.None? || req.stockId.value == "" then MissingStockId
    else if !req.configured then NotConfigured
    else if req.crawl.None? then ServerError
    else
      var texts := FeedTexts(req.crawl.value);
      if texts == [] then Analyzed([], EmptyOverall)
      else if req.analysis.None? then ServerError
      else
        var ks := KoreanResults(req.analysis.value);
        match OverallAsWritten(ks)
        case None => ServerError
        case Some(o) =>
          AsWrittenDominantIsFirst(ks);
          Analyzed(Individual(texts, ks), o)
  }

  /** `POST` with the corrected summary. */
  function AnalyzePostCorrected(req: Request): (r: Response)
    ensures r.Analyzed? && r.overall.totalAnalyzed > 0 ==>
      req.analysis.Some? && OverallOf(KoreanResults(req.analysis.value)) == Some(r.overall)
  {
    if !req.allowed then TooManyRequests
    else if req.stockId.None? || req.stockId.value == "" then MissingStockId
    else if !req.configured then NotConfigured
    else if req.crawl.None? then ServerError
    else
      var texts := FeedTexts(req.crawl.value);
      if texts == [] then Analyzed([], EmptyOverall)
      else if req.analysis.None? then ServerError
      else
        var ks := KoreanResults(req.analysis.value);
        match OverallOf(ks)
        case None => ServerError
        case Some(o) => Analyzed(Individual(texts, ks), o)
  }

  /** The written and the corrected summary differ in the dominant label
      only. */
  lemma OverallOnlyDominantDiffers(ks: seq<KoreanResult>)
    requires ks != []
    ensures OverallOf(ks).value ==
      OverallAsWritten(ks).value.(dominantSentiment := OverallOf(ks).value.dominantSentiment)
  {
  }

  /** The corrected handler answers what the written one answers, except
      that a summary over results names the first label of greatest share
      as dominant. */
  lemma AnalyzePostCorrectedOnlyDominant(req: Request)
    ensures AnalyzePost(req).Analyzed? <==> AnalyzePostCorrected(req).Analyzed?
    ensures !AnalyzePost(req).Analyzed? ==> AnalyzePostCorrected(req) == AnalyzePost(req)
    ensures AnalyzePost(req).Analyzed? ==>
      AnalyzePostCorrected(req).individual == AnalyzePost(req).individual &&
      AnalyzePostCorrected(req).overall ==
        AnalyzePost(req).overall.(dominantSentiment := AnalyzePostCorrected(req).overall.dominantSentiment)
  {
    if req.allowed && req.stockId.Some? && req.stockId.value != "" && req.configured && req.crawl.Some? &&
       FeedTexts(req.crawl.value) != [] && req.analysis.Some? && req.analysis.value != [] {
      OverallOnlyDominantDiffers(KoreanResults(req.analysis.value));
    }
  }

  /** The fixed summary for a feed without text: neutral, "50.00", no
      distribution, low confidence, "보통", nothing analysed. */
  const EmptyOverall := Overall("중립", 50.0, [], "낮음", "보통", 0)

  /** The handler's short-circuits: a refused caller gets 429 before any
      check, a missing or empty `stock_id` gets 400, an empty feed gets
      the fixed neutral answer without the analysis service, and a
      successful answer summarises as many results as the service sent,
      pairs every text with one, and, as written, reports the label of the
      first text's result as dominant. */
  lemma AnalyzePostCases(req: Request)
    ensures AnalyzePost(req) == TooManyRequests <==> !req.allowed
    ensures req.allowed ==>
      (AnalyzePost(req) == MissingStockId <==> req.stockId.None? || req.stockId.value == "")
    ensures AnalyzePost(req) == Analyzed([], EmptyOverall) <==>
      req.allowed && req.stockId.Some? && req.stockId.value != "" && req.configured &&
      req.crawl.Some? && FeedTexts(req.crawl.value) == []
    ensures AnalyzePost(req).Analyzed? && AnalyzePost(req).overall.totalAnalyzed > 0 ==>
      req.analysis.Some? && |req.analysis.value| > 0 &&
      |AnalyzePost(req).individual| == |FeedTexts(req.crawl.value)| &&
      AnalyzePost(req).overall.totalAnalyzed == |req.analysis.value|
    ensures AnalyzePost(req).Analyzed? && AnalyzePost(req).overall.totalAnalyzed > 0 ==>
      |AnalyzePost(req).individual| > 0 &&
      AnalyzePost(req).individual[0].1 == Some(KoreanResultOf(req.analysis.value[0])) &&
      AnalyzePost(req).overall.dominantSentiment == AnalyzePost(req).individual[0].1.value.detailedSentiment
    ensures Status(AnalyzePost(req)) == 200 <==> AnalyzePost(req).Analyzed?
  {
  }
}
