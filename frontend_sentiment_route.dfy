/** The in-browser-model sentiment route
    (frontend/src/app/api/sentiment/route.ts): the star-rating model's
    score and label mapped to Korean labels and confidence levels, the
    per-text error record, and the overall summary. The model is a
    parameter. */
module FrontendSentimentRoute {
  import opened Common
  import opened Counting
  import opened SentimentSummary
  import AnalyzeRoute

  /** `getDetailedSentiment`: five bands of width 0.2. */
  function DetailedSentiment(score: real): (r: string)
    ensures r == "매우 부정" <==> score < 0.2
    ensures r == "다소 부정" <==> 0.2 <= score < 0.4
    ensures r == "중립" <==> 0.4 <= score < 0.6
    ensures r == "다소 긍정" <==> 0.6 <= score < 0.8
    ensures r == "매우 긍정" <==> score >= 0.8
  {
    if score < 0.2 then "매우 부정"
    else if score < 0.4 then "다소 부정"
    else if score < 0.6 then "중립"
    else if score < 0.8 then "다소 긍정"
    else "매우 긍정"
  }

  /** `getConfidenceLevel`: by the distance from 0.5, doubled. */
  function ConfidenceLevel(score: real): (r: string)
    ensures r == "낮음" <==> Abs(score - 0.5) * 2.0 < 0.33
    ensures r == "중간" <==> 0.33 <= Abs(score - 0.5) * 2.0 < 0.66
    ensures r == "높음" <==> Abs(score - 0.5) * 2.0 >= 0.66
  {
    var c := Abs(score - 0.5) * 2.0;
    if c < 0.33 then "낮음" else if c < 0.66 then "중간" else "높음"
  }

  /** The confidence is symmetric about 0.5. */
  lemma ConfidenceSymmetric(score: real)
    ensures ConfidenceLevel(score) == ConfidenceLevel(1.0 - score)
  {
    assert Abs((1.0 - score) - 0.5) == Abs(score - 0.5);
  }

  /** `interpretLabel`: the model's star labels, anything else neutral. */
  function InterpretLabel(l: string): (r: string)
    ensures l == "1 star" ==> r == "매우 부정"
    ensures l == "2 stars" ==> r == "부정"
    ensures l == "3 stars" ==> r == "중립"
    ensures l == "4 stars" ==> r == "긍정"
    ensures l == "5 stars" ==> r == "매우 긍정"
    ensures l !in {"1 star", "2 stars", "3 stars", "4 stars", "5 stars"} ==> r == "중립"
  {
    if l == "1 star" then "매우 부정"
    else if l == "2 stars" then "부정"
    else if l == "3 stars" then "중립"
    else if l == "4 stars" then "긍정"
    else if l == "5 stars" then "매우 긍정"
    else "중립"
  }

  /** One analysed text; the numeric fields as their `toFixed` texts read
      back. */
  datatype KoreanSentiment = KoreanSentiment(
    sentimentScore: real,
    positivePercent: real,
    negativePercent: real,
    detailedSentiment: string,
    confidence: string,
    overallSentiment: string)

  /** The record of the `catch` branch. */
  const ErrorRecord := KoreanSentiment(0.5, 50.0, 50.0, "중립", "낮음", "중립")

  /** `analyzeKoreanSentiment` for the model's first answer (`None` when
      the model throws): the score rounded to four places, the positive and
      negative percentages each rounded to two places (so adding up to 100
      within 0.01), the band and the confidence of the unrounded score, and
      the star label read. */
  function AnalyzeKoreanSentiment(answer: Option<(real, string)>): (r: KoreanSentiment)
    ensures answer.None? ==> r == ErrorRecord
    ensures answer.Some? ==> var score := answer.value.0;
      r.sentimentScore == Fixed(score, 4) && Abs(r.sentimentScore - score) <= 0.00005 &&
      r.positivePercent == Fixed(score * 100.0, 2) &&
      r.negativePercent == Fixed((1.0 - score) * 100.0, 2) &&
      r.detailedSentiment == DetailedSentiment(score) &&
      r.confidence == ConfidenceLevel(score) &&
      r.overallSentiment == InterpretLabel(answer.value.1)
    ensures Abs(r.positivePercent + r.negativePercent - 100.0) <= 0.01
  {
    match answer
    case None => ErrorRecord
    case Some((score, l)) =>
      FixedNear(score, 4);
      assert Pow10(4) == 10000;
      FixedSum(score * 100.0, (1.0 - score) * 100.0);
      KoreanSentiment(Fixed(score, 4), Fixed(score * 100.0, 2), Fixed((1.0 - score) * 100.0, 2),
                      DetailedSentiment(score), ConfidenceLevel(score), InterpretLabel(l))
  }

  /** The overall summary; the average before `toFixed(4)`. */
  datatype FrontendOverall = FrontendOverall(
    dominantSentiment: string,
    averageScore: real,
    distribution: seq<Share>,
    overallConfidence: string)

  function Labels(rs: seq<KoreanSentiment>): (ls: seq<string>)
    ensures |ls| == |rs| && forall i :: 0 <= i < |rs| ==> ls[i] == rs[i].detailedSentiment
  {
    seq(|rs|, i requires 0 <= i < |rs| => rs[i].detailedSentiment)
  }

  function Scores(rs: seq<KoreanSentiment>): (xs: seq<real>)
    ensures |xs| == |rs| && forall i :: 0 <= i < |rs| ==> xs[i] == rs[i].sentimentScore
  {
    seq(|rs|, i requires 0 <= i < |rs| => rs[i].sentimentScore)
  }

  /** `determineOverallSentiment`: the reducer keeps the first entry with
      the greatest share; an empty list makes it throw (`None`). */
  function OverallOf(rs: seq<KoreanSentiment>): (r: Option<FrontendOverall>)
    ensures r.None? <==> rs == []
  {
    if rs == [] then None
    else
      var d := Distribution(Labels(rs));
      var avg := Mean(Scores(rs));
      Some(FrontendOverall(d[FirstMax(d)].sentiment, avg, d, ConfidenceLevel(avg)))
  }

  /** The loop form, with the label tally by the `acc`-mutating reduce. */
  method DetermineOverallSentiment(rs: seq<KoreanSentiment>) returns (r: Option<FrontendOverall>)
    ensures r == OverallOf(rs)
  {
    if |rs| == 0 {
      return None;
    }
    var counts := CountLabels(Labels(rs));
    var d := Shares(counts, |rs|);
    var avg := Mean(Scores(rs));
    var top := FirstMax(d);
    r := Some(FrontendOverall(d[top].sentiment, avg, d, ConfidenceLevel(avg)));
  }

  /** The dominant label is the first with the greatest shown percentage
      and, for at most 10000 texts, one occurring at least as often as any
      other and more often than every label first seen before it; the
      percentages add up to 100, and the confidence is that of the average
      of the scores the records carry, which lies in [0, 1] when every one
      does. */
  lemma OverallFacts(rs: seq<KoreanSentiment>)
    requires rs != []
    ensures var o := OverallOf(rs).value;
      PercentSum(o.distribution) == 100.0 &&
      (exists m :: 0 <= m < |o.distribution| && o.distribution[m].sentiment == o.dominantSentiment &&
        o.distribution[m].count == Occurrences(Labels(rs), o.dominantSentiment) &&
        FirstGreatestShown(o.distribution, m) &&
        (|rs| <= 10000 ==> FirstGreatestCount(o.distribution, m))) &&
      o.averageScore == Mean(Scores(rs)) &&
      ((forall i :: 0 <= i < |rs| ==> 0.0 <= rs[i].sentimentScore <= 1.0) ==> 0.0 <= o.averageScore <= 1.0) &&
      o.overallConfidence == ConfidenceLevel(o.averageScore)
  {
    var ls := Labels(rs);
    var o := OverallOf(rs).value;
    var d := Distribution(ls);
    var m := FirstMax(d);
    assert o.distribution == d && o.dominantSentiment == d[m].sentiment;
    assert FirstGreatestShown(d, m);
    if |rs| <= 10000 {
      FirstMaxCounts(ls);
      assert FirstGreatestCount(d, m);
    }
    DistributionCounts(ls);
    DistributionSum(ls);
    assert d[m].count == Occurrences(ls, o.dominantSentiment);
    if forall i :: 0 <= i < |rs| ==> 0.0 <= rs[i].sentimentScore <= 1.0 {
      MeanBounds(Scores(rs), 0.0, 1.0);
    }
  }

  /** The record's confidence is that of the unrounded score, the
      summary's that of the mean of the rounded ones: a single text scored
      0.66499 is carried as 0.6650, so the record says "낮음" and the
      summary "중간". */
  lemma RoundedConfidence(l: string)
    ensures var r := AnalyzeKoreanSentiment(Some((0.66499, l)));
      r.confidence == "낮음" && OverallOf([r]).value.overallConfidence == "중간"
  {
    var r := AnalyzeKoreanSentiment(Some((0.66499, l)));
    assert Round(0.66499 * 10000.0) == 6650;
    assert Fixed(0.66499, 4) == 0.665;
    assert Scores([r]) == [0.665];
    assert Mean([0.665]) == 0.665;
  }

  /** What `GET` answers. */
  datatype FrontendResponse =
    | FrontendError
    | FrontendAnalyzed(individual: seq<(string, KoreanSentiment)>, overall: FrontendOverall)

  /** The analyses of text/analysis pairs, in order. */
  function Analyses(ps: seq<(string, KoreanSentiment)>): (rs: seq<KoreanSentiment>)
    ensures |rs| == |ps| && forall i :: 0 <= i < |ps| ==> rs[i] == ps[i].1
  {
    seq(|ps|, i requires 0 <= i < |ps| => ps[i].1)
  }

  /** `GET`: every present, non-empty feed text through the model (which
      answers `None` when it throws), then the summary; a failed scrape or
      a feed without text gives 500. */
  function FrontendGet(scrape: Option<seq<Option<string>>>, model: string -> Option<(real, string)>): (r: FrontendResponse)
    ensures r.FrontendAnalyzed? ==> Some(r.overall) == OverallOf(Analyses(r.individual))
  {
    if scrape.None? then FrontendError
    else
      var texts := AnalyzeRoute.FeedTexts(scrape.value);
      var rs := seq(|texts|, i requires 0 <= i < |texts| => AnalyzeKoreanSentiment(model(texts[i])));
      match OverallOf(rs)
      case None => FrontendError
      case Some(o) =>
        var ind := seq(|texts|, i requires 0 <= i < |texts| => (texts[i], rs[i]));
        assert Analyses(ind) == rs;
        FrontendAnalyzed(ind, o)
  }

  /** Each text is paired with its own analysis, and the answer is an
      error exactly when the scrape fails or leaves no text. */
  lemma FrontendGetCases(scrape: Option<seq<Option<string>>>, model: string -> Option<(real, string)>)
    ensures FrontendGet(scrape, model).FrontendError? <==>
      scrape.None? || AnalyzeRoute.FeedTexts(scrape.value) == []
    ensures FrontendGet(scrape, model).FrontendAnalyzed? ==>
      var texts := AnalyzeRoute.FeedTexts(scrape.value);
      var ind := FrontendGet(scrape, model).individual;
      |ind| == |texts| &&
      forall i :: 0 <= i < |texts| ==> ind[i] == (texts[i], AnalyzeKoreanSentiment(model(texts[i])))
  {
  }
}
