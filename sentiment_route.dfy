/** The feed sentiment route (client/src/app/api/sentiment/route.ts): the
    scraper's feeds go to the analysis service and the results are mapped
    and summarised as in the analysis route, whose `getSentimentStrength`
    and `determineOverallSentiment` this file repeats; but no branch
    handles a feed without text. The scraper and the service are inputs. */
module SentimentRoute {
  import opened Common
  import opened AnalyzeRoute

  /** `GET` as written: the texts go to the service even when there are
      none, an empty result list makes the summary throw, which the
      handler answers with 500, and the written reducer reports the first
      result's label as dominant. `scrape` and `analysis` are `None` when
      the call fails. */
  function SentimentGetAsWritten(scrape: Option<seq<Option<string>>>, analysis: Option<seq<ServiceResult>>): (r: Response)
    ensures r == ServerError <==> scrape.None? || analysis.None? || analysis.value == []
    ensures r.Analyzed? ==>
      scrape.Some? && analysis.Some? && |analysis.value| > 0 &&
      |r.individual| == |FeedTexts(scrape.value)| && r.overall.totalAnalyzed == |analysis.value| &&
      r.overall.dominantSentiment == analysis.value[0].sentiment
  {
    if scrape.None? || analysis.None? then ServerError
    else
      var texts := FeedTexts(scrape.value);
      var ks := KoreanResults(analysis.value);
      match OverallAsWritten(ks)
      case None => ServerError
      case Some(o) =>
        AsWrittenDominantIsFirst(ks);
        Analyzed(Individual(texts, ks), o)
  }

  /** A feed without text, for which the service has nothing to answer,
      gets 500. */
  lemma EmptyFeedFails(scrape: seq<Option<string>>)
    requires FeedTexts(scrape) == []
    ensures SentimentGetAsWritten(Some(scrape), Some([])) == ServerError
    ensures Status(SentimentGetAsWritten(Some(scrape), Some([]))) == 500
  {
  }

  /** `GET` with the empty-feed answer of the analysis route and the
      corrected summary: 500 only for a failed scrape, or for a feed with
      text whose analysis fails or is empty. */
  function SentimentGet(scrape: Option<seq<Option<string>>>, analysis: Option<seq<ServiceResult>>): (r: Response)
    ensures r == ServerError <==>
      scrape.None? || (FeedTexts(scrape.value) != [] && (analysis.None? || analysis.value == []))
    ensures r.Analyzed? && r.overall.totalAnalyzed > 0 ==>
      analysis.Some? && OverallOf(KoreanResults(analysis.value)) == Some(r.overall)
  {
    if scrape.None? then ServerError
    else
      var texts := FeedTexts(scrape.value);
      if texts == [] then Analyzed([], EmptyOverall)
      else if analysis.None? then ServerError
      else
        var ks := KoreanResults(analysis.value);
        match OverallOf(ks)
        case None => ServerError
        case Some(o) => Analyzed(Individual(texts, ks), o)
  }

  /** With the guard, a feed without text gets the neutral answer; a feed
      with text gets what the written handler gives, except that the
      dominant label is the first one of greatest share. */
  lemma SentimentGetGuards(scrape: Option<seq<Option<string>>>, analysis: Option<seq<ServiceResult>>)
    ensures scrape.Some? && FeedTexts(scrape.value) == [] ==>
      SentimentGet(scrape, analysis) == Analyzed([], EmptyOverall) && Status(SentimentGet(scrape, analysis)) == 200
    ensures scrape.None? || FeedTexts(scrape.value) != [] ==>
      (SentimentGet(scrape, analysis).Analyzed? <==> SentimentGetAsWritten(scrape, analysis).Analyzed?) &&
      (!SentimentGet(scrape, analysis).Analyzed? ==> SentimentGet(scrape, analysis) == SentimentGetAsWritten(scrape, analysis))
    ensures scrape.Some? && FeedTexts(scrape.value) != [] && SentimentGet(scrape, analysis).Analyzed? ==>
      var g := SentimentGet(scrape, analysis);
      var w := SentimentGetAsWritten(scrape, analysis);
      g.individual == w.individual && g.overall == w.overall.(dominantSentiment := g.overall.dominantSentiment) &&
      g.overall.totalAnalyzed == |analysis.value| > 0 && |g.individual| == |FeedTexts(scrape.value)|
  {
    if scrape.Some? && FeedTexts(scrape.value) != [] && analysis.Some? && analysis.value != [] {
      OverallOnlyDominantDiffers(KoreanResults(analysis.value));
    }
  }
}
