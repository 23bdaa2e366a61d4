/** The headline metrics of client/src/features/stock/utils/stock-past-info.ts
    (`computeSimplyStyleMetrics`) and the revenue concept scoring
    (`pickBestSeriesByTTMSupport`) they start from. */
module PastMetrics {
  import opened Common
  import opened Facts
  import opened Units
  import opened Ttm
  import opened Growth

  /** `{ concept, series }`. */
  datatype ConceptSeries = ConceptSeries(concept: Option<string>, series: seq<Fact>)

  // ----- concept scoring -----

  /** `x.fp === 'FY' || [10-K, 10-K/A, 20-F, 40-F].includes(String(x.form))`. */
  predicate IsScoredAnnual(x: Fact)
  {
    x.fp == Some("FY") || (x.form.Some? && x.form.value in GrowthForms)
  }

  /** `[Q1..Q4].includes(String(x.fp)) || [10-Q, 10-Q/A].includes(String(x.form))`. */
  predicate IsScoredQuarter(x: Fact)
  {
    (x.fp.Some? && x.fp.value in QuarterFps) || (x.form.Some? && x.form.value in QuarterForms)
  }

  /** `scoreSeries`: 100 for any annual fact, 50 for four quarterly facts,
      plus the length up to 20. */
  function SeriesScore(s: seq<Fact>): (r: int)
    ensures 0 <= r <= 170
  {
    var fyLike := Count(s, IsScoredAnnual);
    var qLike := Count(s, IsScoredQuarter);
    (if fyLike > 0 then 100 else 0) + (if qLike >= 4 then 50 else 0) + (if |s| < 20 then |s| else 20)
  }

  /** The score's hundreds say whether there is an annual fact, the next
      fifty whether there are four quarterly facts, the rest the length
      capped at 20: an annual fact outweighs any quarter count and length. */
  lemma SeriesScoreParts(s: seq<Fact>)
    ensures SeriesScore(s) >= 100 <==> exists i :: 0 <= i < |s| && IsScoredAnnual(s[i])
    ensures SeriesScore(s) % 100 >= 50 <==> Count(s, IsScoredQuarter) >= 4
    ensures SeriesScore(s) % 50 == (if |s| < 20 then |s| else 20)
  {
    var f := Filter(s, IsScoredAnnual);
    if |f| > 0 {
      assert f[0] in s;
    }
  }

  /** A concept with the series `pickUnitSeries` gives it and its score. */
  datatype Candidate = Candidate(concept: string, series: seq<Fact>, score: int)

  function Candidates(data: CompanyFacts, taxonomy: string, concepts: seq<string>,
                      unitPref: seq<string>): (r: seq<Candidate>)
    ensures |r| == |concepts|
    ensures forall i :: 0 <= i < |r| ==> (r[i].concept == concepts[i] &&
      r[i].series == PickUnitSeries(data, taxonomy, concepts[i], unitPref) &&
      r[i].score == SeriesScore(r[i].series))
  {
    if concepts == [] then []
    else
      var s := PickUnitSeries(data, taxonomy, concepts[0], unitPref);
      [Candidate(concepts[0], s, SeriesScore(s))] + Candidates(data, taxonomy, concepts[1..], unitPref)
  }

  /** The state of the scoring loop after the given candidates: the best
      so far and its score (-1 before any non-empty series). */
  function BestOf(cands: seq<Candidate>): (ConceptSeries, int)
  {
    if cands == [] then (ConceptSeries(None, []), -1)
    else ScoreStep(BestOf(cands[..|cands| - 1]), cands[|cands| - 1])
  }

  /** One turn of the scoring loop: an empty series is skipped, and a
      strictly higher score replaces the best so far. */
  function ScoreStep(prev: (ConceptSeries, int), c: Candidate): (ConceptSeries, int)
  {
    if |c.series| == 0 then prev
    else if c.score > prev.1 then (ConceptSeries(Some(c.concept), c.series), c.score)
    else prev
  }

  /** The loop state after one more candidate. */
  lemma BestOfPrefix(cands: seq<Candidate>, i: nat)
    requires i < |cands|
    ensures BestOf(cands[..i + 1]) == ScoreStep(BestOf(cands[..i]), cands[i])
  {
    assert cands[..i + 1][..i] == cands[..i];
  }

  /** Candidate `i` has a non-empty series with the highest score, and
      every earlier non-empty candidate scores strictly less. */
  predicate IsBestAt(cands: seq<Candidate>, i: int)
  {
    0 <= i < |cands| && |cands[i].series| > 0 &&
    (forall k :: 0 <= k < |cands| && |cands[k].series| > 0 ==> cands[k].score <= cands[i].score) &&
    (forall k :: 0 <= k < i && |cands[k].series| > 0 ==> cands[k].score < cands[i].score)
  }

  /** The scoring loop picks the first candidate of highest score among
      those with a non-empty series, and nothing when all are empty. */
  lemma {:induction false} BestOfIsBest(cands: seq<Candidate>)
    requires forall k :: 0 <= k < |cands| ==> cands[k].score >= 0
    ensures var r := BestOf(cands);
      (r.0.concept.None? <==> forall k :: 0 <= k < |cands| ==> |cands[k].series| == 0) &&
      (r.0.concept.None? ==> r.0.series == [] && r.1 == -1) &&
      (r.0.concept.Some? ==> exists i :: (IsBestAt(cands, i) &&
         r.0 == ConceptSeries(Some(cands[i].concept), cands[i].series) && r.1 == cands[i].score))
  {
    if cands != [] {
      var init := cands[..|cands| - 1];
      var c := cands[|cands| - 1];
      BestOfIsBest(init);
      var prev := BestOf(init);
      assert forall k :: 0 <= k < |init| ==> init[k] == cands[k];
      if prev.0.concept.Some? {
        var i :| IsBestAt(init, i) &&
          prev.0 == ConceptSeries(Some(init[i].concept), init[i].series) && prev.1 == init[i].score;
        if |c.series| > 0 && c.score > prev.1 {
          assert IsBestAt(cands, |cands| - 1);
        } else {
          assert IsBestAt(cands, i);
        }
      } else if |c.series| > 0 {
        assert IsBestAt(cands, |cands| - 1);
      }
    }
  }

  /** `pickBestSeriesByTTMSupport`: a loop keeping the best scoring
      non-empty series, replaced only on a strictly higher score. */
  method PickBestSeriesByTTMSupport(data: CompanyFacts, taxonomy: string, concepts: seq<string>,
                                    unitPref: seq<string>) returns (best: ConceptSeries)
    ensures best == BestOf(Candidates(data, taxonomy, concepts, unitPref)).0
  {
    ghost var cands := Candidates(data, taxonomy, concepts, unitPref);
    best := ConceptSeries(None, []);
    var bestScore := -1;
    var i := 0;
    while i < |concepts|
      invariant 0 <= i <= |concepts|
      invariant (best, bestScore) == BestOf(cands[..i])
    {
      var c := concepts[i];
      var s := PickUnitSeries(data, taxonomy, c, unitPref);
      assert cands[i] == Candidate(c, s, SeriesScore(s));
      BestOfPrefix(cands, i);
      ghost var prev := (best, bestScore);
      if |s| > 0 {
        var sc := SeriesScore(s);
        if sc > bestScore {
          bestScore := sc;
          best := ConceptSeries(Some(c), s);
        }
      }
      assert (best, bestScore) == ScoreStep(prev, cands[i]);
      i := i + 1;
    }
    assert cands[..|concepts|] == cands;
  }

  /** The specification of `pickBestSeriesByTTMSupport`. */
  function BestSeries(data: CompanyFacts, taxonomy: string, concepts: seq<string>,
                      unitPref: seq<string>): ConceptSeries
  {
    BestOf(Candidates(data, taxonomy, concepts, unitPref)).0
  }

  /** When only concept `j` is reported, its series is the best. */
  lemma BestSeriesOnly(data: CompanyFacts, taxonomy: string, concepts: seq<string>,
                       unitPref: seq<string>, j: nat)
    requires j < |concepts|
    requires forall i :: 0 <= i < |concepts| && i != j ==> UnitsOf(data, taxonomy, concepts[i]).None?
    requires PickUnitSeries(data, taxonomy, concepts[j], unitPref) != []
    ensures BestSeries(data, taxonomy, concepts, unitPref).series == PickUnitSeries(data, taxonomy, concepts[j], unitPref)
  {
    var cands := Candidates(data, taxonomy, concepts, unitPref);
    forall i | 0 <= i < |concepts| && i != j
      ensures cands[i].series == []
    {
      AbsentConcept(data, taxonomy, concepts[i], unitPref);
    }
    BestOfIsBest(cands);
  }

  /** When no concept is reported, the best series is empty. */
  lemma BestSeriesNone(data: CompanyFacts, taxonomy: string, concepts: seq<string>, unitPref: seq<string>)
    requires forall i :: 0 <= i < |concepts| ==> UnitsOf(data, taxonomy, concepts[i]).None?
    ensures BestSeries(data, taxonomy, concepts, unitPref).series == []
  {
    var cands := Candidates(data, taxonomy, concepts, unitPref);
    forall i | 0 <= i < |concepts|
      ensures cands[i].series == []
    {
      AbsentConcept(data, taxonomy, concepts[i], unitPref);
    }
    BestOfIsBest(cands);
  }

  // ----- the us-gaap-only first-series search -----

  /** The first concept with a non-empty us-gaap series (no currency
      fallback), with that series. */
  function FirstUsGaapSeries(data: CompanyFacts, concepts: seq<string>, unitPref: seq<string>): (r: ConceptSeries)
    ensures r.concept.None? <==> forall i :: 0 <= i < |concepts| ==> PickUnitSeries(data, USGaap, concepts[i], unitPref) == []
    ensures r.concept.None? ==> r.series == []
    ensures r.concept.Some? ==> exists i :: (0 <= i < |concepts| && concepts[i] == r.concept.value &&
      r.series == PickUnitSeries(data, USGaap, concepts[i], unitPref) && |r.series| > 0 &&
      forall k :: 0 <= k < i ==> PickUnitSeries(data, USGaap, concepts[k], unitPref) == [])
  {
    if concepts == [] then ConceptSeries(None, [])
    else
      var s := PickUnitSeries(data, USGaap, concepts[0], unitPref);
      if |s| > 0 then ConceptSeries(Some(concepts[0]), s)
      else
        var r := FirstUsGaapSeries(data, concepts[1..], unitPref);
        if r.concept.Some? then
          ghost var i :| 0 <= i < |concepts[1..]| && concepts[1..][i] == r.concept.value &&
            r.series == PickUnitSeries(data, USGaap, concepts[1..][i], unitPref) && |r.series| > 0 &&
            forall k :: 0 <= k < i ==> PickUnitSeries(data, USGaap, concepts[1..][k], unitPref) == [];
          assert concepts[i + 1] == concepts[1..][i];
          r
        else r
  }

  /** `pickFirstSeries` inside `computeSimplyStyleMetrics`: an early-return
      loop over the concepts. */
  method PickFirstSeries(data: CompanyFacts, concepts: seq<string>, unitPref: seq<string>)
    returns (r: ConceptSeries)
    ensures r == FirstUsGaapSeries(data, concepts, unitPref)
  {
    var i := 0;
    while i < |concepts|
      invariant 0 <= i <= |concepts|
      invariant FirstUsGaapSeries(data, concepts, unitPref) == FirstUsGaapSeries(data, concepts[i..], unitPref)
    {
      var s := PickUnitSeries(data, USGaap, concepts[i], unitPref);
      if |s| > 0 {
        return ConceptSeries(Some(concepts[i]), s);
      }
      assert concepts[i..][1..] == concepts[i + 1..];
      i := i + 1;
    }
    return ConceptSeries(None, []);
  }

  // ----- the metrics -----

  function RevenueConcepts(): seq<string>
  {
    ["RevenueFromContractWithCustomerExcludingAssessedTax",
     "RevenueFromContractWithCustomerIncludingAssessedTax",
     "Revenues", "SalesRevenueNet", "SalesRevenueGoodsNet", "SalesRevenueServicesNet"]
  }

  function EquityConcepts(): seq<string>
  {
    ["StockholdersEquity",
     "StockholdersEquityIncludingPortionAttributableToNoncontrollingInterest",
     "Equity", "EquityAttributableToOwnersOfParent"]
  }

  function EpsConcepts(): seq<string>
  {
    ["EarningsPerShareDiluted", "EarningsPerShareBasic",
     "BasicEarningsLossPerShare", "DilutedEarningsLossPerShare"]
  }

  function DilutedSharesConcepts(): seq<string>
  {
    ["WeightedAverageNumberOfDilutedSharesOutstanding",
     "WeightedAverageNumberOfSharesOutstandingDiluted"]
  }

  function BasicSharesConcepts(): seq<string>
  {
    ["WeightedAverageNumberOfSharesOutstandingBasic"]
  }

  /** The revenue series: the best scoring us-gaap concept in USD, else the
      best ifrs-full concept (the list plus `Revenue`) in USD, DKK or EUR. */
  function RevenueSeries(data: CompanyFacts): (r: Picked)
    ensures var us := BestSeries(data, USGaap, RevenueConcepts(), ["USD"]);
      |us.series| > 0 ==> r == Picked(Some(USGaap), us.concept, us.series)
    ensures var us := BestSeries(data, USGaap, RevenueConcepts(), ["USD"]);
      var ifrs := BestSeries(data, IfrsFull, RevenueConcepts() + ["Revenue"], ["USD", "DKK", "EUR"]);
      |us.series| == 0 ==> r == Picked(Some(IfrsFull), ifrs.concept, ifrs.series)
  {
    var us := BestSeries(data, USGaap, RevenueConcepts(), ["USD"]);
    if |us.series| > 0 then Picked(Some(USGaap), us.concept, us.series)
    else
      var ifrs := BestSeries(data, IfrsFull, RevenueConcepts() + ["Revenue"], ["USD", "DKK", "EUR"]);
      Picked(Some(IfrsFull), ifrs.concept, ifrs.series)
  }

  /** The net income series: us-gaap/ifrs-full `NetIncomeLoss` in USD, else
      the profit concepts in USD, DKK or EUR. */
  function NetIncomeSeries(data: CompanyFacts): Picked
  {
    var us := FirstSeriesCrossTaxonomy(data, ["NetIncomeLoss"], ["USD"]);
    if |us.series| > 0 then us
    else FirstSeriesCrossTaxonomy(data, ["ProfitLoss", "ProfitLossAttributableToOwnersOfParent", "NetIncomeLoss"],
                                  ["USD", "DKK", "EUR"])
  }

  /** The reference date and the trailing (or annual) revenue and income. */
  datatype Headline = Headline(recentEnd: Day, revenue: real, netIncome: real)

  /** Both TTM values when both exist (dated by the income TTM), else both
      latest annual values (dated by the income one), else nothing. */
  function HeadlineFigures(rev: seq<Fact>, ni: seq<Fact>): (r: Option<Headline>)
    ensures ComputeTTM(rev).Some? && ComputeTTM(ni).Some? ==>
      r.Some? && r.value.revenue == ComputeTTM(rev).value.val && r.value.netIncome == ComputeTTM(ni).value.val &&
      r.value.recentEnd == ComputeTTM(ni).value.end
    ensures !(ComputeTTM(rev).Some? && ComputeTTM(ni).Some?) ==>
      (r.None? <==> PickLatestAnnual(rev).None? || PickLatestAnnual(ni).None?)
    ensures r.Some? ==> exists k :: 0 <= k < |ni| && ni[k].end == r.value.recentEnd
  {
    var revTTM := ComputeTTM(rev);
    var niTTM := ComputeTTM(ni);
    if revTTM.Some? && niTTM.Some? then
      TtmEndIsLatest(ni);
      Some(Headline(niTTM.value.end, revTTM.value.val, niTTM.value.val))
    else
      var revFY := PickLatestAnnual(rev);
      var niFY := PickLatestAnnual(ni);
      if revFY.None? || niFY.None? then None
      else
        ghost var x :| x in ni && niFY.value == Point(x.end, x.val);
        ghost var k :| 0 <= k < |ni| && ni[k] == x;
        Some(Headline(niFY.value.end, revFY.value.val, niFY.value.val))
  }

  /** `ttmRevenue && ttmRevenue !== 0 ? ttmNetIncome / ttmRevenue : undefined`. */
  function NetMargin(revenue: real, netIncome: real): (r: Option<real>)
    ensures r.Some? <==> revenue != 0.0
    ensures r.Some? ==> r.value * revenue == netIncome
  {
    if revenue != 0.0 then Some(netIncome / revenue) else None
  }

  /** The mean of two equity values. */
  function Average(a: real, b: real): real
  {
    (a + b) / 2.0
  }

  /** `equity[i]` is the last equity fact ending by `recentEnd`, `equity[j]`
      the last one at least a year before it, and their mean is not zero. */
  predicate IsRoePair(equity: seq<Fact>, recentEnd: Day, i: int, j: int)
  {
    IsLastEndingBy(equity, recentEnd, i) && IsLastPastCandidate(equity, equity[i].end, 1.0, j) &&
    Average(equity[i].val, equity[j].val) != 0.0
  }

  /** ROE over average equity: the last equity value ending by `recentEnd`
      and the one at least a year before it, their mean non-zero. */
  function AverageEquityRoe(equity: seq<Fact>, recentEnd: Day, netIncome: real): (r: Option<real>)
    ensures r.Some? ==> exists l, p :: (l in equity && p in equity && l.end <= recentEnd &&
      IsPastCandidate(p, l.end, 1.0) && Average(l.val, p.val) != 0.0 &&
      r.value == netIncome / Average(l.val, p.val))
  {
    if |equity| == 0 then None
    else
      var eqLatest := PickLatestAsOf(equity, recentEnd);
      if eqLatest.None? then None
      else
        var eqPast := PickPastValueNearYears(equity, eqLatest.value.end, 1.0);
        if eqPast.None? then None
        else
          var avgEq := Average(eqLatest.value.val, eqPast.value.val);
          if avgEq != 0.0 then Some(netIncome / avgEq) else None
  }

  /** The ROE is defined exactly when the equity series has such a pair,
      and it is the income over that pair's mean. */
  lemma AverageEquityRoeChoice(equity: seq<Fact>, recentEnd: Day, netIncome: real)
    ensures AverageEquityRoe(equity, recentEnd, netIncome).Some? <==>
      exists i, j :: IsRoePair(equity, recentEnd, i, j)
    ensures forall i, j :: IsRoePair(equity, recentEnd, i, j) ==>
      AverageEquityRoe(equity, recentEnd, netIncome) == Some(netIncome / Average(equity[i].val, equity[j].val))
  {
    var r := AverageEquityRoe(equity, recentEnd, netIncome);
    PickLatestAsOfUnique(equity, recentEnd);
    var l := PickLatestAsOf(equity, recentEnd);
    forall i, j | IsRoePair(equity, recentEnd, i, j)
      ensures r == Some(netIncome / Average(equity[i].val, equity[j].val))
    {
      assert l == Some(equity[i]);
      LastPastCandidateUnique(equity, equity[i].end, 1.0);
    }
    if r.Some? {
      var i :| IsLastEndingBy(equity, recentEnd, i) && l.value == equity[i];
      LastPastCandidateUnique(equity, equity[i].end, 1.0);
      var p := PickPastValueNearYears(equity, equity[i].end, 1.0);
      var j :| IsLastPastCandidate(equity, equity[i].end, 1.0, j) && p.value == equity[j];
      assert IsRoePair(equity, recentEnd, i, j);
    }
  }

  /** The 10-K FY facts of a series, in series order. */
  function TenKFY(s: seq<Fact>): (r: seq<Fact>)
    ensures forall i :: 0 <= i < |r| ==> r[i] in s && FormIn(r[i], AnnualForms) && FpIn(r[i], ["FY"])
    ensures forall i :: 0 <= i < |s| && FormIn(s[i], AnnualForms) && FpIn(s[i], ["FY"]) ==> s[i] in r
  {
    var a := FilterByForms(s, AnnualForms);
    assert forall i :: 0 <= i < |s| && FormIn(s[i], AnnualForms) ==> s[i] in a;
    FilterByFp(a, ["FY"])
  }

  /** The CAGR from the last fact of `fy` back to the last fact at least
      `years` older. */
  function CagrOverYears(fy: seq<Fact>, years: real, pow: Pow): (r: Option<real>)
    ensures r.Some? ==> exists p :: (p in fy && |fy| > 0 && IsPastCandidate(p, Last(fy).end, years) &&
      p.val > 0.0 && Last(fy).val > 0.0 &&
      r.value == CagrRate(p.val, Last(fy).val, YearsBetween(p.end, Last(fy).end), pow))
    ensures r.Some? ==> |fy| > 0 && exists j :: (IsLastPastCandidate(fy, Last(fy).end, years, j) &&
      fy[j].val > 0.0 && Last(fy).val > 0.0 &&
      r.value == CagrRate(fy[j].val, Last(fy).val, YearsBetween(fy[j].end, Last(fy).end), pow))
    ensures (|fy| > 0 && Last(fy).val > 0.0 && years > 0.0 &&
      exists j :: IsLastPastCandidate(fy, Last(fy).end, years, j) && fy[j].val > 0.0) ==> r.Some?
  {
    if |fy| == 0 then None
    else
      var latest := Last(fy);
      LastPastCandidateUnique(fy, latest.end, years);
      var past := PickPastValueNearYears(fy, latest.end, years);
      if past.None? then None
      else Cagr(past.value.val, latest.val, YearsBetween(past.value.end, latest.end), pow)
  }

  /** The EPS CAGR derived from income and shares when there is no FY EPS
      fact: the shares matching the latest income end (else the last
      shares fact) and those matching the past income end exactly. */
  function DerivedEpsCagr(niFY: seq<Fact>, sharesFY: seq<Fact>, pow: Pow): (r: Option<real>)
    ensures r.Some? ==> |niFY| > 0 && |sharesFY| > 0
    ensures r.Some? ==> exists pn, ps :: (pn in niFY && ps in sharesFY && IsPastCandidate(pn, Last(niFY).end, 5.0) &&
      ps.end == pn.end && ps.val != 0.0)
  {
    if |niFY| == 0 || |sharesFY| == 0 then None
    else
      var latestNi := Last(niFY);
      var latestSh := OrElse(LastOrNone(EndingOn(sharesFY, latestNi.end)), LastOrNone(sharesFY));
      var pastNi := PickPastValueNearYears(niFY, latestNi.end, 5.0);
      var pastSh := if pastNi.Some? then LastOrNone(EndingOn(sharesFY, pastNi.value.end)) else None;
      if pastNi.Some? && pastSh.Some? && latestSh.Some? && pastSh.value.val != 0.0 && latestSh.value.val != 0.0 then
        assert pastSh.value in EndingOn(sharesFY, pastNi.value.end);
        Cagr(pastNi.value.val / pastSh.value.val, latestNi.val / latestSh.value.val,
             YearsBetween(pastNi.value.end, latestNi.end), pow)
      else None
  }

  /** `sharesFY[b]` is the shares fact for the latest income end `e`: the
      last one ending on `e`, else the last shares fact. */
  predicate IsLatestShares(sharesFY: seq<Fact>, e: Day, b: int)
  {
    IsLastEndingOn(sharesFY, e, b) ||
    (|sharesFY| > 0 && b == |sharesFY| - 1 && forall k :: 0 <= k < |sharesFY| ==> sharesFY[k].end != e)
  }

  /** The facts a derived EPS growth rate is computed from: `niFY[j]` the
      last income fact at least five years before the latest, `sharesFY[a]`
      the last shares fact ending on its end, `sharesFY[b]` the shares for
      the latest income, both per-share values positive. */
  predicate IsEpsDerivation(niFY: seq<Fact>, sharesFY: seq<Fact>, j: int, a: int, b: int)
  {
    |niFY| > 0 && IsLastPastCandidate(niFY, Last(niFY).end, 5.0, j) &&
    IsLastEndingOn(sharesFY, niFY[j].end, a) && IsLatestShares(sharesFY, Last(niFY).end, b) &&
    sharesFY[a].val != 0.0 && sharesFY[b].val != 0.0 &&
    niFY[j].val / sharesFY[a].val > 0.0 && Last(niFY).val / sharesFY[b].val > 0.0
  }

  /** The derived EPS growth rate exists exactly when such facts exist,
      and it is the CAGR of income per share between them. */
  lemma DerivedEpsCagrChoice(niFY: seq<Fact>, sharesFY: seq<Fact>, pow: Pow)
    ensures DerivedEpsCagr(niFY, sharesFY, pow).Some? <==> exists j, a, b :: IsEpsDerivation(niFY, sharesFY, j, a, b)
    ensures forall j, a, b :: IsEpsDerivation(niFY, sharesFY, j, a, b) ==>
      DerivedEpsCagr(niFY, sharesFY, pow) == Some(CagrRate(niFY[j].val / sharesFY[a].val,
        Last(niFY).val / sharesFY[b].val, YearsBetween(niFY[j].end, Last(niFY).end), pow))
  {
    var r := DerivedEpsCagr(niFY, sharesFY, pow);
    if |niFY| > 0 && |sharesFY| > 0 {
      var e := Last(niFY).end;
      LastPastCandidateUnique(niFY, e, 5.0);
      LastEndingOnUnique(sharesFY, e);
      var ls := OrElse(LastOrNone(EndingOn(sharesFY, e)), LastOrNone(sharesFY));
      forall b | IsLatestShares(sharesFY, e, b) ensures ls == Some(sharesFY[b]) {
      }
      forall j, a, b | IsEpsDerivation(niFY, sharesFY, j, a, b)
        ensures r == Some(CagrRate(niFY[j].val / sharesFY[a].val,
          Last(niFY).val / sharesFY[b].val, YearsBetween(niFY[j].end, Last(niFY).end), pow))
      {
        LastEndingOnUnique(sharesFY, niFY[j].end);
      }
      if r.Some? {
        var pn := PickPastValueNearYears(niFY, e, 5.0);
        var j :| IsLastPastCandidate(niFY, e, 5.0, j) && pn.value == niFY[j];
        LastEndingOnUnique(sharesFY, niFY[j].end);
        var ps := LastOrNone(EndingOn(sharesFY, niFY[j].end));
        var a :| IsLastEndingOn(sharesFY, niFY[j].end, a) && ps.value == sharesFY[a];
        var b: int;
        if LastOrNone(EndingOn(sharesFY, e)).Some? {
          b :| IsLastEndingOn(sharesFY, e, b) && LastOrNone(EndingOn(sharesFY, e)).value == sharesFY[b];
        } else {
          b := |sharesFY| - 1;
        }
        assert IsEpsDerivation(niFY, sharesFY, j, a, b);
      }
    }
  }

  /** `Metrics`; an `undefined` field is `None`. */
  datatype Metrics = Metrics(
    recentNetIncomeUpdateEnd: Day,
    ttmRevenue: real,
    ttmNetIncome: real,
    netMargin: Option<real>,
    roe: Option<real>,
    revenueCagr5y: Option<real>,
    netIncomeCagr5y: Option<real>,
    epsCagr5y: Option<real>,
    netIncomeGrowth5y: GrowthInfo,
    epsGrowth5y: GrowthInfo)

  /** The EPS CAGR: from FY EPS facts when there are any, else derived
      from income and the diluted (else basic) shares. */
  function EpsCagr(data: CompanyFacts, eps: seq<Fact>, niFY: seq<Fact>, pow: Pow): Option<real>
  {
    var epsFY := TenKFY(eps);
    if |epsFY| > 0 then CagrOverYears(epsFY, 5.0, pow)
    else
      var diluted := FirstUsGaapSeries(data, DilutedSharesConcepts(), ["shares"]);
      var basic := FirstUsGaapSeries(data, BasicSharesConcepts(), ["shares"]);
      var shares := if |diluted.series| > 0 then diluted.series else basic.series;
      DerivedEpsCagr(niFY, TenKFY(shares), pow)
  }

  function EpsUnits(): seq<string>
  {
    ["USD-per-shares", "USD/shares", "USD", "DKK", "EUR"]
  }

  /** `netIncomeGrowth5y`: growth of the income series up to its last
      10-K FY end. */
  function NetIncomeGrowth(netIncome: seq<Fact>, niFY: seq<Fact>, pow: Pow): (r: GrowthInfo)
    ensures |niFY| == 0 ==> r == NotAvailable(NoLatestNetIncomeEnd)
    ensures |niFY| > 0 ==> r == BuildGrowthInfo(netIncome, Last(niFY).end, 5.0, pow)
    ensures r.CagrInfo? ==> exists p, l :: (p in netIncome && l in netIncome && p.val > 0.0 && l.val > 0.0 &&
      p.end < l.end && YearsBetween(p.end, l.end) >= 5.0 &&
      r.value == CagrRate(p.val, l.val, YearsBetween(p.end, l.end), pow))
  {
    if |niFY| > 0 then
      GrowthRateMeaning(netIncome, Last(niFY).end, 5.0, pow);
      BuildGrowthInfo(netIncome, Last(niFY).end, 5.0, pow)
    else NotAvailable(NoLatestNetIncomeEnd)
  }

  /** `epsGrowth5y`: growth of the EPS series up to the last 10-K FY income
      end, else its own last end. A date string is never empty, so the
      'no eps end' answer cannot arise. */
  function EpsGrowth(eps: seq<Fact>, niFY: seq<Fact>, pow: Pow): (r: GrowthInfo)
    ensures |eps| == 0 ==> r == NotAvailable(NoEpsSeries)
    ensures |eps| > 0 && |niFY| > 0 ==> r == BuildGrowthInfo(eps, Last(niFY).end, 5.0, pow)
    ensures |eps| > 0 && |niFY| == 0 ==> r == BuildGrowthInfo(eps, Last(eps).end, 5.0, pow)
    ensures r.CagrInfo? ==> exists p, l :: (p in eps && l in eps && p.val > 0.0 && l.val > 0.0 &&
      p.end < l.end && YearsBetween(p.end, l.end) >= 5.0 &&
      r.value == CagrRate(p.val, l.val, YearsBetween(p.end, l.end), pow))
  {
    if |eps| > 0 then
      GrowthRateMeaning(eps, if |niFY| > 0 then Last(niFY).end else Last(eps).end, 5.0, pow);
      BuildGrowthInfo(eps, if |niFY| > 0 then Last(niFY).end else Last(eps).end, 5.0, pow)
    else NotAvailable(NoEpsSeries)
  }

  /** The metrics once the headline figures are known. */
  function MetricsFrom(data: CompanyFacts, revenue: seq<Fact>, netIncome: seq<Fact>,
                       h: Headline, pow: Pow): (m: Metrics)
    ensures m.recentNetIncomeUpdateEnd == h.recentEnd && m.ttmRevenue == h.revenue &&
      m.ttmNetIncome == h.netIncome
    ensures m.netMargin.Some? <==> h.revenue != 0.0
    ensures |TenKFY(netIncome)| == 0 ==> m.netIncomeGrowth5y == NotAvailable(NoLatestNetIncomeEnd)
  {
    var equity := FirstSeriesCrossTaxonomy(data, EquityConcepts(), ["USD", "DKK", "EUR"]);
    var niFY := TenKFY(netIncome);
    var eps := FirstSeriesCrossTaxonomy(data, EpsConcepts(), EpsUnits());
    Metrics(h.recentEnd, h.revenue, h.netIncome,
            NetMargin(h.revenue, h.netIncome),
            AverageEquityRoe(equity.series, h.recentEnd, h.netIncome),
            CagrOverYears(TenKFY(revenue), 5.0, pow), CagrOverYears(niFY, 5.0, pow),
            EpsCagr(data, eps.series, niFY, pow),
            NetIncomeGrowth(netIncome, niFY, pow), EpsGrowth(eps.series, niFY, pow))
  }

  /** The metrics agree with the income series `ni` they were computed
      from: the reference date is the end of one of its facts, the margin
      is defined exactly for non-zero revenue, and there is no net income
      growth figure when `ni` has no 10-K FY fact. */
  predicate MetricsAgree(m: Metrics, ni: seq<Fact>)
  {
    (exists k :: 0 <= k < |ni| && ni[k].end == m.recentNetIncomeUpdateEnd) &&
    (m.netMargin.Some? <==> m.ttmRevenue != 0.0) &&
    (|TenKFY(ni)| == 0 ==> m.netIncomeGrowth5y == NotAvailable(NoLatestNetIncomeEnd))
  }

  /** There are metrics when the revenue and the income series each hold
      an annual-like fact. */
  lemma MetricsWithAnnualFacts(data: CompanyFacts, pow: Pow, i: nat, j: nat)
    requires i < |RevenueSeries(data).series| && IsAnnualLike(RevenueSeries(data).series[i])
    requires j < |NetIncomeSeries(data).series| && IsAnnualLike(NetIncomeSeries(data).series[j])
    ensures ComputeSimplyStyleMetrics(data, pow).Some?
  {
    HeadlineWithAnnualFacts(RevenueSeries(data).series, NetIncomeSeries(data).series, i, j);
  }

  /** An annual-like fact in each series is enough for headline figures. */
  lemma HeadlineWithAnnualFacts(rev: seq<Fact>, ni: seq<Fact>, i: nat, j: nat)
    requires i < |rev| && IsAnnualLike(rev[i])
    requires j < |ni| && IsAnnualLike(ni[j])
    ensures HeadlineFigures(rev, ni).Some?
  {
    assert PickLatestAnnual(rev).Some? && PickLatestAnnual(ni).Some?;
  }

  /** Without a 10-K FY income fact there is no income CAGR. */
  lemma NoTenKIncomeNoRate(data: CompanyFacts, pow: Pow)
    requires ComputeSimplyStyleMetrics(data, pow).Some?
    requires TenKFY(NetIncomeSeries(data).series) == []
    ensures ComputeSimplyStyleMetrics(data, pow).value.netIncomeCagr5y.None?
  {
    var rev := RevenueSeries(data).series;
    var ni := NetIncomeSeries(data).series;
    var h := HeadlineFigures(rev, ni).value;
    assert ComputeSimplyStyleMetrics(data, pow).value == MetricsFrom(data, rev, ni, h, pow);
  }

  /** Series whose first facts are annual-like give metrics, and income
      facts none of which is on form 10-K give no income rate. */
  lemma NoTenKIncomeMetrics(data: CompanyFacts, pow: Pow, rev: seq<Fact>, ni: seq<Fact>)
    requires RevenueSeries(data).series == rev && NetIncomeSeries(data).series == ni
    requires |rev| > 0 && IsAnnualLike(rev[0]) && |ni| > 0 && IsAnnualLike(ni[0])
    requires forall k :: 0 <= k < |ni| ==> !FormIn(ni[k], AnnualForms)
    ensures ComputeSimplyStyleMetrics(data, pow).Some?
    ensures ComputeSimplyStyleMetrics(data, pow).value.netIncomeCagr5y.None?
  {
    MetricsWithAnnualFacts(data, pow, 0, 0);
    FilterNone(ni, (x: Fact) => FormIn(x, AnnualForms));
    NoTenKIncomeNoRate(data, pow);
  }

  /** The metrics from a revenue and an income series: none when either
      is empty or the headline figures are missing. */
  function MetricsOf(data: CompanyFacts, rev: seq<Fact>, ni: seq<Fact>, pow: Pow): (r: Option<Metrics>)
    ensures r.Some? <==> |rev| > 0 && |ni| > 0 && HeadlineFigures(rev, ni).Some?
    ensures r.Some? ==> MetricsAgree(r.value, ni)
  {
    if |rev| == 0 || |ni| == 0 then None
    else
      var headline := HeadlineFigures(rev, ni);
      if headline.None? then None
      else Some(MetricsFrom(data, rev, ni, headline.value, pow))
  }

  /** `computeSimplyStyleMetrics`: metrics exist exactly when both series
      exist and so do the headline figures, and they agree with the
      income series. */
  function ComputeSimplyStyleMetrics(data: CompanyFacts, pow: Pow): (r: Option<Metrics>)
    ensures r.Some? <==>
      |RevenueSeries(data).series| > 0 && |NetIncomeSeries(data).series| > 0 &&
      HeadlineFigures(RevenueSeries(data).series, NetIncomeSeries(data).series).Some?
    ensures r.Some? ==> MetricsAgree(r.value, NetIncomeSeries(data).series)
  {
    MetricsOf(data, RevenueSeries(data).series, NetIncomeSeries(data).series, pow)
  }
}
