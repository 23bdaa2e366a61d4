/** The five-item past-performance checklist of
    client/src/features/stock/utils/stock-past-info.ts
    (`computePastChecklistSimplyStyle`): quality of earnings, improving
    margins, earnings trend, accelerating growth and high ROE. */
module PastChecklist {
  import opened Common
  import opened Facts
  import opened Units
  import opened Ttm
  import opened Growth
  import opened PastMetrics
  import opened Checklist

  // ----- series selection -----

  /** The revenue concepts, with the IFRS hint `Revenue` last. */
  function ChecklistRevenueConcepts(): seq<string>
  {
    RevenueConcepts() + ["Revenue"]
  }

  function OcfConcepts(): seq<string>
  {
    ["NetCashProvidedByUsedInOperatingActivities", "CashFlowsFromUsedInOperatingActivities",
     "NetCashFlowsFromUsedInOperatingActivities", "CashFlowsFromUsedInOperations"]
  }

  function CapexConcepts(): seq<string>
  {
    ["PaymentsToAcquirePropertyPlantAndEquipment", "PaymentsToAcquireProductiveAssets",
     "CapitalExpenditures", "PurchaseOfPropertyPlantAndEquipment",
     "AdditionsToPropertyPlantAndEquipment", "PaymentsToAcquireIntangibleAssets",
     "PurchaseOfIntangibleAssets"]
  }

  function ChecklistNetIncomeConcepts(): seq<string>
  {
    ["NetIncomeLoss", "ProfitLoss", "ProfitLossAttributableToOwnersOfParent"]
  }

  /** The revenue series: the best scoring us-gaap concept in USD, else the
      best ifrs-full one in USD, DKK or EUR. */
  function ChecklistRevenue(data: CompanyFacts): (r: Picked)
    ensures var us := BestSeries(data, USGaap, ChecklistRevenueConcepts(), ["USD"]);
      var ifrs := BestSeries(data, IfrsFull, ChecklistRevenueConcepts(), ["USD", "DKK", "EUR"]);
      (|us.series| > 0 ==> r == Picked(Some(USGaap), us.concept, us.series)) &&
      (|us.series| == 0 ==> r == Picked(Some(IfrsFull), ifrs.concept, ifrs.series))
  {
    var us := BestSeries(data, USGaap, ChecklistRevenueConcepts(), ["USD"]);
    if |us.series| > 0 then Picked(Some(USGaap), us.concept, us.series)
    else
      var ifrs := BestSeries(data, IfrsFull, ChecklistRevenueConcepts(), ["USD", "DKK", "EUR"]);
      Picked(Some(IfrsFull), ifrs.concept, ifrs.series)
  }

  /** One concept's cash-flow or equity series: us-gaap in USD, else
      ifrs-full in DKK, EUR or USD (each with the currency fallback). */
  function FlowSeriesOf(data: CompanyFacts, concept: string): seq<Fact>
  {
    var us := PickUnitSeriesWithCurrencyFallback(data, USGaap, concept, ["USD"]);
    if |us| > 0 then us
    else PickUnitSeriesWithCurrencyFallback(data, IfrsFull, concept, ["DKK", "EUR", "USD"])
  }

  /** The series of each concept, in order. */
  function FlowSeriesAll(data: CompanyFacts, concepts: seq<string>): (ss: seq<seq<Fact>>)
    ensures |ss| == |concepts| && forall k :: 0 <= k < |concepts| ==> ss[k] == FlowSeriesOf(data, concepts[k])
  {
    seq(|concepts|, k requires 0 <= k < |concepts| => FlowSeriesOf(data, concepts[k]))
  }

  /** The series of the first concept with data in either taxonomy. The
      taxonomies alternate per concept: an ifrs-full series of an earlier
      concept wins over a us-gaap series of a later one. */
  function FirstFlowSeries(data: CompanyFacts, concepts: seq<string>): (r: seq<Fact>)
    ensures r == [] <==> forall i :: 0 <= i < |concepts| ==> FlowSeriesOf(data, concepts[i]) == []
    ensures r != [] ==> exists i :: (0 <= i < |concepts| && r == FlowSeriesOf(data, concepts[i]) &&
      forall k :: 0 <= k < i ==> FlowSeriesOf(data, concepts[k]) == [])
  {
    FirstNonEmpty(FlowSeriesAll(data, concepts))
  }

  /** The concept loop as written: for each concept, us-gaap then
      ifrs-full, returning the first non-empty series. */
  method PickFirstFlowSeries(data: CompanyFacts, concepts: seq<string>) returns (r: seq<Fact>)
    ensures r == FirstFlowSeries(data, concepts)
  {
    ghost var ss := FlowSeriesAll(data, concepts);
    var i := 0;
    while i < |concepts|
      invariant 0 <= i <= |concepts|
      invariant FirstNonEmptyIndex(ss, 0) == FirstNonEmptyIndex(ss, i)
    {
      var us := PickUnitSeriesWithCurrencyFallback(data, USGaap, concepts[i], ["USD"]);
      if |us| > 0 {
        assert ss[i] == us;
        return us;
      }
      var ifrs := PickUnitSeriesWithCurrencyFallback(data, IfrsFull, concepts[i], ["DKK", "EUR", "USD"]);
      assert ss[i] == ifrs;
      if |ifrs| > 0 {
        return ifrs;
      }
      i := i + 1;
    }
    return [];
  }

  /** A 10-K FY fact, the tier the checklist prefers. */
  predicate IsTenKFY(x: Fact)
  {
    FormIn(x, AnnualForms) && FpIn(x, ["FY"])
  }

  /** The FY-like series: the 10-K FY facts when there are any, else the
      annual-like facts, in series order either way. */
  function FYOrAnnualLike(s: seq<Fact>): (r: seq<Fact>)
    ensures forall i :: 0 <= i < |r| ==> r[i] in s
    ensures (exists k :: 0 <= k < |s| && IsTenKFY(s[k])) ==>
      |r| > 0 && forall i :: 0 <= i < |r| ==> IsTenKFY(r[i])
    ensures (forall k :: 0 <= k < |s| ==> !IsTenKFY(s[k])) ==>
      (forall i :: 0 <= i < |r| ==> IsAnnualLike(r[i])) &&
      (forall k :: 0 <= k < |s| && IsAnnualLike(s[k]) ==> s[k] in r)
  {
    var k := TenKFY(s);
    if |k| > 0 then
      assert k[0] in s && IsTenKFY(k[0]);
      k
    else
      AnnualLikeOf(s)
  }

  // ----- the figures -----

  /** The element before the last (`s[s.length - 2]` when there are two). */
  function SecondLast(s: seq<Fact>): (r: Option<Fact>)
    ensures r.Some? <==> |s| >= 2
    ensures r.Some? ==> r.value == s[|s| - 2]
  {
    if |s| >= 2 then Some(s[|s| - 2]) else None
  }

  /** Net income over revenue, when both exist and revenue is not zero. */
  function MarginOf(ni: Option<Fact>, rev: Option<Fact>): (r: Option<real>)
    ensures r.Some? <==> ni.Some? && rev.Some? && rev.value.val != 0.0
    ensures r.Some? ==> r.value * rev.value.val == ni.value.val
  {
    if ni.Some? && rev.Some? && rev.value.val != 0.0 then Some(ni.value.val / rev.value.val) else None
  }

  /** The cash-flow fact for the FY ending `end`: the FY annual-form fact
      "as of" it, else the annual-like one. */
  function FlowFYItem(flow: seq<Fact>, end: Day): (r: Option<Fact>)
    ensures r.Some? ==> r.value in flow && (IsFYAnnualForm(r.value) || IsAnnualLike(r.value))
    ensures r.None? <==> forall k :: 0 <= k < |flow| ==> !IsFYAnnualForm(flow[k]) && !IsAnnualLike(flow[k])
    ensures (exists k :: 0 <= k < |flow| && IsFYAnnualForm(flow[k])) ==> r.Some? && IsFYAnnualForm(r.value)
    ensures (exists k :: 0 <= k < |flow| && IsFYAnnualForm(flow[k])) ==>
      r.Some? && AsOfChoice(flow, IsFYAnnualForm, end, r.value)
    ensures (forall k :: 0 <= k < |flow| ==> !IsFYAnnualForm(flow[k])) ==> r == PickAnnualAsOf(flow, end)
  {
    if |flow| > 0 then OrElse(PickFYAsOf(flow, end), PickAnnualAsOf(flow, end)) else None
  }

  /** The cash-flow fact for the year of the latest FY income, if any. */
  function FlowForLatestNi(niFY: seq<Fact>, flow: seq<Fact>): (r: Option<Fact>)
    ensures r.Some? ==> |niFY| > 0 && r == FlowFYItem(flow, Last(niFY).end)
    ensures |niFY| == 0 ==> r.None?
    ensures |niFY| > 0 ==> r == FlowFYItem(flow, Last(niFY).end)
  {
    if |niFY| > 0 then FlowFYItem(flow, Last(niFY).end) else None
  }

  /** `ocfFY + capexFY` when both exist (capital spending is usually
      reported negative, so this subtracts it). */
  function FreeCashFlow(ocf: Option<Fact>, capex: Option<Fact>): (r: Option<real>)
    ensures r.Some? <==> ocf.Some? && capex.Some?
    ensures r.Some? ==> r.value - capex.value.val == ocf.value.val
  {
    if ocf.Some? && capex.Some? then Some(ocf.value.val + capex.value.val) else None
  }

  /** `x.val > 0`. */
  predicate IsProfit(x: Fact)
  {
    x.val > 0.0
  }

  /** `x.fp === 'FY' || isAnnualLike(x)`. */
  predicate IsYearly(x: Fact)
  {
    IsFY(x) || IsAnnualLike(x)
  }

  /** The number of profitable years among the last three yearly facts by
      end date. */
  function PositiveCount3y(niFY: seq<Fact>): (r: nat)
    ensures r <= 3
  {
    Count(TakeLast(SortByEnd(Filter(niFY, IsYearly)), 3), IsProfit)
  }

  /** `latest / prev - 1` for the last two facts, `prev` non-zero. */
  function RevenueYoY(revFY: seq<Fact>): (r: Option<real>)
    ensures r.Some? <==> |revFY| >= 2 && revFY[|revFY| - 2].val != 0.0
    ensures r.Some? ==> (r.value + 1.0) * revFY[|revFY| - 2].val == Last(revFY).val
  {
    if |revFY| >= 2 && revFY[|revFY| - 2].val != 0.0 then
      Some(Last(revFY).val / revFY[|revFY| - 2].val - 1.0)
    else None
  }

  /** The ROE for the latest FY income: that income over the mean of the
      last equity value by its end and one at least a year older. */
  function RoeForLatestNi(niFY: seq<Fact>, equity: seq<Fact>): (r: Option<real>)
    ensures r.Some? ==> |niFY| > 0 && exists l, p :: (l in equity && p in equity &&
      l.end <= Last(niFY).end && IsPastCandidate(p, l.end, 1.0) && Average(l.val, p.val) != 0.0 &&
      r.value == Last(niFY).val / Average(l.val, p.val))
  {
    if |niFY| > 0 then AverageEquityRoe(equity, Last(niFY).end, Last(niFY).val) else None
  }

  /** The ROE exists exactly when there is latest FY income and an equity
      pair for its end, and it is that income over the pair's mean. */
  lemma RoeForLatestNiChoice(niFY: seq<Fact>, equity: seq<Fact>)
    ensures RoeForLatestNi(niFY, equity).Some? <==> |niFY| > 0 && exists i, j :: IsRoePair(equity, Last(niFY).end, i, j)
    ensures |niFY| > 0 ==> forall i, j :: IsRoePair(equity, Last(niFY).end, i, j) ==>
      RoeForLatestNi(niFY, equity) == Some(Last(niFY).val / Average(equity[i].val, equity[j].val))
  {
    if |niFY| > 0 {
      AverageEquityRoeChoice(equity, Last(niFY).end, Last(niFY).val);
    }
  }

  // ----- the rules -----

  /** NI(FY) > 0 and FCF(FY) > NI(FY). */
  predicate QualityPass(ni: Option<real>, fcf: Option<real>)
  {
    ni.Some? && ni.value > 0.0 && fcf.Some? && fcf.value > ni.value
  }

  /** The latest margin is positive and above the previous year's. */
  predicate ImprovingMarginsPass(latest: Option<real>, past: Option<real>)
  {
    latest.Some? && past.Some? && latest.value > 0.0 && latest.value > past.value
  }

  /** Positive latest income and a positive CAGR, or, without a CAGR, at
      least two profitable years among the last three. */
  predicate EarningsTrendPass(niLatest: Option<real>, cagr5y: Option<real>, positiveCount3y: nat)
  {
    niLatest.Some? && niLatest.value > 0.0 &&
    ((cagr5y.Some? && cagr5y.value > 0.0) || (cagr5y.None? && positiveCount3y >= 2))
  }

  /** Year-over-year revenue growth above the three-year CAGR. */
  predicate AcceleratingGrowthPass(yoy: Option<real>, cagr3y: Option<real>)
  {
    yoy.Some? && cagr3y.Some? && yoy.value > cagr3y.value
  }

  predicate HighRoePass(roe: Option<real>, threshold: real)
  {
    roe.Some? && roe.value > threshold
  }

  // ----- the result -----

  datatype PastKey = QualityOfEarnings | ImprovingMargins | EarningsTrend | AcceleratingGrowth | HighRoe

  /** `quality: { ocfFY, niFY, fcfFY }`. */
  datatype Quality = Quality(ocfFY: Option<real>, niFY: Option<real>, fcfFY: Option<real>)

  /** `PastChecklistResult`; `revenueCagr5y` is always `undefined`. */
  datatype PastChecklistResult = PastChecklistResult(
    score: nat,
    items: seq<Item<PastKey>>,
    recentEnd: Option<Day>,
    netMarginLatest: Option<real>,
    netMarginPast: Option<real>,
    revenueCagr3y: Option<real>,
    revenueCagr5y: Option<real>,
    netIncomeCagr5y: Option<real>,
    roe: Option<real>,
    quality: Quality)

  /** The checklist computed from the chosen series: the FY-like revenue
      and income series, the operating cash flow, capital spending and
      equity series. */
  function PastChecklistFrom(revFY: seq<Fact>, niFY: seq<Fact>, ocf: seq<Fact>, capex: seq<Fact>,
                             equity: seq<Fact>, roeThreshold: real, pow: Pow): (r: PastChecklistResult)
    ensures |r.items| == 5
    ensures r.items[0].key == QualityOfEarnings && r.items[1].key == ImprovingMargins &&
      r.items[2].key == EarningsTrend && r.items[3].key == AcceleratingGrowth && r.items[4].key == HighRoe
    ensures r.score == Count(r.items, Passes) && r.score <= 5
  {
    var latestRev := LastOrNone(revFY);
    var latestNi := LastOrNone(niFY);
    var ocfItem := FlowForLatestNi(niFY, ocf);
    var fcf := FreeCashFlow(ocfItem, FlowForLatestNi(niFY, capex));
    var marginLatest := MarginOf(latestNi, latestRev);
    var marginPast := MarginOf(SecondLast(niFY), SecondLast(revFY));
    var niCagr5y := CagrOverYears(niFY, 5.0, pow);
    var revCagr3y := CagrOverYears(revFY, 3.0, pow);
    var roe := RoeForLatestNi(niFY, equity);
    var items := [
      Item(QualityOfEarnings, "양질의 수익", QualityPass(ValOf(latestNi), fcf)),
      Item(ImprovingMargins, "이익 마진 증가", ImprovingMarginsPass(marginLatest, marginPast)),
      Item(EarningsTrend, "수익추이", EarningsTrendPass(ValOf(latestNi), niCagr5y, PositiveCount3y(niFY))),
      Item(AcceleratingGrowth, "성장 가속화", AcceleratingGrowthPass(RevenueYoY(revFY), revCagr3y)),
      Item(HighRoe, "높은 ROE", HighRoePass(roe, roeThreshold))];
    ScoreCountsPasses(items);
    PastChecklistResult(Score(items), items, OrElse(EndOf(latestNi), EndOf(latestRev)),
                        marginLatest, marginPast, revCagr3y, None, niCagr5y, roe,
                        Quality(ValOf(ocfItem), ValOf(latestNi), fcf))
  }

  /** The series the checklist reads. */
  datatype PastSeries = PastSeries(revFY: seq<Fact>, niFY: seq<Fact>, ocf: seq<Fact>, capex: seq<Fact>,
                                   equity: seq<Fact>)

  /** The FY-like revenue and net income series, and the operating cash
      flow, capital spending and equity series. */
  function ChecklistSeries(data: CompanyFacts): PastSeries
  {
    var revenue := ChecklistRevenue(data);
    var netIncome := FirstSeriesCrossTaxonomy(data, ChecklistNetIncomeConcepts(), ["USD", "DKK", "EUR"]);
    PastSeries(FYOrAnnualLike(revenue.series), FYOrAnnualLike(netIncome.series),
               FirstFlowSeries(data, OcfConcepts()), FirstFlowSeries(data, CapexConcepts()),
               FirstFlowSeries(data, EquityConcepts()))
  }

  /** The checklist on the chosen series, the ROE threshold defaulting
      to 0.15. */
  function PastChecklistOf(s: PastSeries, roeThreshold: Option<real>, pow: Pow): (r: PastChecklistResult)
    ensures |r.items| == 5 && r.score == Count(r.items, Passes)
    ensures roeThreshold.None? ==> (r.items[4].pass <==> r.roe.Some? && r.roe.value > 0.15)
    ensures roeThreshold.Some? ==> (r.items[4].pass <==> r.roe.Some? && r.roe.value > roeThreshold.value)
  {
    var threshold := OrElse(roeThreshold, Some(0.15)).value;
    HighRoeRule(s.revFY, s.niFY, s.ocf, s.capex, s.equity, threshold, pow);
    PastChecklistFrom(s.revFY, s.niFY, s.ocf, s.capex, s.equity, threshold, pow)
  }

  /** `computePastChecklistSimplyStyle(data, { roeThreshold })`. */
  function ComputePastChecklistSimplyStyle(data: CompanyFacts, roeThreshold: Option<real>, pow: Pow)
    : PastChecklistResult
  {
    PastChecklistOf(ChecklistSeries(data), roeThreshold, pow)
  }

  // ----- what each rule means -----

  /** Earnings trend passes exactly when the latest FY income is positive
      and either its five-year CAGR is positive or, with no CAGR, at least
      two of the last three yearly results were profits. */
  lemma EarningsTrendRule(revFY: seq<Fact>, niFY: seq<Fact>, ocf: seq<Fact>, capex: seq<Fact>,
                          equity: seq<Fact>, roeThreshold: real, pow: Pow)
    ensures var r := PastChecklistFrom(revFY, niFY, ocf, capex, equity, roeThreshold, pow);
      (r.items[2].pass <==> (|niFY| > 0 && Last(niFY).val > 0.0 &&
        ((r.netIncomeCagr5y.Some? && r.netIncomeCagr5y.value > 0.0) ||
         (r.netIncomeCagr5y.None? && PositiveCount3y(niFY) >= 2)))) &&
      r.netIncomeCagr5y == CagrOverYears(niFY, 5.0, pow)
  {
  }

  /** Quality of earnings passes exactly when the latest FY income is
      positive and below the free cash flow of the cash-flow facts for
      that year. */
  lemma QualityRule(revFY: seq<Fact>, niFY: seq<Fact>, ocf: seq<Fact>, capex: seq<Fact>,
                    equity: seq<Fact>, roeThreshold: real, pow: Pow)
    ensures var r := PastChecklistFrom(revFY, niFY, ocf, capex, equity, roeThreshold, pow);
      (r.items[0].pass <==> (|niFY| > 0 && Last(niFY).val > 0.0 && r.quality.fcfFY.Some? &&
        r.quality.fcfFY.value > Last(niFY).val)) &&
      r.quality.fcfFY == FreeCashFlow(FlowForLatestNi(niFY, ocf), FlowForLatestNi(niFY, capex)) &&
      r.quality.ocfFY == ValOf(FlowForLatestNi(niFY, ocf))
  {
  }

  /** Improving margins passes exactly when the latest income-to-revenue
      margin is positive and above the previous year's; each margin needs
      both facts and a non-zero revenue. */
  lemma MarginsRule(revFY: seq<Fact>, niFY: seq<Fact>, ocf: seq<Fact>, capex: seq<Fact>,
                    equity: seq<Fact>, roeThreshold: real, pow: Pow)
    ensures var r := PastChecklistFrom(revFY, niFY, ocf, capex, equity, roeThreshold, pow);
      (r.items[1].pass <==> (r.netMarginLatest.Some? && r.netMarginPast.Some? &&
        r.netMarginLatest.value > 0.0 && r.netMarginLatest.value > r.netMarginPast.value)) &&
      r.netMarginLatest == MarginOf(LastOrNone(niFY), LastOrNone(revFY)) &&
      r.netMarginPast == MarginOf(SecondLast(niFY), SecondLast(revFY))
  {
  }

  /** Accelerating growth passes exactly when both the year-over-year
      revenue growth and the three-year CAGR exist and the first is larger;
      there is never a five-year revenue CAGR. */
  lemma AcceleratingGrowthRule(revFY: seq<Fact>, niFY: seq<Fact>, ocf: seq<Fact>, capex: seq<Fact>,
                               equity: seq<Fact>, roeThreshold: real, pow: Pow)
    ensures var r := PastChecklistFrom(revFY, niFY, ocf, capex, equity, roeThreshold, pow);
      (r.items[3].pass <==> (RevenueYoY(revFY).Some? && r.revenueCagr3y.Some? &&
        RevenueYoY(revFY).value > r.revenueCagr3y.value)) &&
      r.revenueCagr3y == CagrOverYears(revFY, 3.0, pow) && r.revenueCagr5y.None?
  {
  }

  /** High ROE passes exactly when the ROE for the latest FY income exists
      and exceeds the threshold. */
  lemma HighRoeRule(revFY: seq<Fact>, niFY: seq<Fact>, ocf: seq<Fact>, capex: seq<Fact>,
                    equity: seq<Fact>, roeThreshold: real, pow: Pow)
    ensures var r := PastChecklistFrom(revFY, niFY, ocf, capex, equity, roeThreshold, pow);
      (r.items[4].pass <==> r.roe.Some? && r.roe.value > roeThreshold) &&
      r.roe == RoeForLatestNi(niFY, equity)
  {
  }

  /** The reference date is the end of the latest FY income fact, else of
      the latest FY revenue fact. */
  lemma RecentEndRule(revFY: seq<Fact>, niFY: seq<Fact>, ocf: seq<Fact>, capex: seq<Fact>,
                      equity: seq<Fact>, roeThreshold: real, pow: Pow)
    ensures var r := PastChecklistFrom(revFY, niFY, ocf, capex, equity, roeThreshold, pow);
      (|niFY| > 0 ==> r.recentEnd == Some(Last(niFY).end)) &&
      (|niFY| == 0 && |revFY| > 0 ==> r.recentEnd == Some(Last(revFY).end)) &&
      (r.recentEnd.None? <==> |niFY| == 0 && |revFY| == 0)
  {
  }

  /** Every fact of an FY-like series is yearly, so the re-filter before
      counting profitable years keeps the whole series: the count looks at
      the last three of its facts by end date. */
  lemma PositiveCountOfFYLike(s: seq<Fact>)
    ensures PositiveCount3y(FYOrAnnualLike(s)) == Count(TakeLast(SortByEnd(FYOrAnnualLike(s)), 3), IsProfit)
  {
    var r := FYOrAnnualLike(s);
    forall i | 0 <= i < |r| ensures IsYearly(r[i]) {
      if exists k :: 0 <= k < |s| && IsTenKFY(s[k]) {
        assert IsTenKFY(r[i]);
      }
    }
    FilterAll(r, IsYearly);
  }
}
