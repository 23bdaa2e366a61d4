/** The summary card of the past-performance tab
    (client/src/features/stock/dto/stock-info.ts): the style metrics turned
    into display texts, where a missing income or EPS growth rate is
    replaced by the year of the first turnaround of the annual series. */
module StockInfoDto {
  import opened Common
  import opened Facts
  import opened Normalize
  import opened Units
  import opened Growth
  import opened PastMetrics
  import Ttm

  // ----- display texts -----

  /** `formatPct(x)`: 'n/a' when the figure is missing, else the percent. */
  function FormatPct(x: Option<real>): (r: Text)
    ensures r == NotAvailableText <==> x.None?
    ensures x.Some? ==> r == PercentText(x.value)
  {
    if x.None? then NotAvailableText else PercentText(x.value)
  }

  /** `GrowthDisplay`. */
  datatype GrowthDisplay =
    | PctDisplay(fraction: real)
    | TurnaroundDisplay(year: int, caption: string)
    | NaDisplay

  /** The `text` field of a display. */
  function TextOf(d: GrowthDisplay): Text
  {
    match d
    case PctDisplay(x) => PercentText(x)
    case TurnaroundDisplay(_, caption) => Literal(caption)
    case NaDisplay => NotAvailableText
  }

  /** What `formatPctOrTurnaround(cagr, fySeries)` answers: the rate when
      there is one, else the year of the first adjacent pair going from
      `<= 0` to `> 0` (a series shorter than two has no pair). Unlike the
      growth builder, a year of 0 is shown too. */
  function GrowthDisplayOf(cagr: Option<real>, fySeries: seq<Fact>): GrowthDisplay
  {
    if cagr.Some? then PctDisplay(cagr.value)
    else
      match TurnaroundFrom(fySeries, 1)
      case Some(k) => TurnaroundDisplay(YearOfDay(fySeries[k].end), TurnaroundLabel(YearOfDay(fySeries[k].end)))
      case None => NaDisplay
  }

  /** A rate is shown whenever there is one; otherwise a turnaround is
      shown exactly when the series has one, with the year of the first,
      and otherwise 'n/a'. */
  lemma GrowthDisplayCases(cagr: Option<real>, s: seq<Fact>)
    ensures GrowthDisplayOf(cagr, s).PctDisplay? <==> cagr.Some?
    ensures cagr.Some? ==> GrowthDisplayOf(cagr, s) == PctDisplay(cagr.value)
    ensures cagr.None? ==>
      (GrowthDisplayOf(cagr, s).TurnaroundDisplay? <==> exists k :: IsTurnaroundAt(s, k))
    ensures forall k :: (cagr.None? && IsTurnaroundAt(s, k) &&
      (forall j :: 1 <= j < k ==> !IsTurnaroundAt(s, j))) ==>
      GrowthDisplayOf(cagr, s) == TurnaroundDisplay(YearOfDay(s[k].end), TurnaroundLabel(YearOfDay(s[k].end)))
    ensures GrowthDisplayOf(cagr, s).NaDisplay? <==>
      cagr.None? && forall k :: 1 <= k < |s| ==> !IsTurnaroundAt(s, k)
  {
    if cagr.None? {
      match TurnaroundFrom(s, 1)
      case Some(k0) =>
        assert IsTurnaroundAt(s, k0);
        forall k | IsTurnaroundAt(s, k) && (forall j :: 1 <= j < k ==> !IsTurnaroundAt(s, j))
          ensures k == k0
        {
          assert !(k0 < k) && !(k < k0);
        }
      case None =>
    }
  }

  /** `formatPctOrTurnaround`: the early-returning scan over adjacent pairs. */
  method FormatPctOrTurnaround(cagr: Option<real>, fySeries: seq<Fact>) returns (d: GrowthDisplay)
    ensures d == GrowthDisplayOf(cagr, fySeries)
  {
    if cagr.Some? {
      return PctDisplay(cagr.value);
    }
    if |fySeries| >= 2 {
      var i := 1;
      while i < |fySeries|
        invariant 1 <= i
        invariant TurnaroundFrom(fySeries, 1) == TurnaroundFrom(fySeries, i)
        decreases |fySeries| - i
      {
        var prev := fySeries[i - 1];
        var cur := fySeries[i];
        if prev.val <= 0.0 && cur.val > 0.0 {
          var year := YearOfDay(cur.end);
          return TurnaroundDisplay(year, TurnaroundLabel(year));
        }
        i := i + 1;
      }
    }
    return NaDisplay;
  }

  // ----- the annual series -----

  /** `toFYSeriesFallbackAnnualLike`: the FY facts of 10-K, 10-K/A, 20-F and
      40-F filings (the same four forms as the growth builder's) when there
      are any, else the annual-like facts; series order either way. */
  function ToFYSeriesFallbackAnnualLike(items: seq<Fact>): (r: seq<Fact>)
    ensures forall i :: 0 <= i < |r| ==> r[i] in items
    ensures (exists k :: 0 <= k < |items| && FormIn(items[k], GrowthForms) && FpIn(items[k], ["FY"])) ==>
      |r| > 0 && forall i :: 0 <= i < |r| ==> FormIn(r[i], GrowthForms) && FpIn(r[i], ["FY"])
    ensures (forall k :: 0 <= k < |items| ==> !(FormIn(items[k], GrowthForms) && FpIn(items[k], ["FY"]))) ==>
      (forall i :: 0 <= i < |r| ==> IsAnnualLike(r[i])) &&
      (forall k :: 0 <= k < |items| && IsAnnualLike(items[k]) ==> items[k] in r)
  {
    var fy := FilterByFp(FilterByForms(items, GrowthForms), ["FY"]);
    if |fy| > 0 then
      assert fy[0] in items;
      fy
    else
      assert forall k :: 0 <= k < |items| && FormIn(items[k], GrowthForms) && FpIn(items[k], ["FY"]) ==>
        items[k] in FilterByForms(items, GrowthForms);
      AnnualLikeOf(items)
  }

  /** The summary's sorted FY series holds the facts the growth builder
      picks from the same list, in end-date order: the two choose alike. */
  lemma FYSeriesAgreesWithGrowth(items: seq<Fact>)
    ensures var s := SortByEnd(ToFYSeriesFallbackAnnualLike(items));
      SortedByEnd(s) && multiset(s) == multiset(PickAnnualSeriesForGrowth(items))
  {
    SortByEndSorted(ToFYSeriesFallbackAnnualLike(items));
  }

  // ----- the income series -----

  function UsGaapNetIncome(data: CompanyFacts): seq<Fact>
  {
    PickUnitSeriesWithCurrencyFallback(data, USGaap, "NetIncomeLoss", ["USD"])
  }

  function IfrsProfitLoss(data: CompanyFacts): seq<Fact>
  {
    PickUnitSeriesWithCurrencyFallback(data, IfrsFull, "ProfitLoss", ["DKK", "EUR", "USD"])
  }

  /** `niItems` as written: `usGaapPick || ifrsPick`. The picker returns an
      array, and an array is truthy even when empty, so the `||` always
      yields the us-gaap pick. */
  function NetIncomeItemsAsWritten(data: CompanyFacts): (r: seq<Fact>)
    ensures |UsGaapNetIncome(data)| == 0 ==> r == []
  {
    UsGaapNetIncome(data)
  }

  /** The intended `niItems`: the us-gaap income when it has facts, else
      the IFRS profit or loss. */
  function NetIncomeItems(data: CompanyFacts): (r: seq<Fact>)
    ensures |r| > 0 <==> |UsGaapNetIncome(data)| > 0 || |IfrsProfitLoss(data)| > 0
    ensures |UsGaapNetIncome(data)| > 0 ==> r == UsGaapNetIncome(data)
    ensures |UsGaapNetIncome(data)| == 0 ==> r == IfrsProfitLoss(data)
  {
    var u := UsGaapNetIncome(data);
    if |u| > 0 then u else IfrsProfitLoss(data)
  }

  /** One IFRS filer reporting profit in euros, and nothing under us-gaap. */
  function IfrsOnlyFiler(): CompanyFacts
  {
    CompanyFacts([(IfrsFull, [("ProfitLoss", Concept([("EUR", [IfrsProfit()])]))])])
  }

  function IfrsProfit(): Fact
  {
    Fact(19722, Some(19358), 1000.0, "0001", Some(2023), Some("FY"), Some("20-F"), Some(19800))
  }

  lemma IfrsOnlyFilerHasNoUsGaapIncome()
    ensures UsGaapNetIncome(IfrsOnlyFiler()) == []
  {
    var data := IfrsOnlyFiler();
    assert UnitsOf(data, USGaap, "NetIncomeLoss").None?;
    CurrencyFallback(data, USGaap, "NetIncomeLoss", ["USD"]);
  }

  lemma IfrsOnlyFilerProfit()
    ensures IfrsProfitLoss(IfrsOnlyFiler()) == [IfrsProfit()]
  {
    var data := IfrsOnlyFiler();
    var f := IfrsProfit();
    var units := [("EUR", [f])];
    assert UnitsOf(data, IfrsFull, "ProfitLoss") == Some(units);
    assert !HasNonEmpty(units, "DKK");
    assert HasNonEmpty(units, "EUR");
    assert FirstPreferred(units, ["DKK", "EUR", "USD"]) == Some([f]);
    assert ByEnd([f]) == [f] by {
      assert [f][..0] == [];
    }
    assert SortByEnd([f]) == [f] by {
      assert [f][..0] == [];
    }
    assert PickUnitSeries(data, IfrsFull, "ProfitLoss", ["DKK", "EUR", "USD"]) == [f];
  }

  /** For an IFRS-only filer the written `||` yields no income facts at
      all, where the intended fallback finds the euro profit. */
  lemma NetIncomeFallbackNeverTaken()
    ensures NetIncomeItemsAsWritten(IfrsOnlyFiler()) == []
    ensures NetIncomeItems(IfrsOnlyFiler()) == [IfrsProfit()]
  {
    IfrsOnlyFilerHasNoUsGaapIncome();
    IfrsOnlyFilerProfit();
  }

  /** An IFRS filer with a loss in 2022 and a profit in 2023, both filed
      on form 20-F, revenue in both years, and nothing under us-gaap. */
  function IfrsTurnaroundFiler(): CompanyFacts
  {
    CompanyFacts([(IfrsFull, [("Revenue", Concept([("EUR", [IfrsRevenue(19357, 8000.0), IfrsRevenue(19722, 9000.0)])])),
                              ("ProfitLoss", Concept([("EUR", [IfrsLoss(), IfrsProfit()])]))])])
  }

  function IfrsLoss(): Fact
  {
    Fact(19357, Some(18993), -500.0, "0001", Some(2022), Some("FY"), Some("20-F"), Some(19430))
  }

  function IfrsRevenue(end: Day, val: real): Fact
  {
    Fact(end, Some(end - 364), val, "0001", Some(YearOfDay(end)), Some("FY"), Some("20-F"), Some(end + 70))
  }

  /** Two facts with increasing end dates are already normalized. */
  lemma NormalizedPair(a: Fact, b: Fact)
    requires a.end < b.end
    ensures Normalized([a, b]) == [a, b]
  {
    assert [a, b][..1] == [a];
    assert [a][..0] == [];
    assert ByEnd([a]) == [a];
    assert IndexOfEnd([a], b.end).None?;
    assert ByEnd([a, b]) == [a, b];
    assert [a, b][..1] == [a];
    assert SortByEnd([a]) == [a];
    assert SortByEnd([a, b]) == InsertByEnd(b, [a]);
  }

  /** Two FY facts of annual forms with increasing end dates are their own
      sorted FY series. */
  lemma FYSeriesOfPair(a: Fact, b: Fact)
    requires a.end < b.end
    requires FormIn(a, GrowthForms) && FpIn(a, ["FY"]) && FormIn(b, GrowthForms) && FpIn(b, ["FY"])
    ensures SortByEnd(ToFYSeriesFallbackAnnualLike([a, b])) == [a, b]
  {
    var s := [a, b];
    FilterAll(s, (x: Fact) => FormIn(x, GrowthForms));
    FilterAll(s, (x: Fact) => FpIn(x, ["FY"]));
    assert ToFYSeriesFallbackAnnualLike(s) == s;
    assert s[..1] == [a];
    assert [a][..0] == [];
    assert SortByEnd(s) == InsertByEnd(b, [a]);
  }

  /** The filer has no us-gaap income. */
  lemma IfrsTurnaroundNoUsGaap()
    ensures UsGaapNetIncome(IfrsTurnaroundFiler()) == []
  {
    var data := IfrsTurnaroundFiler();
    assert Lookup(data.facts, USGaap).None?;
    CurrencyFallback(data, USGaap, "NetIncomeLoss", ["USD"]);
  }

  /** The filer's IFRS profit or loss, the loss first. */
  lemma IfrsTurnaroundProfitLoss()
    ensures IfrsProfitLoss(IfrsTurnaroundFiler()) == [IfrsLoss(), IfrsProfit()]
  {
    var data := IfrsTurnaroundFiler();
    var s := [IfrsLoss(), IfrsProfit()];
    var units := [("EUR", s)];
    assert UnitsOf(data, IfrsFull, "ProfitLoss") == Some(units);
    assert !HasNonEmpty(units, "DKK");
    assert FirstPreferred(units, ["DKK", "EUR", "USD"]) == Some(s);
    NormalizedPair(IfrsLoss(), IfrsProfit());
    assert PickUnitSeries(data, IfrsFull, "ProfitLoss", ["DKK", "EUR", "USD"]) == s;
  }

  /** The filer's profit or loss in the units the income search prefers. */
  lemma IfrsTurnaroundProfitPick()
    ensures PickUnitSeriesWithCurrencyFallback(IfrsTurnaroundFiler(), IfrsFull, "ProfitLoss", ["USD", "DKK", "EUR"]) ==
      [IfrsLoss(), IfrsProfit()]
  {
    var data := IfrsTurnaroundFiler();
    var s := [IfrsLoss(), IfrsProfit()];
    var units := [("EUR", s)];
    assert UnitsOf(data, IfrsFull, "ProfitLoss") == Some(units);
    assert !HasNonEmpty(units, "USD") && !HasNonEmpty(units, "DKK");
    assert FirstPreferred(units, ["USD", "DKK", "EUR"]) == Some(s);
    NormalizedPair(IfrsLoss(), IfrsProfit());
    assert PickUnitSeries(data, IfrsFull, "ProfitLoss", ["USD", "DKK", "EUR"]) == s;
    CurrencyFallback(data, IfrsFull, "ProfitLoss", ["USD", "DKK", "EUR"]);
  }

  /** The income series of the style metrics is the filer's profit or
      loss: no concept has us-gaap data and the IFRS `NetIncomeLoss` is
      absent. */
  lemma IfrsTurnaroundIncomeSeries()
    ensures NetIncomeSeries(IfrsTurnaroundFiler()).series == [IfrsLoss(), IfrsProfit()]
  {
    IfrsTurnaroundNoNetIncomeLoss();
    IfrsTurnaroundProfitSeries();
  }

  /** The filer reports `NetIncomeLoss` under neither taxonomy. */
  lemma IfrsTurnaroundNoNetIncomeLoss()
    ensures FirstSeriesCrossTaxonomy(IfrsTurnaroundFiler(), ["NetIncomeLoss"], ["USD"]).series == []
  {
    var data := IfrsTurnaroundFiler();
    assert Lookup(data.facts, USGaap).None?;
    AbsentConcept(data, USGaap, "NetIncomeLoss", ["USD"]);
    AbsentConcept(data, IfrsFull, "NetIncomeLoss", ["USD"]);
    assert FirstConcept(data, USGaap, ["NetIncomeLoss"], ["USD"]).None?;
    assert FirstConcept(data, IfrsFull, ["NetIncomeLoss"], ["USD"]).None?;
  }

  /** Of the profit concepts, the first the filer reports is the IFRS
      `ProfitLoss`. */
  lemma IfrsTurnaroundProfitSeries()
    ensures FirstSeriesCrossTaxonomy(IfrsTurnaroundFiler(),
              ["ProfitLoss", "ProfitLossAttributableToOwnersOfParent", "NetIncomeLoss"], ["USD", "DKK", "EUR"]).series ==
            [IfrsLoss(), IfrsProfit()]
  {
    var data := IfrsTurnaroundFiler();
    var pref := ["USD", "DKK", "EUR"];
    var profit := ["ProfitLoss", "ProfitLossAttributableToOwnersOfParent", "NetIncomeLoss"];
    assert Lookup(data.facts, USGaap).None?;
    forall i | 0 <= i < |profit|
      ensures !HasSeries(data, USGaap, profit[i], pref)
    {
      AbsentConcept(data, USGaap, profit[i], pref);
    }
    assert FirstConcept(data, USGaap, profit, pref).None?;
    IfrsTurnaroundProfitPick();
    assert FirstConcept(data, IfrsFull, profit, pref) == Some("ProfitLoss");
  }

  /** The filer's IFRS `Revenue` in the units the revenue search prefers. */
  lemma IfrsTurnaroundRevenuePick()
    ensures PickUnitSeries(IfrsTurnaroundFiler(), IfrsFull, "Revenue", ["USD", "DKK", "EUR"]) ==
      [IfrsRevenue(19357, 8000.0), IfrsRevenue(19722, 9000.0)]
  {
    var data := IfrsTurnaroundFiler();
    var s := [IfrsRevenue(19357, 8000.0), IfrsRevenue(19722, 9000.0)];
    var units := [("EUR", s)];
    assert UnitsOf(data, IfrsFull, "Revenue") == Some(units);
    assert !HasNonEmpty(units, "USD") && !HasNonEmpty(units, "DKK");
    assert FirstPreferred(units, ["USD", "DKK", "EUR"]) == Some(s);
    NormalizedPair(s[0], s[1]);
  }

  /** The revenue series of the style metrics is the filer's IFRS
      `Revenue`: no us-gaap candidate has data, and of the IFRS candidates
      only `Revenue` does. */
  lemma IfrsTurnaroundRevenueSeries()
    ensures RevenueSeries(IfrsTurnaroundFiler()).series == [IfrsRevenue(19357, 8000.0), IfrsRevenue(19722, 9000.0)]
  {
    var data := IfrsTurnaroundFiler();
    assert Lookup(data.facts, USGaap).None?;
    BestSeriesNone(data, USGaap, RevenueConcepts(), ["USD"]);
    IfrsTurnaroundOtherRevenue();
    IfrsTurnaroundRevenuePick();
    BestSeriesOnly(data, IfrsFull, RevenueConcepts() + ["Revenue"], ["USD", "DKK", "EUR"], 6);
  }

  /** Of the IFRS revenue candidates, the filer reports only `Revenue`. */
  lemma IfrsTurnaroundOtherRevenue()
    ensures var concepts := RevenueConcepts() + ["Revenue"];
      forall i :: 0 <= i < |concepts| && i != 6 ==> UnitsOf(IfrsTurnaroundFiler(), IfrsFull, concepts[i]).None?
  {
    var data := IfrsTurnaroundFiler();
    var concepts := RevenueConcepts() + ["Revenue"];
    var ifrs := [("Revenue", Concept([("EUR", [IfrsRevenue(19357, 8000.0), IfrsRevenue(19722, 9000.0)])])),
                 ("ProfitLoss", Concept([("EUR", [IfrsLoss(), IfrsProfit()])]))];
    assert Lookup(data.facts, IfrsFull) == Some(ifrs);
    forall i | 0 <= i < |concepts| && i != 6
      ensures UnitsOf(data, IfrsFull, concepts[i]).None?
    {
      assert concepts[i] != "Revenue" && concepts[i] != "ProfitLoss";
    }
  }

  /** The sample's first revenue fact and its loss are annual-like; neither
      income fact is on form 10-K or 10-K/A. */
  lemma TurnaroundFacts()
    ensures IsAnnualLike(IfrsRevenue(19357, 8000.0)) && IsAnnualLike(IfrsLoss())
    ensures !FormIn(IfrsLoss(), Ttm.AnnualForms) && !FormIn(IfrsProfit(), Ttm.AnnualForms)
  {
  }

  /** The filer's style-metric series start with annual-like facts, and
      none of its income facts is on form 10-K or 10-K/A. */
  lemma IfrsTurnaroundSeriesShape()
    ensures var rev := RevenueSeries(IfrsTurnaroundFiler()).series;
      |rev| > 0 && IsAnnualLike(rev[0])
    ensures var ni := NetIncomeSeries(IfrsTurnaroundFiler()).series;
      |ni| > 0 && IsAnnualLike(ni[0]) && forall k :: 0 <= k < |ni| ==> !FormIn(ni[k], Ttm.AnnualForms)
  {
    IfrsTurnaroundRevenueShape();
    IfrsTurnaroundIncomeShape();
  }

  lemma IfrsTurnaroundRevenueShape()
    ensures var rev := RevenueSeries(IfrsTurnaroundFiler()).series;
      |rev| > 0 && IsAnnualLike(rev[0])
  {
    IfrsTurnaroundRevenueSeries();
    TurnaroundFacts();
  }

  lemma IfrsTurnaroundIncomeShape()
    ensures var ni := NetIncomeSeries(IfrsTurnaroundFiler()).series;
      |ni| > 0 && IsAnnualLike(ni[0]) && forall k :: 0 <= k < |ni| ==> !FormIn(ni[k], Ttm.AnnualForms)
  {
    IfrsTurnaroundIncomeSeries();
    LossProfitShape(NetIncomeSeries(IfrsTurnaroundFiler()).series);
  }

  /** The loss then the profit: annual-like, neither on an annual form. */
  lemma LossProfitShape(ni: seq<Fact>)
    requires ni == [IfrsLoss(), IfrsProfit()]
    ensures |ni| > 0 && IsAnnualLike(ni[0]) && forall k :: 0 <= k < |ni| ==> !FormIn(ni[k], Ttm.AnnualForms)
  {
    TurnaroundFacts();
  }

  /** The filer has style metrics, and none of its income facts is on form
      10-K, so they have no income rate. */
  lemma IfrsTurnaroundMetrics(pow: Pow)
    ensures ComputeSimplyStyleMetrics(IfrsTurnaroundFiler(), pow).Some?
    ensures ComputeSimplyStyleMetrics(IfrsTurnaroundFiler(), pow).value.netIncomeCagr5y.None?
  {
    var data := IfrsTurnaroundFiler();
    IfrsTurnaroundSeriesShape();
    NoTenKIncomeMetrics(data, pow, RevenueSeries(data).series, NetIncomeSeries(data).series);
  }

  /** The FY series the intended fallback builds for the filer is the loss
      then the profit. */
  lemma IfrsTurnaroundSeries()
    ensures UsGaapNetIncome(IfrsTurnaroundFiler()) == []
    ensures IncomeFYCorrected(IfrsTurnaroundFiler()) == [IfrsLoss(), IfrsProfit()]
  {
    var data := IfrsTurnaroundFiler();
    IfrsTurnaroundNoUsGaap();
    IfrsTurnaroundProfitLoss();
    FYSeriesOfPair(IfrsLoss(), IfrsProfit());
    assert IncomeFYCorrected(data) == SortByEnd(ToFYSeriesFallbackAnnualLike(IfrsProfitLoss(data)));
  }

  /** A filer with style metrics but no income rate, no us-gaap income
      and the loss then the profit as its IFRS FY series: the written
      summary shows 'n/a' for the income growth, the corrected one the
      turnaround year. */
  lemma TurnaroundSummaryTexts(data: CompanyFacts, pow: Pow)
    requires ComputeSimplyStyleMetrics(data, pow).Some?
    requires ComputeSimplyStyleMetrics(data, pow).value.netIncomeCagr5y.None?
    requires UsGaapNetIncome(data) == []
    requires IncomeFYCorrected(data) == [IfrsLoss(), IfrsProfit()]
    ensures SummaryOf(data, pow).Some? && SummaryOfCorrected(data, pow).Some?
    ensures SummaryOf(data, pow).value.netIncomeCagr5yPct == NotAvailableText
    ensures SummaryOfCorrected(data, pow).value.netIncomeCagr5yPct ==
      Literal(TurnaroundLabel(YearOfDay(IfrsProfit().end)))
  {
    var s := [IfrsLoss(), IfrsProfit()];
    IfrsIncomeGrowthText(data, pow);
    assert IsTurnaroundAt(s, 1);
    GrowthTextCases(None, s);
  }

  /** The sample filer's written summary shows 'n/a' for its income growth
      although its FY income goes from a loss to a profit. */
  lemma IfrsTurnaroundSummaries(pow: Pow)
    ensures SummaryOf(IfrsTurnaroundFiler(), pow).Some?
    ensures SummaryOf(IfrsTurnaroundFiler(), pow).value.netIncomeCagr5yPct == NotAvailableText
    ensures SummaryOfCorrected(IfrsTurnaroundFiler(), pow).value.netIncomeCagr5yPct ==
      Literal(TurnaroundLabel(YearOfDay(IfrsProfit().end)))
  {
    IfrsTurnaroundMetrics(pow);
    IfrsTurnaroundSeries();
    TurnaroundSummaryTexts(IfrsTurnaroundFiler(), pow);
  }

  // ----- the EPS series -----

  /** `epsCandidates`, in order. */
  function EpsCandidates(): seq<(string, string)>
  {
    [(USGaap, "EarningsPerShareDiluted"), (USGaap, "EarningsPerShareBasic"),
     (IfrsFull, "BasicEarningsLossPerShare"), (IfrsFull, "DilutedEarningsLossPerShare")]
  }

  /** The units the EPS candidates are tried with. */
  function SummaryEpsUnits(): seq<string>
  {
    ["USD-per-shares", "USD/shares", "DKK", "EUR", "USD"]
  }

  function CandidateSeries(data: CompanyFacts, c: (string, string)): seq<Fact>
  {
    PickUnitSeriesWithCurrencyFallback(data, c.0, c.1, SummaryEpsUnits())
  }

  /** The series of the candidates, in order. */
  function CandidateSeriesAll(data: CompanyFacts, cands: seq<(string, string)>): (ss: seq<seq<Fact>>)
    ensures |ss| == |cands| && forall k :: 0 <= k < |cands| ==> ss[k] == CandidateSeries(data, cands[k])
  {
    seq(|cands|, k requires 0 <= k < |cands| => CandidateSeries(data, cands[k]))
  }

  /** The series of the first candidate that has facts, else []. */
  function FirstEps(data: CompanyFacts): seq<Fact>
  {
    FirstNonEmpty(CandidateSeriesAll(data, EpsCandidates()))
  }

  /** The candidate loop with `break`: the first non-empty series wins. */
  method PickEpsItems(data: CompanyFacts) returns (epsItems: seq<Fact>)
    ensures epsItems == FirstEps(data)
  {
    var cands := EpsCandidates();
    ghost var ss := CandidateSeriesAll(data, cands);
    epsItems := [];
    var i := 0;
    while i < |cands|
      invariant 0 <= i <= |cands|
      invariant FirstNonEmptyIndex(ss, 0) == FirstNonEmptyIndex(ss, i)
      decreases |cands| - i
    {
      var s := PickUnitSeriesWithCurrencyFallback(data, cands[i].0, cands[i].1, SummaryEpsUnits());
      assert s == ss[i];
      if |s| > 0 {
        epsItems := s;
        break;
      }
      i := i + 1;
    }
  }

  // ----- the summary -----

  /** `SummaryDTO`; the optional growth and future fields are never set
      by the builder. */
  datatype SummaryDTO = SummaryDTO(
    recentUpdateEnd: Day,
    revenueTtm: real,
    netIncomeTtm: real,
    netMarginPct: Text,
    roePct: Text,
    revenueCagr5yPct: Text,
    netIncomeCagr5yPct: Text,
    epsCagr5yPct: Text)

  /** The sorted FY income series the turnaround is looked for in, from
      the written `||`: nothing without us-gaap income. */
  function IncomeFY(data: CompanyFacts): (r: seq<Fact>)
    ensures UsGaapNetIncome(data) == [] ==> r == []
    ensures SortedByEnd(r)
  {
    var items := NetIncomeItemsAsWritten(data);
    SortByEndSorted(ToFYSeriesFallbackAnnualLike(items));
    SortByEnd(ToFYSeriesFallbackAnnualLike(items))
  }

  /** The same series from the intended fallback to the IFRS profit. */
  function IncomeFYCorrected(data: CompanyFacts): (r: seq<Fact>)
    ensures UsGaapNetIncome(data) != [] ==> r == IncomeFY(data)
    ensures UsGaapNetIncome(data) == [] ==> r == SortByEnd(ToFYSeriesFallbackAnnualLike(IfrsProfitLoss(data)))
    ensures SortedByEnd(r)
  {
    var items := NetIncomeItems(data);
    SortByEndSorted(ToFYSeriesFallbackAnnualLike(items));
    SortByEnd(ToFYSeriesFallbackAnnualLike(items))
  }

  /** The sorted FY EPS series. */
  function EpsFY(data: CompanyFacts): seq<Fact>
  {
    SortByEnd(ToFYSeriesFallbackAnnualLike(FirstEps(data)))
  }

  /** The summary of a company with style metrics `m` and sorted FY
      income and EPS series `niFY` and `epsFY`. */
  function SummaryFrom(m: Metrics, niFY: seq<Fact>, epsFY: seq<Fact>): SummaryDTO
  {
    SummaryDTO(m.recentNetIncomeUpdateEnd, m.ttmRevenue, m.ttmNetIncome,
               FormatPct(m.netMargin), FormatPct(m.roe), FormatPct(m.revenueCagr5y),
               TextOf(GrowthDisplayOf(m.netIncomeCagr5y, niFY)),
               TextOf(GrowthDisplayOf(m.epsCagr5y, epsFY)))
  }

  /** The summary of optional metrics and the two FY series. */
  function SummaryWith(om: Option<Metrics>, niFY: seq<Fact>, epsFY: seq<Fact>): (r: Option<SummaryDTO>)
    ensures r.Some? <==> om.Some?
    ensures r.Some? ==> r.value == SummaryFrom(om.value, niFY, epsFY)
  {
    if om.None? then None else Some(SummaryFrom(om.value, niFY, epsFY))
  }

  /** What `buildSummaryDTO` returns: a summary exactly when there are
      style metrics, carrying their figures. */
  function SummaryOf(data: CompanyFacts, pow: Pow): (r: Option<SummaryDTO>)
    ensures CarriesMetrics(r, ComputeSimplyStyleMetrics(data, pow))
  {
    SummaryWithCarries(ComputeSimplyStyleMetrics(data, pow), IncomeFY(data), EpsFY(data));
    SummaryWith(ComputeSimplyStyleMetrics(data, pow), IncomeFY(data), EpsFY(data))
  }

  /** A summary `r` of the metrics `om`: present exactly when they are,
      with their date, their two TTM figures and their revenue growth. */
  predicate CarriesMetrics(r: Option<SummaryDTO>, om: Option<Metrics>)
  {
    (r.Some? <==> om.Some?) &&
    (om.Some? ==>
       r.Some? && r.value.recentUpdateEnd == om.value.recentNetIncomeUpdateEnd &&
       r.value.revenueTtm == om.value.ttmRevenue && r.value.netIncomeTtm == om.value.ttmNetIncome &&
       r.value.revenueCagr5yPct == FormatPct(om.value.revenueCagr5y))
  }

  lemma SummaryWithCarries(om: Option<Metrics>, niFY: seq<Fact>, epsFY: seq<Fact>)
    ensures CarriesMetrics(SummaryWith(om, niFY, epsFY), om)
  {
  }

  /** The summary with the intended income fallback: it differs from the
      written one at most in the income growth text. */
  function SummaryOfCorrected(data: CompanyFacts, pow: Pow): (r: Option<SummaryDTO>)
    ensures DiffersAtMostInIncomeText(r, SummaryOf(data, pow))
  {
    SummaryWithIncome(ComputeSimplyStyleMetrics(data, pow), IncomeFYCorrected(data), IncomeFY(data), EpsFY(data));
    SummaryWith(ComputeSimplyStyleMetrics(data, pow), IncomeFYCorrected(data), EpsFY(data))
  }

  /** Two optional summaries, both present or both absent, that agree in
      every field but the income growth text. */
  predicate DiffersAtMostInIncomeText(a: Option<SummaryDTO>, b: Option<SummaryDTO>)
  {
    (a.Some? <==> b.Some?) &&
    (a.Some? ==> a.value == b.value.(netIncomeCagr5yPct := a.value.netIncomeCagr5yPct))
  }

  lemma SummaryWithIncome(om: Option<Metrics>, a: seq<Fact>, b: seq<Fact>, epsFY: seq<Fact>)
    ensures DiffersAtMostInIncomeText(SummaryWith(om, a, epsFY), SummaryWith(om, b, epsFY))
  {
  }

  /** `buildSummaryDTO`. */
  method BuildSummaryDTO(data: CompanyFacts, pow: Pow) returns (r: Option<SummaryDTO>)
    ensures r == SummaryOf(data, pow)
  {
    var m := ComputeSimplyStyleMetrics(data, pow);
    if m.None? {
      return None;
    }
    var s := SummarizeMetrics(data, m.value);
    return Some(s);
  }

  /** The part of `buildSummaryDTO` after the metrics are known: the two
      FY series, their growth displays, and the texts. */
  method SummarizeMetrics(data: CompanyFacts, m: Metrics) returns (s: SummaryDTO)
    ensures s == SummaryFrom(m, IncomeFY(data), EpsFY(data))
  {
    var niItems := NetIncomeItemsAsWritten(data);
    var niFY := SortByEnd(ToFYSeriesFallbackAnnualLike(niItems));
    var epsItems := PickEpsItems(data);
    var epsFY := SortByEnd(ToFYSeriesFallbackAnnualLike(epsItems));
    var niDisp := FormatPctOrTurnaround(m.netIncomeCagr5y, niFY);
    var epsDisp := FormatPctOrTurnaround(m.epsCagr5y, epsFY);
    s := SummaryDTO(m.recentNetIncomeUpdateEnd, m.ttmRevenue, m.ttmNetIncome,
                    FormatPct(m.netMargin), FormatPct(m.roe), FormatPct(m.revenueCagr5y),
                    TextOf(niDisp), TextOf(epsDisp));
  }

  /** As written, a company without us-gaap income whose metrics have no
      income rate gets 'n/a' for the income growth whatever its IFRS profit
      does; the corrected summary shows the text of the IFRS profit series
      instead. */
  lemma IfrsIncomeGrowthText(data: CompanyFacts, pow: Pow)
    requires ComputeSimplyStyleMetrics(data, pow).Some?
    requires ComputeSimplyStyleMetrics(data, pow).value.netIncomeCagr5y.None?
    requires UsGaapNetIncome(data) == []
    ensures SummaryOf(data, pow).value.netIncomeCagr5yPct == NotAvailableText
    ensures SummaryOfCorrected(data, pow).value.netIncomeCagr5yPct ==
      TextOf(GrowthDisplayOf(None, SortByEnd(ToFYSeriesFallbackAnnualLike(IfrsProfitLoss(data)))))
  {
    var m := ComputeSimplyStyleMetrics(data, pow).value;
    GrowthTextCases(None, IncomeFY(data));
  }

  /** A summary's date is the end of an income fact, and its margin is
      'n/a' exactly when the revenue is zero. */
  lemma SummaryFields(data: CompanyFacts, pow: Pow)
    requires ComputeSimplyStyleMetrics(data, pow).Some?
    ensures SummaryOf(data, pow).Some?
    ensures SummaryOf(data, pow).Some? ==> var s := SummaryOf(data, pow).value;
      var ni := NetIncomeSeries(data).series;
      (exists k :: 0 <= k < |ni| && ni[k].end == s.recentUpdateEnd) &&
      (s.netMarginPct == NotAvailableText <==> s.revenueTtm == 0.0)
  {
    SummaryWithFields(ComputeSimplyStyleMetrics(data, pow), NetIncomeSeries(data).series, IncomeFY(data), EpsFY(data));
  }

  /** The summary of metrics that agree with the income series `ni`. */
  lemma SummaryWithFields(om: Option<Metrics>, ni: seq<Fact>, niFY: seq<Fact>, epsFY: seq<Fact>)
    requires om.Some? && MetricsAgree(om.value, ni)
    ensures var s := SummaryWith(om, niFY, epsFY).value;
      (exists k :: 0 <= k < |ni| && ni[k].end == s.recentUpdateEnd) &&
      (s.netMarginPct == NotAvailableText <==> s.revenueTtm == 0.0)
  {
    SummaryFromFields(om.value, niFY, epsFY);
  }

  lemma SummaryFromFields(m: Metrics, niFY: seq<Fact>, epsFY: seq<Fact>)
    ensures SummaryFrom(m, niFY, epsFY).recentUpdateEnd == m.recentNetIncomeUpdateEnd
    ensures SummaryFrom(m, niFY, epsFY).revenueTtm == m.ttmRevenue
    ensures SummaryFrom(m, niFY, epsFY).netMarginPct == NotAvailableText <==> m.netMargin.None?
  {
  }

  /** The text of a growth display: the rate when there is one; else the
      label of the first turnaround of the series; else 'n/a'. */
  lemma GrowthTextCases(cagr: Option<real>, s: seq<Fact>)
    ensures cagr.Some? ==> TextOf(GrowthDisplayOf(cagr, s)) == PercentText(cagr.value)
    ensures cagr.None? && (forall k :: 1 <= k < |s| ==> !IsTurnaroundAt(s, k)) ==>
      TextOf(GrowthDisplayOf(cagr, s)) == NotAvailableText
    ensures forall k :: (cagr.None? && IsTurnaroundAt(s, k) &&
      (forall j :: 1 <= j < k ==> !IsTurnaroundAt(s, j))) ==>
      TextOf(GrowthDisplayOf(cagr, s)) == Literal(TurnaroundLabel(YearOfDay(s[k].end)))
  {
    GrowthDisplayCases(cagr, s);
  }

  /** The income growth text of a summary is that of the income rate over
      the sorted FY income series, and the EPS text that of the EPS rate
      over the sorted FY EPS series. */
  lemma SummaryGrowthTexts(m: Metrics, niFY: seq<Fact>, epsFY: seq<Fact>)
    ensures var t := SummaryFrom(m, niFY, epsFY).netIncomeCagr5yPct;
      var s := niFY;
      (m.netIncomeCagr5y.Some? ==> t == PercentText(m.netIncomeCagr5y.value)) &&
      (m.netIncomeCagr5y.None? && (forall k :: 1 <= k < |s| ==> !IsTurnaroundAt(s, k)) ==>
         t == NotAvailableText) &&
      (forall k :: (m.netIncomeCagr5y.None? && IsTurnaroundAt(s, k) &&
         (forall j :: 1 <= j < k ==> !IsTurnaroundAt(s, j))) ==>
         t == Literal(TurnaroundLabel(YearOfDay(s[k].end))))
    ensures var t := SummaryFrom(m, niFY, epsFY).epsCagr5yPct;
      var s := epsFY;
      (m.epsCagr5y.Some? ==> t == PercentText(m.epsCagr5y.value)) &&
      (m.epsCagr5y.None? && (forall k :: 1 <= k < |s| ==> !IsTurnaroundAt(s, k)) ==>
         t == NotAvailableText) &&
      (forall k :: (m.epsCagr5y.None? && IsTurnaroundAt(s, k) &&
         (forall j :: 1 <= j < k ==> !IsTurnaroundAt(s, j))) ==>
         t == Literal(TurnaroundLabel(YearOfDay(s[k].end))))
  {
    GrowthTextCases(m.netIncomeCagr5y, niFY);
    GrowthTextCases(m.epsCagr5y, epsFY);
  }
}
