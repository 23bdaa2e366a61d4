/** The future checklist: forward EPS estimates, the growth pickers over
    Yahoo's earnings-trend rows, the forward ROE approximation and the
    four-item checklist built from them. */
module Future {
  import opened Common
  import opened Checklist

  /** One `earningsTrend.trend` row, holding only the values the checklist
      reads: `earningsEstimate.{avg, growth, yearAgoEps}`, `epsTrend.current`
      and `revenueEstimate.growth` (a missing sub-object leaves its values
      `None`). `endDate` is the row date's ISO text. */
  datatype TrendRow = TrendRow(
    period: string,
    endDate: Option<string>,
    growth: Option<real>,
    estimateAvg: Option<real>,
    estimateGrowth: Option<real>,
    yearAgoEps: Option<real>,
    epsCurrent: Option<real>,
    revenueGrowth: Option<real>)

  /** The part of the Yahoo quote summary the checklist reads; a missing
      `earningsTrend` is an empty trend list. */
  datatype FutureYahoo = FutureYahoo(
    trend: seq<TrendRow>,
    returnOnEquity: Option<real>,
    mostRecentQuarter: Option<string>)

  // ----- trend rows -----

  /** `pickTrendRow`: the first row of the given period. */
  function TrendRowFor(trend: seq<TrendRow>, period: string): (r: Option<TrendRow>)
    ensures r.None? <==> forall i :: 0 <= i < |trend| ==> trend[i].period != period
    ensures r.Some? ==> exists i :: (0 <= i < |trend| && trend[i] == r.value &&
      r.value.period == period && forall j :: 0 <= j < i ==> trend[j].period != period)
  {
    if trend == [] then None
    else if trend[0].period == period then
      assert trend[0] == trend[0];
      Some(trend[0])
    else
      var r := TrendRowFor(trend[1..], period);
      assert forall i :: 0 < i < |trend| ==> trend[i] == trend[1..][i - 1];
      r
  }

  /** `pickTrendRowByPriority`: the row of the first listed period that has
      one. */
  function TrendRowByPriority(trend: seq<TrendRow>, periods: seq<string>): Option<TrendRow>
  {
    if periods == [] then None
    else OrElse(TrendRowFor(trend, periods[0]), TrendRowByPriority(trend, periods[1..]))
  }

  /** The priority pick is the row of the first period, in the listed order,
      that has a row, and there is none only when no listed period has one. */
  lemma {:induction false} TrendRowByPriorityFirst(trend: seq<TrendRow>, periods: seq<string>)
    ensures TrendRowByPriority(trend, periods).None? <==>
      forall k :: 0 <= k < |periods| ==> TrendRowFor(trend, periods[k]).None?
    ensures TrendRowByPriority(trend, periods).Some? ==>
      exists k :: 0 <= k < |periods| && TrendRowByPriority(trend, periods) == TrendRowFor(trend, periods[k]) &&
        forall j :: 0 <= j < k ==> TrendRowFor(trend, periods[j]).None?
  {
    if periods != [] {
      var rest := periods[1..];
      TrendRowByPriorityFirst(trend, rest);
      if TrendRowFor(trend, periods[0]).Some? {
        assert TrendRowByPriority(trend, periods) == TrendRowFor(trend, periods[0]);
      } else {
        assert TrendRowByPriority(trend, periods) == TrendRowByPriority(trend, rest);
        forall k | 0 < k < |periods| ensures periods[k] == rest[k - 1] {
        }
        if TrendRowByPriority(trend, rest).Some? {
          var k :| 0 <= k < |rest| && TrendRowByPriority(trend, rest) == TrendRowFor(trend, rest[k]) &&
            forall j :: 0 <= j < k ==> TrendRowFor(trend, rest[j]).None?;
          assert TrendRowByPriority(trend, periods) == TrendRowFor(trend, periods[k + 1]);
        }
      }
    }
  }

  /** The periods the growth pickers try, in order. */
  function GrowthPeriods(): seq<string>
  {
    ["+5y", "+1y", "0y"]
  }

  /** The priority pick over `+5y`, `+1y`, `0y`: the `+5y` row when there is
      one, else the `+1y` row, else the `0y` row. */
  lemma GrowthRowOrder(trend: seq<TrendRow>)
    ensures TrendRowFor(trend, "+5y").Some? ==>
      TrendRowByPriority(trend, GrowthPeriods()) == TrendRowFor(trend, "+5y")
    ensures TrendRowFor(trend, "+5y").None? && TrendRowFor(trend, "+1y").Some? ==>
      TrendRowByPriority(trend, GrowthPeriods()) == TrendRowFor(trend, "+1y")
    ensures TrendRowFor(trend, "+5y").None? && TrendRowFor(trend, "+1y").None? ==>
      TrendRowByPriority(trend, GrowthPeriods()) == TrendRowFor(trend, "0y")
  {
    var ps := GrowthPeriods();
    assert ps[1..] == ["+1y", "0y"];
    assert ps[1..][1..] == ["0y"];
    assert ps[1..][1..][1..] == [];
    assert TrendRowByPriority(trend, ["0y"]) == TrendRowFor(trend, "0y");
    assert TrendRowByPriority(trend, ["+1y", "0y"]) ==
      OrElse(TrendRowFor(trend, "+1y"), TrendRowFor(trend, "0y"));
  }

  // ----- forward EPS estimates -----

  /** `pickForwardEpsAvg`: `earningsEstimate.avg` of the period's row. */
  function ForwardEpsAvg(trend: seq<TrendRow>, period: string): (r: Option<real>)
    ensures r.Some? <==> TrendRowFor(trend, period).Some? && TrendRowFor(trend, period).value.estimateAvg.Some?
  {
    var row := TrendRowFor(trend, period);
    if row.Some? then row.value.estimateAvg else None
  }

  /** The defined values, in order (`filter((x) => typeof x === 'number')`). */
  function PresentValues(xs: seq<Option<real>>): (r: seq<real>)
    ensures |r| <= |xs|
    ensures forall i :: 0 <= i < |r| ==> Some(r[i]) in xs
    ensures forall i :: 0 <= i < |xs| && xs[i].Some? ==> xs[i].value in r
  {
    if xs == [] then []
    else
      var rest := PresentValues(xs[1..]);
      assert forall i :: 0 < i < |xs| ==> xs[i] == xs[1..][i - 1];
      if xs[0].Some? then [xs[0].value] + rest else rest
  }

  /** The `+1y`, `+2y` and `+3y` EPS averages. */
  function EpsWithin3y(trend: seq<TrendRow>): seq<Option<real>>
  {
    [ForwardEpsAvg(trend, "+1y"), ForwardEpsAvg(trend, "+2y"), ForwardEpsAvg(trend, "+3y")]
  }

  /** Some average is defined. */
  predicate HasEstimate(xs: seq<Option<real>>)
  {
    exists i :: 0 <= i < |xs| && xs[i].Some?
  }

  /** `allEpsNonPositiveWithin3y`: false with no estimate at all; otherwise
      true exactly when every defined estimate is at most zero. */
  function AllNonPositive(xs: seq<Option<real>>): (r: bool)
    ensures r <==> HasEstimate(xs) && forall i :: 0 <= i < |xs| && xs[i].Some? ==> xs[i].value <= 0.0
  {
    var arr := PresentValues(xs);
    if |arr| == 0 then
      assert !HasEstimate(xs);
      false
    else
      var k :| 0 <= k < |arr|;
      assert Some(arr[k]) in xs;
      (forall i :: 0 <= i < |arr| ==> arr[i] <= 0.0)
  }

  /** `hasPositiveEpsWithin3y`: false with no estimate at all; otherwise
      true exactly when some defined estimate is positive. */
  function HasPositive(xs: seq<Option<real>>): (r: bool)
    ensures r <==> exists i :: 0 <= i < |xs| && xs[i].Some? && xs[i].value > 0.0
  {
    var arr := PresentValues(xs);
    if |arr| == 0 then false
    else (exists i :: 0 <= i < |arr| && arr[i] > 0.0)
  }

  /** With at least one estimate exactly one of the two predicates holds;
      with none, neither does. */
  lemma EpsPredicatesExclusive(xs: seq<Option<real>>)
    ensures HasEstimate(xs) ==> (AllNonPositive(xs) <==> !HasPositive(xs))
    ensures !HasEstimate(xs) ==> !AllNonPositive(xs) && !HasPositive(xs)
  {
  }

  // ----- growth pickers -----

  /** `pickForwardEarningsGrowth`: the priority row's `growth`, else its
      `earningsEstimate.growth`. */
  function ForwardEarningsGrowth(trend: seq<TrendRow>): (r: Option<real>)
    ensures var row := TrendRowByPriority(trend, GrowthPeriods());
      (row.None? ==> r.None?) &&
      (row.Some? && row.value.growth.Some? ==> r == row.value.growth) &&
      (row.Some? && row.value.growth.None? ==> r == row.value.estimateGrowth)
  {
    var row := TrendRowByPriority(trend, GrowthPeriods());
    if row.None? then None
    else OrElse(row.value.growth, row.value.estimateGrowth)
  }

  /** `(current - yearAgo) / Math.abs(yearAgo)`. */
  function RelativeChange(current: real, yearAgo: real): (r: real)
    requires yearAgo != 0.0
    ensures r * Abs(yearAgo) == current - yearAgo
    ensures r > 0.0 <==> current > yearAgo
  {
    (current - yearAgo) / Abs(yearAgo)
  }

  /** `pickForwardEpsGrowth`: the relative change of the priority row's
      current EPS trend over the year-ago EPS when both are defined and the
      year-ago EPS is not zero, else its `earningsEstimate.growth`. */
  function ForwardEpsGrowth(trend: seq<TrendRow>): (r: Option<real>)
    ensures var row := TrendRowByPriority(trend, GrowthPeriods());
      (row.None? ==> r.None?) &&
      (row.Some? && row.value.epsCurrent.Some? && row.value.yearAgoEps.Some? &&
       row.value.yearAgoEps.value != 0.0 ==>
         r.Some? && r.value * Abs(row.value.yearAgoEps.value) ==
           row.value.epsCurrent.value - row.value.yearAgoEps.value) &&
      ((row.Some? && !(row.value.epsCurrent.Some? && row.value.yearAgoEps.Some? &&
        row.value.yearAgoEps.value != 0.0)) ==> r == row.value.estimateGrowth)
  {
    var row := TrendRowByPriority(trend, GrowthPeriods());
    if row.None? then None
    else if row.value.epsCurrent.Some? && row.value.yearAgoEps.Some? && row.value.yearAgoEps.value != 0.0 then
      Some(RelativeChange(row.value.epsCurrent.value, row.value.yearAgoEps.value))
    else row.value.estimateGrowth
  }

  /** `pickForwardRevenueGrowth`: `revenueEstimate.growth` of the `+1y` row,
      or of the `0y` row when there is no `+1y` row. The value is used as
      reported: it is not normalised. */
  function ForwardRevenueGrowth(trend: seq<TrendRow>): (r: Option<real>)
    ensures TrendRowFor(trend, "+1y").Some? ==> r == TrendRowFor(trend, "+1y").value.revenueGrowth
    ensures TrendRowFor(trend, "+1y").None? && TrendRowFor(trend, "0y").Some? ==>
      r == TrendRowFor(trend, "0y").value.revenueGrowth
    ensures TrendRowFor(trend, "+1y").None? && TrendRowFor(trend, "0y").None? ==> r.None?
  {
    var row := OrElse(TrendRowFor(trend, "+1y"), TrendRowFor(trend, "0y"));
    if row.Some? then row.value.revenueGrowth else None
  }

  /** `x > 1 ? x / 100 : x`: a growth above 1 is read as a percentage. */
  function AsFraction(x: real): (r: real)
    ensures x > 1.0 ==> r * 100.0 == x
    ensures x <= 1.0 ==> r == x
    ensures r <= x || x < 0.0
  {
    if x > 1.0 then x / 100.0 else x
  }

  /** `computeFutureRoeYahooStyle`: the current ROE grown by the earnings
      growth, both required. */
  function FutureRoeYahooStyle(currentRoe: Option<real>, earningsGrowth: Option<real>): (r: Option<real>)
    ensures r.Some? <==> currentRoe.Some? && earningsGrowth.Some?
    ensures r.Some? ==> r.value == currentRoe.value + currentRoe.value * AsFraction(earningsGrowth.value)
  {
    if currentRoe.Some? && earningsGrowth.Some? then
      Some(currentRoe.value * (1.0 + AsFraction(earningsGrowth.value)))
    else None
  }

  /** `normGrowth`: undefined for a missing or non-finite value, otherwise
      the value read as a fraction. */
  function NormGrowth(x: Option<JsNumber>): (r: Option<real>)
    ensures r.Some? <==> x.Some? && x.value.Finite?
    ensures r.Some? && x.value.value > 1.0 ==> r.value * 100.0 == x.value.value
    ensures r.Some? && x.value.value <= 1.0 ==> r.value == x.value.value
  {
    if x.Some? && x.value.Finite? then Some(AsFraction(x.value.value)) else None
  }

  /** `growthForPass`: the larger of the two normalised growths when both
      are defined, else whichever is. */
  function GrowthForPass(eg: Option<real>, epg: Option<real>): (r: Option<real>)
    ensures r.Some? <==> eg.Some? || epg.Some?
    ensures eg.Some? ==> r.Some? && r.value >= eg.value
    ensures epg.Some? ==> r.Some? && r.value >= epg.value
    ensures r.Some? ==> r == eg || r == epg
  {
    if eg.Some? && epg.Some? then Some(Max(eg.value, epg.value)) else OrElse(eg, epg)
  }

  /** A growth-based item: no estimated loss for three years, some positive
      estimate, and a growth above the threshold. */
  predicate GrowthPass(lossFor3y: bool, profitableSoon: bool, growth: Option<real>, threshold: real)
  {
    !lossFor3y && profitableSoon && growth.Some? && growth.value > threshold
  }

  /** The source of the growth used for the forward ROE. */
  datatype GrowthSource = EarningsGrowthSource | EpsGrowthSource

  /** `usedEarningsGrowth`: the earnings growth when defined, else the EPS
      growth. */
  datatype UsedGrowth = UsedGrowth(value: real, source: GrowthSource)

  function UsedGrowthOf(earningsGrowth: Option<real>, epsGrowth: Option<real>): (r: Option<UsedGrowth>)
    ensures r.Some? <==> earningsGrowth.Some? || epsGrowth.Some?
    ensures earningsGrowth.Some? ==> r == Some(UsedGrowth(earningsGrowth.value, EarningsGrowthSource))
    ensures earningsGrowth.None? && epsGrowth.Some? ==> r == Some(UsedGrowth(epsGrowth.value, EpsGrowthSource))
  {
    if earningsGrowth.Some? then Some(UsedGrowth(earningsGrowth.value, EarningsGrowthSource))
    else if epsGrowth.Some? then Some(UsedGrowth(epsGrowth.value, EpsGrowthSource))
    else None
  }

  /** `x?.value`. */
  function UsedValue(u: Option<UsedGrowth>): (r: Option<real>)
    ensures r.Some? <==> u.Some?
    ensures r.Some? ==> r.value == u.value.value
  {
    if u.Some? then Some(u.value.value) else None
  }

  /** The reference date: the first trend row's date, else the most recent
      quarter (a non-empty text). */
  function FutureAsOf(y: FutureYahoo): (r: Option<string>)
    ensures |y.trend| > 0 && y.trend[0].endDate.Some? ==> r == Some(DatePart(y.trend[0].endDate.value))
    ensures !(|y.trend| > 0 && y.trend[0].endDate.Some?) ==>
      (r.Some? <==> y.mostRecentQuarter.Some? && y.mostRecentQuarter.value != "")
    ensures !(|y.trend| > 0 && y.trend[0].endDate.Some?) && r.Some? ==>
      r == Some(DatePart(y.mostRecentQuarter.value))
  {
    if |y.trend| > 0 && y.trend[0].endDate.Some? then Some(DatePart(y.trend[0].endDate.value))
    else if y.mostRecentQuarter.Some? && y.mostRecentQuarter.value != "" then
      Some(DatePart(y.mostRecentQuarter.value))
    else None
  }

  // ----- the checklist -----

  datatype FutureKey = EarningsVsSavings | HighGrowthEarnings | HighGrowthRevenue | FutureRoe

  /** `FutureChecklistResult` as returned (the `earningsGrowth` field of the
      type is never filled). */
  datatype FutureChecklistResult = FutureChecklistResult(
    score: nat,
    items: seq<Item<FutureKey>>,
    asOf: Option<string>,
    epsGrowth: Option<real>,
    revenueGrowth: Option<real>,
    forwardRoe: Option<real>,
    usedEarningsGrowth: Option<UsedGrowth>)

  /** The options' thresholds; a missing one takes its default. */
  datatype FutureOptions = FutureOptions(
    savingsRate: Option<real>,
    highGrowthThreshold: Option<real>,
    roeThreshold: Option<real>)

  /** The growth used by the two earnings items. */
  function PassGrowth(y: FutureYahoo): Option<real>
  {
    GrowthForPass(NormGrowth(AsJs(ForwardEarningsGrowth(y.trend))), NormGrowth(AsJs(ForwardEpsGrowth(y.trend))))
  }

  /** `computeFutureChecklistStyle(sec, yahoo, opts)`; the SEC facts are
      not read. */
  function ComputeFutureChecklistStyle(y: FutureYahoo, opts: FutureOptions): (r: FutureChecklistResult)
    ensures |r.items| == 4
    ensures r.items[0].key == HighGrowthEarnings && r.items[1].key == HighGrowthRevenue &&
      r.items[2].key == EarningsVsSavings && r.items[3].key == FutureRoe
    ensures r.score == Count(r.items, Passes)
    ensures r.forwardRoe == FutureRoeYahooStyle(y.returnOnEquity,
                                                OrElse(ForwardEarningsGrowth(y.trend), ForwardEpsGrowth(y.trend)))
    ensures r.items[3].pass <==> r.forwardRoe.Some? && r.forwardRoe.value > OrElse(opts.roeThreshold, Some(0.2)).value
  {
    var savingsRate := OrElse(opts.savingsRate, Some(0.03)).value;
    var highGrowthThreshold := OrElse(opts.highGrowthThreshold, Some(0.2)).value;
    var roeThreshold := OrElse(opts.roeThreshold, Some(0.2)).value;
    var earningsGrowth := ForwardEarningsGrowth(y.trend);
    var epsGrowth := ForwardEpsGrowth(y.trend);
    var used := UsedGrowthOf(earningsGrowth, epsGrowth);
    var revenueGrowth := ForwardRevenueGrowth(y.trend);
    var lossFor3y := AllNonPositive(EpsWithin3y(y.trend));
    var profitableSoon := HasPositive(EpsWithin3y(y.trend));
    var forwardRoe := FutureRoeYahooStyle(y.returnOnEquity, UsedValue(used));
    assert UsedValue(used) == OrElse(earningsGrowth, epsGrowth);
    var growthForPass := GrowthForPass(NormGrowth(AsJs(earningsGrowth)), NormGrowth(AsJs(epsGrowth)));
    var items := [
      Item(HighGrowthEarnings, "고성장 수익", GrowthPass(lossFor3y, profitableSoon, growthForPass, highGrowthThreshold)),
      Item(HighGrowthRevenue, "고성장 매출", revenueGrowth.Some? && revenueGrowth.value > highGrowthThreshold),
      Item(EarningsVsSavings, "수입 대 저축률", GrowthPass(lossFor3y, profitableSoon, growthForPass, savingsRate)),
      Item(FutureRoe, "미래 ROE", forwardRoe.Some? && forwardRoe.value > roeThreshold)];
    ScoreCountsPasses(items);
    FutureChecklistResult(Score(items), items, FutureAsOf(y), epsGrowth, revenueGrowth, forwardRoe, used)
  }

  // ----- what each item means -----

  /** The two earnings items pass exactly when some `+1y`..`+3y` EPS
      estimate is positive and the larger normalised growth exceeds the
      threshold (the "loss for three years" test is then already false);
      in particular both fail whenever every estimate is at most zero. */
  lemma GrowthItemsRule(y: FutureYahoo, opts: FutureOptions)
    ensures var r := ComputeFutureChecklistStyle(y, opts);
      var g := PassGrowth(y);
      var eps := EpsWithin3y(y.trend);
      (r.items[0].pass <==> (HasPositive(eps) && g.Some? &&
         g.value > OrElse(opts.highGrowthThreshold, Some(0.2)).value)) &&
      (r.items[2].pass <==> (HasPositive(eps) && g.Some? &&
         g.value > OrElse(opts.savingsRate, Some(0.03)).value)) &&
      (AllNonPositive(eps) ==> !r.items[0].pass && !r.items[2].pass)
  {
    EpsPredicatesExclusive(EpsWithin3y(y.trend));
  }

  /** The revenue item compares the reported revenue growth of the `+1y`
      (else `0y`) row, without normalising it, with the threshold. */
  lemma RevenueItemRule(y: FutureYahoo, opts: FutureOptions)
    ensures var r := ComputeFutureChecklistStyle(y, opts);
      var t := OrElse(opts.highGrowthThreshold, Some(0.2)).value;
      (r.items[1].pass <==> (r.revenueGrowth.Some? && r.revenueGrowth.value > t)) &&
      r.revenueGrowth == ForwardRevenueGrowth(y.trend)
  {
  }

  /** The ROE item passes exactly when the current ROE and a growth (the
      earnings growth, else the EPS growth) are both defined and
      `roe * (1 + g)` exceeds the threshold, with `g` read as a fraction. */
  lemma RoeItemRule(y: FutureYahoo, opts: FutureOptions)
    ensures var r := ComputeFutureChecklistStyle(y, opts);
      var g := OrElse(ForwardEarningsGrowth(y.trend), ForwardEpsGrowth(y.trend));
      var t := OrElse(opts.roeThreshold, Some(0.2)).value;
      (r.items[3].pass <==> (y.returnOnEquity.Some? && g.Some? &&
         y.returnOnEquity.value + y.returnOnEquity.value * AsFraction(g.value) > t))
  {
    var r := ComputeFutureChecklistStyle(y, opts);
    var g := OrElse(ForwardEarningsGrowth(y.trend), ForwardEpsGrowth(y.trend));
    var t := OrElse(opts.roeThreshold, Some(0.2)).value;
    assert r.items[3].pass <==> r.forwardRoe.Some? && r.forwardRoe.value > t;
    assert r.forwardRoe == FutureRoeYahooStyle(y.returnOnEquity, g);
    RoePass(r.forwardRoe, y.returnOnEquity, g, t);
  }

  lemma RoePass(f: Option<real>, roe: Option<real>, g: Option<real>, t: real)
    requires f == FutureRoeYahooStyle(roe, g)
    ensures (f.Some? && f.value > t) <==> (roe.Some? && g.Some? && roe.value + roe.value * AsFraction(g.value) > t)
  {
  }
}
