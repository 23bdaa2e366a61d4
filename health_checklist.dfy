/** `computeFinancialHealthChecklist`: five balance-sheet checks read from
    SEC facts as of the latest balance-sheet date, with figures from the
    Yahoo Finance quote summary overriding the SEC ones when present. */
module HealthChecklist {
  import opened Common
  import opened Facts
  import opened Units
  import opened Growth
  import opened Checklist
  import opened HealthSeries

  // ----- the Yahoo Finance payload, as read -----

  /** `financialData`: each field is what `getNum` reads, a finite number
      or nothing. */
  datatype FinancialData = FinancialData(
    totalDebt: Option<real>,
    totalCash: Option<real>,
    ebitda: Option<real>,
    ebit: Option<real>,
    operatingIncome: Option<real>,
    interestExpense: Option<real>)

  /** One of `balanceSheetHistoryQuarterly.balanceSheetStatements`. */
  datatype BalanceSheetStatement = BalanceSheetStatement(
    totalDebt: Option<real>,
    shortLongTermDebtTotal: Option<real>,
    cashAndShortTermInvestments: Option<real>,
    cash: Option<real>,
    totalAssets: Option<real>,
    totalLiab: Option<real>)

  /** One of `incomeStatementHistoryQuarterly.incomeStatementHistory`. */
  datatype IncomeStatement = IncomeStatement(
    ebit: Option<real>,
    operatingIncome: Option<real>,
    interestExpense: Option<real>)

  /** The quote summary; an absent history is the empty sequence. */
  datatype Yahoo = Yahoo(
    financialData: Option<FinancialData>,
    balanceSheets: seq<BalanceSheetStatement>,
    incomeStatements: seq<IncomeStatement>)

  /** `fd?.field` reads nothing when `financialData` is absent. */
  function FinancialDataOf(y: Yahoo): FinancialData
  {
    if y.financialData.Some? then y.financialData.value
    else FinancialData(None, None, None, None, None, None)
  }

  /** `balanceSheetStatements?.[0] ?? null`. */
  function LatestBalanceSheet(y: Yahoo): BalanceSheetStatement
  {
    if |y.balanceSheets| > 0 then y.balanceSheets[0]
    else BalanceSheetStatement(None, None, None, None, None, None)
  }

  /** `yTotalDebt`: financialData, then the latest quarter's two fields. */
  function YahooDebt(yahoo: Option<Yahoo>): Option<real>
  {
    if yahoo.None? then None
    else
      var fd := FinancialDataOf(yahoo.value);
      var bsq := LatestBalanceSheet(yahoo.value);
      OrElse(fd.totalDebt, OrElse(bsq.totalDebt, bsq.shortLongTermDebtTotal))
  }

  /** `yCash`: financialData, then cash plus short-term investments, then cash. */
  function YahooCash(yahoo: Option<Yahoo>): Option<real>
  {
    if yahoo.None? then None
    else
      var fd := FinancialDataOf(yahoo.value);
      var bsq := LatestBalanceSheet(yahoo.value);
      OrElse(fd.totalCash, OrElse(bsq.cashAndShortTermInvestments, bsq.cash))
  }

  function YahooTotalAssets(yahoo: Option<Yahoo>): Option<real>
  {
    if yahoo.None? then None else LatestBalanceSheet(yahoo.value).totalAssets
  }

  function YahooTotalLiabilities(yahoo: Option<Yahoo>): Option<real>
  {
    if yahoo.None? then None else LatestBalanceSheet(yahoo.value).totalLiab
  }

  /** `yEquity`: assets minus liabilities of the latest quarter. */
  function YahooEquity(yahoo: Option<Yahoo>): (r: Option<real>)
    ensures r.Some? <==> YahooTotalAssets(yahoo).Some? && YahooTotalLiabilities(yahoo).Some?
    ensures r.Some? ==> r.value + YahooTotalLiabilities(yahoo).value == YahooTotalAssets(yahoo).value
  {
    var a := YahooTotalAssets(yahoo);
    var l := YahooTotalLiabilities(yahoo);
    if a.Some? && l.Some? then Some(a.value - l.value) else None
  }

  /** The first Yahoo fallback: an EBIT-like figure of `financialData`
      over its interest expense. */
  function FinancialDataCoverage(y: Yahoo): (r: Option<real>)
    ensures var fd := FinancialDataOf(y);
      var e := OrElse(fd.ebitda, OrElse(fd.ebit, fd.operatingIncome));
      (r.Some? <==> e.Some? && fd.interestExpense.Some? && fd.interestExpense.value != 0.0) &&
      (r.Some? ==> r.value * fd.interestExpense.value == e.value)
  {
    var fd := FinancialDataOf(y);
    var yEbit := OrElse(fd.ebitda, OrElse(fd.ebit, fd.operatingIncome));
    var yInterestExp := fd.interestExpense;
    if yEbit.Some? && yInterestExp.Some? && yInterestExp.value != 0.0
    then Some(yEbit.value / yInterestExp.value)
    else None
  }

  // ----- the quarterly income sums -----

  /** `row.ebit ?? row.operatingIncome`. */
  function EbitOf(row: IncomeStatement): Option<real>
  {
    OrElse(row.ebit, row.operatingIncome)
  }

  function InterestOf(row: IncomeStatement): Option<real>
  {
    row.interestExpense
  }

  /** The values `f` finds in `rows`, in order. */
  function Present(rows: seq<IncomeStatement>, f: IncomeStatement -> Option<real>): seq<real>
  {
    if rows == [] then []
    else
      var v := f(rows[|rows| - 1]);
      Present(rows[..|rows| - 1], f) + (if v.Some? then [v.value] else [])
  }

  /** Some value is found exactly when some row has one. */
  lemma {:induction false} PresentNonEmpty(rows: seq<IncomeStatement>, f: IncomeStatement -> Option<real>)
    ensures |Present(rows, f)| > 0 <==> exists i :: 0 <= i < |rows| && f(rows[i]).Some?
  {
    if rows != [] {
      var init := rows[..|rows| - 1];
      PresentNonEmpty(init, f);
      assert forall i :: 0 <= i < |init| ==> init[i] == rows[i];
    }
  }

  /** The loop's four variables `sumEbit`, `sumIntExp`, `haveEbit`, `haveInt`. */
  datatype IncomeSums = IncomeSums(sumEbit: real, sumInterest: real, haveEbit: bool, haveInterest: bool)

  /** What the loop computes over `rows`: the sum of the EBIT figures present
      and of the interest figures present, and whether any of each was seen. */
  function IncomeSumsOf(rows: seq<IncomeStatement>): IncomeSums
  {
    IncomeSums(Sum(Present(rows, EbitOf)), Sum(Present(rows, InterestOf)),
      |Present(rows, EbitOf)| > 0, |Present(rows, InterestOf)| > 0)
  }

  /** Appending a row adds its figure, when it has one. */
  lemma PresentStep(rows: seq<IncomeStatement>, row: IncomeStatement, f: IncomeStatement -> Option<real>)
    ensures var p := Present(rows, f); var v := f(row);
      Sum(Present(rows + [row], f)) == (if v.Some? then Sum(p) + v.value else Sum(p)) &&
      (|Present(rows + [row], f)| > 0 <==> |p| > 0 || v.Some?)
  {
    var p := Present(rows, f);
    assert (rows + [row])[..|rows|] == rows;
    if f(row).Some? {
      assert (p + [f(row).value])[..|p|] == p;
    } else {
      assert p + [] == p;
    }
  }

  /** The `for (const row of last4)` loop. */
  method SumIncomeRows(rows: seq<IncomeStatement>) returns (sums: IncomeSums)
    ensures sums == IncomeSumsOf(rows)
  {
    var sumEbit := 0.0;
    var sumIntExp := 0.0;
    var haveEbit := false;
    var haveInt := false;
    var i := 0;
    while i < |rows|
      invariant 0 <= i <= |rows|
      invariant IncomeSums(sumEbit, sumIntExp, haveEbit, haveInt) == IncomeSumsOf(rows[..i])
    {
      var row := rows[i];
      var ebitQ := EbitOf(row);
      var intQ := InterestOf(row);
      if ebitQ.Some? {
        sumEbit := sumEbit + ebitQ.value;
        haveEbit := true;
      }
      if intQ.Some? {
        sumIntExp := sumIntExp + intQ.value;
        haveInt := true;
      }
      assert rows[..i + 1] == rows[..i] + [row];
      PresentStep(rows[..i], row, EbitOf);
      PresentStep(rows[..i], row, InterestOf);
      i := i + 1;
    }
    assert rows[..i] == rows;
    sums := IncomeSums(sumEbit, sumIntExp, haveEbit, haveInt);
  }

  /** The second Yahoo fallback: EBIT over interest expense summed over the
      last four quarterly statements. */
  function IncomeCoverage(rows: seq<IncomeStatement>): (r: Option<real>)
    ensures r.Some? ==> |rows| > 0
    ensures var s := IncomeSumsOf(TakeLast(rows, 4));
      r.Some? <==> |rows| > 0 && s.haveEbit && s.haveInterest && s.sumInterest != 0.0
    ensures var s := IncomeSumsOf(TakeLast(rows, 4));
      r.Some? ==> r.value * s.sumInterest == s.sumEbit
  {
    if |rows| == 0 then None
    else
      var s := IncomeSumsOf(TakeLast(rows, 4));
      if s.haveEbit && s.haveInterest && s.sumInterest != 0.0
      then Some(s.sumEbit / s.sumInterest)
      else None
  }

  /** The interest coverage the Yahoo block supplies when the SEC one is
      missing: `financialData` first, then the quarterly sums. */
  function YahooCoverage(yahoo: Option<Yahoo>): Option<real>
  {
    if yahoo.None? then None
    else OrElse(FinancialDataCoverage(yahoo.value), IncomeCoverage(yahoo.value.incomeStatements))
  }

  // ----- SEC series and values -----

  function AssetsConcepts(): seq<string> { ["Assets"] }
  function LiabilitiesConcepts(): seq<string> { ["Liabilities"] }
  function EquityConcepts(): seq<string>
  {
    ["StockholdersEquity", "StockholdersEquityIncludingPortionAttributableToNoncontrollingInterest",
     "Equity", "EquityAttributableToOwnersOfParent"]
  }
  function AssetsCurrentConcepts(): seq<string> { ["AssetsCurrent"] }
  function LiabilitiesCurrentConcepts(): seq<string> { ["LiabilitiesCurrent"] }
  function LiabilitiesNoncurrentConcepts(): seq<string> { ["LiabilitiesNoncurrent"] }
  function EbitLikeConcepts(): seq<string>
  {
    ["EarningsBeforeInterestAndTaxes", "EBIT", "OperatingIncomeLoss"]
  }
  function NetInterestConcepts(): seq<string>
  {
    ["InterestIncomeExpenseNet", "InterestIncomeExpenseNonoperatingNet",
     "InterestIncomeExpenseNetNonoperating", "InterestIncomeExpenseNetOfHedgingActivities"]
  }
  function InterestExpenseConcepts(): seq<string>
  {
    ["InterestExpense", "InterestExpenseNonoperating", "InterestAndDebtExpense"]
  }

  /** The nine series the engine reads. */
  datatype HealthSeriesSet = HealthSeriesSet(
    assets: seq<Fact>,
    liabilities: seq<Fact>,
    equity: seq<Fact>,
    assetsCurrent: seq<Fact>,
    liabilitiesCurrent: seq<Fact>,
    liabilitiesNoncurrent: seq<Fact>,
    ebitLike: seq<Fact>,
    netInterest: seq<Fact>,
    interestExpense: seq<Fact>)

  function HealthSeriesOf(sec: CompanyFacts): HealthSeriesSet
  {
    HealthSeriesSet(
      PickSeries(sec, AssetsConcepts()),
      PickSeries(sec, LiabilitiesConcepts()),
      PickSeries(sec, EquityConcepts()),
      PickSeries(sec, AssetsCurrentConcepts()),
      PickSeries(sec, LiabilitiesCurrentConcepts()),
      PickSeries(sec, LiabilitiesNoncurrentConcepts()),
      PickSeries(sec, EbitLikeConcepts()),
      PickSeries(sec, NetInterestConcepts()),
      PickSeries(sec, InterestExpenseConcepts()))
  }

  /** `asOf`: the latest balance-sheet end of current assets, else of
      current liabilities, equity, assets, liabilities. */
  function AsOfOf(s: HealthSeriesSet): (r: Option<Day>)
    ensures r.Some? <==> (|s.assetsCurrent| + |s.liabilitiesCurrent| + |s.equity| +
      |s.assets| + |s.liabilities| > 0)
    ensures |s.assetsCurrent| > 0 ==> r == PickLatestEnd(s.assetsCurrent)
    ensures |s.assetsCurrent| == 0 && |s.liabilitiesCurrent| > 0 ==> r == PickLatestEnd(s.liabilitiesCurrent)
  {
    OrElse(PickLatestEnd(s.assetsCurrent),
      OrElse(PickLatestEnd(s.liabilitiesCurrent),
        OrElse(PickLatestEnd(s.equity),
          OrElse(PickLatestEnd(s.assets), PickLatestEnd(s.liabilities)))))
  }

  /** `asOf ? pickValueAsOf(items, asOf) : undefined`. */
  function ValueAt(items: seq<Fact>, asOf: Option<Day>): (r: Option<real>)
    ensures r.Some? <==> asOf.Some? && |items| > 0
  {
    if asOf.Some? then PickValueAsOf(items, asOf.value) else None
  }

  /** `cashPack.value`. */
  function SecCash(sec: CompanyFacts, asOf: Option<Day>): Option<real>
  {
    if asOf.Some? then CashPlusStiAsOf(sec, asOf.value).value else None
  }

  /** `debtPack.debt`, capped by the SEC total liabilities. */
  function SecDebt(sec: CompanyFacts, asOf: Option<Day>, capHint: Option<real>): (r: Option<real>)
    ensures r.Some? ==> r.value >= 0.0
  {
    if asOf.Some? then TotalDebtAsOf(sec, asOf.value, capHint).debt else None
  }

  /** A TTM value that can serve as the coverage denominator. */
  predicate NonZero(t: Option<HealthTtmValue>)
  {
    t.Some? && t.value.val != 0.0
  }

  /** TTM EBIT over TTM net interest when that is non-zero, else over TTM
      interest expense when that is non-zero; the sign is kept. */
  function CoverageOf(ebit: Option<HealthTtmValue>, netInt: Option<HealthTtmValue>,
                      intExp: Option<HealthTtmValue>): (r: Option<real>)
    ensures r.Some? <==> ebit.Some? && (NonZero(netInt) || NonZero(intExp))
    ensures r.Some? && NonZero(netInt) ==> r.value * netInt.value.val == ebit.value.val
    ensures r.Some? && !NonZero(netInt) ==> r.value * intExp.value.val == ebit.value.val
  {
    var denom :=
      if netInt.Some? && netInt.value.val != 0.0 then Some(netInt.value.val)
      else if intExp.Some? && intExp.value.val != 0.0 then Some(intExp.value.val)
      else None;
    if ebit.Some? && denom.Some? then Some(ebit.value.val / denom.value) else None
  }

  /** The SEC interest coverage, computed only when an EBIT-like series
      exists; an empty series has no TTM value. */
  function SecCoverage(ebit: seq<Fact>, netInt: seq<Fact>, intExp: seq<Fact>): Option<real>
  {
    if |ebit| == 0 then None
    else
      CoverageOf(HealthTtm(ebit),
        if |netInt| > 0 then HealthTtm(netInt) else None,
        if |intExp| > 0 then HealthTtm(intExp) else None)
  }

  // ----- ratios -----

  /** `debtToEquityPct`: needs a non-zero equity and a debt. */
  function DebtToEquity(debt: Option<real>, equity: Option<real>): (r: Option<real>)
    ensures r.Some? <==> equity.Some? && equity.value != 0.0 && debt.Some?
    ensures r.Some? ==> r.value * equity.value == debt.value
  {
    if equity.Some? && equity.value != 0.0 && debt.Some? then Some(debt.value / equity.value) else None
  }

  /** `netDebtToEquityPct`: also needs cash. */
  function NetDebtToEquity(debt: Option<real>, cash: Option<real>, equity: Option<real>): (r: Option<real>)
    ensures r.Some? <==> equity.Some? && equity.value != 0.0 && debt.Some? && cash.Some?
    ensures r.Some? ==> r.value * equity.value == debt.value - cash.value
  {
    if equity.Some? && equity.value != 0.0 && debt.Some? && cash.Some?
    then Some((debt.value - cash.value) / equity.value)
    else None
  }

  // ----- five-year liabilities trend -----

  function TrendForms(): seq<string>
  {
    ["10-K", "10-K/A", "20-F", "20-F/A", "40-F"]
  }

  /** The annual facts the trend compares: fiscal-year filings when there
      are any, else annual-like facts. */
  function TrendTier(items: seq<Fact>): seq<Fact>
  {
    var fy := FilterByFp(FilterByForms(items, TrendForms()), ["FY"]);
    if |fy| > 0 then fy else AnnualLikeOf(items)
  }

  /** `pickAnnualSeriesForTrend`: the tier, ordered by end date. */
  function PickAnnualSeriesForTrend(items: seq<Fact>): (r: seq<Fact>)
    ensures SortedByEnd(r)
    ensures multiset(r) == multiset(TrendTier(items))
  {
    SortByEndSorted(TrendTier(items));
    SortByEnd(TrendTier(items))
  }

  /** `pickPastAnnualNearYears`. */
  function PickPastAnnualNearYears(items: seq<Fact>, latestEnd: Day, targetYears: real): Option<Fact>
  {
    var annual := PickAnnualSeriesForTrend(items);
    if |annual| == 0 then None else PickPastValueNearYears(annual, latestEnd, targetYears)
  }

  /** On a sorted reordering `a` of `t`, the pick is the qualifying fact
      of `t` with the latest end, and there is none when none qualifies. */
  lemma LatestQualifyingOfSorted(a: seq<Fact>, t: seq<Fact>, latestEnd: Day, targetYears: real)
    requires SortedByEnd(a) && multiset(a) == multiset(t)
    ensures var r := if |a| == 0 then None else PickPastValueNearYears(a, latestEnd, targetYears);
      (r.None? <==> forall k :: 0 <= k < |t| ==> !IsPastCandidate(t[k], latestEnd, targetYears)) &&
      (r.Some? ==> (r.value in t && IsPastCandidate(r.value, latestEnd, targetYears) &&
         forall k :: 0 <= k < |t| && IsPastCandidate(t[k], latestEnd, targetYears) ==>
           t[k].end <= r.value.end))
  {
    forall k | 0 <= k < |t| ensures exists i :: 0 <= i < |a| && a[i] == t[k] {
      assert t[k] in multiset(a);
    }
    if |a| > 0 {
      var r := PickPastValueNearYears(a, latestEnd, targetYears);
      if r.Some? {
        var j :| 0 <= j < |a| && a[j] == r.value && IsPastCandidate(a[j], latestEnd, targetYears) &&
          forall k :: j < k < |a| ==> !IsPastCandidate(a[k], latestEnd, targetYears);
        assert a[j] in multiset(t);
        forall k | 0 <= k < |t| && IsPastCandidate(t[k], latestEnd, targetYears)
          ensures t[k].end <= r.value.end
        {
          var i :| 0 <= i < |a| && a[i] == t[k];
          if i > j {
            assert !IsPastCandidate(a[i], latestEnd, targetYears);
          }
        }
      } else {
        forall k | 0 <= k < |t| ensures !IsPastCandidate(t[k], latestEnd, targetYears) {
          var i :| 0 <= i < |a| && a[i] == t[k];
        }
      }
    } else {
      assert |t| == 0;
    }
  }

  /** The past annual fact is an annual fact of the series at least
      `targetYears` before `latestEnd`, and the one with the latest end among
      such facts; there is none exactly when no annual fact qualifies. */
  lemma PastAnnualIsLatestQualifying(items: seq<Fact>, latestEnd: Day, targetYears: real)
    ensures var r := PickPastAnnualNearYears(items, latestEnd, targetYears);
      var t := TrendTier(items);
      (r.None? <==> forall k :: 0 <= k < |t| ==> !IsPastCandidate(t[k], latestEnd, targetYears)) &&
      (r.Some? ==> (r.value in t && IsPastCandidate(r.value, latestEnd, targetYears) &&
         forall k :: 0 <= k < |t| && IsPastCandidate(t[k], latestEnd, targetYears) ==>
           t[k].end <= r.value.end))
  {
    LatestQualifyingOfSorted(PickAnnualSeriesForTrend(items), TrendTier(items), latestEnd, targetYears);
  }

  /** `currentDe`: liabilities over equity when both are there, else the
      debt-to-equity ratio. */
  function CurrentLiabilitiesToEquity(totalLiabilities: Option<real>, equity: Option<real>,
                                      debtToEquity: Option<real>): Option<real>
  {
    if equity.Some? && equity.value != 0.0 && totalLiabilities.Some?
    then Some(totalLiabilities.value / equity.value)
    else debtToEquity
  }

  /** The five-year rule as a disjunction: with an as-of date and a
      liabilities series, either total liabilities fell below the annual
      figure of five years earlier, or the liabilities-to-equity ratio fell
      below 0.9 times the one of five years earlier. */
  predicate DebtDown5yRule(asOf: Option<Day>, liabilities: seq<Fact>, equitySeries: seq<Fact>,
                           totalLiabilities: Option<real>, equity: Option<real>,
                           debtToEquity: Option<real>)
  {
    asOf.Some? && |liabilities| > 0 &&
    var pastLiab := PickPastAnnualNearYears(liabilities, asOf.value, 5.0);
    var pastEq := if |equitySeries| > 0 then PickPastAnnualNearYears(equitySeries, asOf.value, 5.0) else None;
    var current := CurrentLiabilitiesToEquity(totalLiabilities, equity, debtToEquity);
    (pastLiab.Some? && totalLiabilities.Some? && totalLiabilities.value < pastLiab.value.val) ||
    (pastLiab.Some? && pastEq.Some? && pastEq.value.val != 0.0 && current.Some? &&
     current.value < (pastLiab.value.val / pastEq.value.val) * 0.9)
  }

  /** The five-year check never passes without an annual liabilities fact
      at least five years before the as-of date. */
  lemma DebtDown5yNeedsHistory(asOf: Option<Day>, liabilities: seq<Fact>, equitySeries: seq<Fact>,
                               totalLiabilities: Option<real>, equity: Option<real>,
                               debtToEquity: Option<real>)
    requires DebtDown5yRule(asOf, liabilities, equitySeries, totalLiabilities, equity, debtToEquity)
    ensures asOf.Some?
    ensures exists k :: (0 <= k < |TrendTier(liabilities)| &&
      IsPastCandidate(TrendTier(liabilities)[k], asOf.value, 5.0))
  {
    PastAnnualIsLatestQualifying(liabilities, asOf.value, 5.0);
    var r := PickPastAnnualNearYears(liabilities, asOf.value, 5.0);
    var t := TrendTier(liabilities);
    assert r.Some?;
    var k :| 0 <= k < |t| && t[k] == r.value;
  }

  // ----- the checklist -----

  datatype FinancialHealthKey = ShortTerm | LongTerm | DebtLevel | DebtDown5y | InterestCoverage

  /** `keyFacts`. */
  datatype KeyFacts = KeyFacts(
    debtToEquity: Option<real>,
    debt: Option<real>,
    interestCoverage: Option<real>,
    netDebtToEquity: Option<real>,
    cash: Option<real>,
    equity: Option<real>,
    totalLiabilities: Option<real>,
    totalAssets: Option<real>)

  datatype FinancialHealthResult = FinancialHealthResult(
    score: nat,
    items: seq<Item<FinancialHealthKey>>,
    asOf: Option<Day>,
    keyFacts: KeyFacts,
    currentAssets: Option<real>,
    currentLiabilities: Option<real>,
    nonCurrentAssets: Option<real>,
    nonCurrentLiabilities: Option<real>)

  /** `a != null && b != null ? a > b : false`. */
  predicate Exceeds(a: Option<real>, b: Option<real>)
  {
    a.Some? && b.Some? && a.value > b.value
  }

  /** `approxNcl`: non-current liabilities, else total minus current. */
  function ApproxNoncurrent(ncl: Option<real>, totalLiabilities: Option<real>, cl: Option<real>)
    : (r: Option<real>)
    ensures ncl.Some? ==> r == ncl
    ensures ncl.None? ==> (r.Some? <==> totalLiabilities.Some? && cl.Some?)
    ensures ncl.None? && r.Some? ==> r.value + cl.value == totalLiabilities.value
  {
    if ncl.Some? then ncl
    else if totalLiabilities.Some? && cl.Some? then Some(totalLiabilities.value - cl.value)
    else None
  }

  /** `a != null && b != null ? a - b : undefined`. */
  function Difference(a: Option<real>, b: Option<real>): (r: Option<real>)
    ensures r.Some? <==> a.Some? && b.Some?
    ensures r.Some? ==> r.value + b.value == a.value
  {
    if a.Some? && b.Some? then Some(a.value - b.value) else None
  }

  /** The figures read from the SEC facts, before the Yahoo block. */
  datatype SecFigures = SecFigures(
    series: HealthSeriesSet,
    asOf: Option<Day>,
    totalAssets: Option<real>,
    totalLiabilities: Option<real>,
    equity: Option<real>,
    ca: Option<real>,
    cl: Option<real>,
    ncl: Option<real>,
    nonCurrentAssets: Option<real>,
    cash: Option<real>,
    debt: Option<real>,
    interestCoverage: Option<real>)

  /** The SEC half of the engine: every balance-sheet value as of `asOf`,
      non-current assets from the SEC totals, cash, debt capped by the SEC
      total liabilities, and the SEC interest coverage. */
  function SecFiguresOf(sec: CompanyFacts): SecFigures
  {
    SecFiguresFrom(sec, HealthSeriesOf(sec))
  }

  function SecFiguresFrom(sec: CompanyFacts, s: HealthSeriesSet): SecFigures
  {
    var asOf := AsOfOf(s);
    var totalAssets := ValueAt(s.assets, asOf);
    var totalLiabilities := ValueAt(s.liabilities, asOf);
    var ca := ValueAt(s.assetsCurrent, asOf);
    SecFigures(s, asOf, totalAssets, totalLiabilities, ValueAt(s.equity, asOf), ca,
      ValueAt(s.liabilitiesCurrent, asOf), ValueAt(s.liabilitiesNoncurrent, asOf),
      Difference(totalAssets, ca),
      SecCash(sec, asOf), SecDebt(sec, asOf, totalLiabilities),
      SecCoverage(s.ebitLike, s.netInterest, s.interestExpense))
  }

  /** Non-current assets are the SEC total assets minus current assets. */
  predicate ConsistentFigures(f: SecFigures)
  {
    f.nonCurrentAssets == Difference(f.totalAssets, f.ca)
  }

  /** The figures the checks read after the Yahoo block. */
  datatype Figures = Figures(
    totalAssets: Option<real>,
    totalLiabilities: Option<real>,
    equity: Option<real>,
    cash: Option<real>,
    debt: Option<real>,
    interestCoverage: Option<real>)

  /** The Yahoo block's effect: each Yahoo figure present replaces the SEC
      one, equity is the Yahoo assets minus liabilities when both are
      there, and the interest coverage falls back to Yahoo only when the
      SEC one is missing. */
  function Overridden(f: SecFigures, yahoo: Option<Yahoo>): Figures
  {
    Figures(
      OrElse(YahooTotalAssets(yahoo), f.totalAssets),
      OrElse(YahooTotalLiabilities(yahoo), f.totalLiabilities),
      OrElse(YahooEquity(yahoo), f.equity),
      OrElse(YahooCash(yahoo), f.cash),
      OrElse(YahooDebt(yahoo), f.debt),
      OrElse(f.interestCoverage, YahooCoverage(yahoo)))
  }

  /** What the checklist promises about its result, given the SEC figures
      `f`, the figures after the Yahoo block `g`, and the two thresholds:
      the reported figures, the two ratios, and the five checks in key
      order with the score counting the passing ones. */
  predicate HealthRules(f: SecFigures, g: Figures, ndeThreshold: real, icThreshold: real,
                        r: FinancialHealthResult)
  {
    var k := r.keyFacts;
    var approxNcl := ApproxNoncurrent(f.ncl, g.totalLiabilities, f.cl);
    r.asOf == f.asOf &&
    r.currentAssets == f.ca && r.currentLiabilities == f.cl &&
    r.nonCurrentLiabilities == f.ncl && r.nonCurrentAssets == f.nonCurrentAssets &&
    k.totalAssets == g.totalAssets && k.totalLiabilities == g.totalLiabilities &&
    k.equity == g.equity && k.cash == g.cash && k.debt == g.debt &&
    k.interestCoverage == g.interestCoverage &&
    k.debtToEquity == DebtToEquity(g.debt, g.equity) &&
    k.netDebtToEquity == NetDebtToEquity(g.debt, g.cash, g.equity) &&
    |r.items| == 5 &&
    r.items[0].key == ShortTerm && r.items[1].key == LongTerm && r.items[2].key == DebtLevel &&
    r.items[3].key == DebtDown5y && r.items[4].key == InterestCoverage &&
    r.score == Score(r.items) &&
    (r.items[0].pass <==> f.ca.Some? && f.cl.Some? && f.ca.value > f.cl.value) &&
    (r.items[1].pass <==> f.ca.Some? && approxNcl.Some? && f.ca.value > approxNcl.value) &&
    (r.items[2].pass <==> k.netDebtToEquity.Some? && k.netDebtToEquity.value < ndeThreshold) &&
    (r.items[3].pass <==> DebtDown5yRule(f.asOf, f.series.liabilities, f.series.equity,
                                         g.totalLiabilities, g.equity, k.debtToEquity)) &&
    (r.items[4].pass <==> g.interestCoverage.Some? && g.interestCoverage.value >= icThreshold)
  }

  /** The nine `pickSeriesBS` / `pickSeriesIS` calls as written. */
  method ReadHealthSeries(sec: CompanyFacts) returns (s: HealthSeriesSet)
    ensures s == HealthSeriesOf(sec)
  {
    var assets := PickSeriesBS(sec, AssetsConcepts());
    var liabilities := PickSeriesBS(sec, LiabilitiesConcepts());
    var equitySeries := PickSeriesBS(sec, EquityConcepts());
    var assetsCurrent := PickSeriesBS(sec, AssetsCurrentConcepts());
    var liabilitiesCurrent := PickSeriesBS(sec, LiabilitiesCurrentConcepts());
    var liabilitiesNonCurrent := PickSeriesBS(sec, LiabilitiesNoncurrentConcepts());
    var ebitLikeSeries := PickSeriesBS(sec, EbitLikeConcepts());
    var netInterestSeries := PickSeriesBS(sec, NetInterestConcepts());
    var interestExpenseSeries := PickSeriesBS(sec, InterestExpenseConcepts());
    s := HealthSeriesSet(assets, liabilities, equitySeries, assetsCurrent, liabilitiesCurrent,
                         liabilitiesNonCurrent, ebitLikeSeries, netInterestSeries, interestExpenseSeries);
  }

  /** The SEC values as written: `asOf`, the values as of it, cash, debt
      and the coverage from the SEC series. */
  method ReadSecFigures(sec: CompanyFacts, s: HealthSeriesSet) returns (f: SecFigures)
    ensures f == SecFiguresFrom(sec, s)
    ensures ConsistentFigures(f)
  {
    var asOf := AsOfOf(s);
    var totalAssets := ValueAt(s.assets, asOf);
    var totalLiabilities := ValueAt(s.liabilities, asOf);
    var equity := ValueAt(s.equity, asOf);
    var ca := ValueAt(s.assetsCurrent, asOf);
    var cl := ValueAt(s.liabilitiesCurrent, asOf);
    var ncl := ValueAt(s.liabilitiesNoncurrent, asOf);
    var nonCurrentAssets := Difference(totalAssets, ca);

    var cash := SecCash(sec, asOf);
    var debt: Option<real> := None;
    if asOf.Some? {
      var debtPack := PickTotalDebtAsOf(sec, asOf.value, totalLiabilities);
      debt := debtPack.debt;
    }
    var interestCoverageX := SecCoverage(s.ebitLike, s.netInterest, s.interestExpense);
    f := SecFigures(s, asOf, totalAssets, totalLiabilities, equity, ca, cl, ncl, nonCurrentAssets,
                    cash, debt, interestCoverageX);
  }

  /** The `if (yahoo)` block as written: the overrides, then the two
      coverage fallbacks, the second one a loop over the last four quarters. */
  method ApplyYahoo(f: SecFigures, yahoo: Option<Yahoo>) returns (g: Figures)
    ensures g == Overridden(f, yahoo)
  {
    var totalAssets := f.totalAssets;
    var totalLiabilities := f.totalLiabilities;
    var equity := f.equity;
    var cash := f.cash;
    var debt := f.debt;
    var interestCoverageX := f.interestCoverage;
    if yahoo.Some? {
      var yTotalDebt := YahooDebt(yahoo);
      var yCash := YahooCash(yahoo);
      var yTotalAssets := YahooTotalAssets(yahoo);
      var yTotalLiab := YahooTotalLiabilities(yahoo);
      if yTotalDebt.Some? { debt := yTotalDebt; }
      if yCash.Some? { cash := yCash; }
      if yTotalAssets.Some? { totalAssets := yTotalAssets; }
      if yTotalLiab.Some? { totalLiabilities := yTotalLiab; }
      var yEquity := YahooEquity(yahoo);
      if yEquity.Some? { equity := yEquity; }

      if interestCoverageX.None? {
        interestCoverageX := FinancialDataCoverage(yahoo.value);
      }
      if interestCoverageX.None? {
        var ish := yahoo.value.incomeStatements;
        if |ish| > 0 {
          var last4 := TakeLast(ish, 4);
          var sums := SumIncomeRows(last4);
          if sums.haveEbit && sums.haveInterest && sums.sumInterest != 0.0 {
            interestCoverageX := Some(sums.sumEbit / sums.sumInterest);
          }
        }
        assert interestCoverageX == IncomeCoverage(ish);
      }
    }
    g := Figures(totalAssets, totalLiabilities, equity, cash, debt, interestCoverageX);
  }

  /** The five-year trend as written: the liabilities comparison, then the
      liabilities-to-equity comparison, either of which sets the flag. */
  method DebtDown5yCheck(asOf: Option<Day>, liabilities: seq<Fact>, equitySeries: seq<Fact>,
                         totalLiabilities: Option<real>, equity: Option<real>,
                         debtToEquityPct: Option<real>)
    returns (debtDown5yPass: bool)
    ensures debtDown5yPass == DebtDown5yRule(asOf, liabilities, equitySeries, totalLiabilities, equity,
                                             debtToEquityPct)
  {
    debtDown5yPass := false;
    var debtToEquity5yAgo: Option<real> := None;
    if asOf.Some? && |liabilities| > 0 {
      var pastLiab5 := PickPastAnnualNearYears(liabilities, asOf.value, 5.0);
      var pastEq5 := if |equitySeries| > 0 then PickPastAnnualNearYears(equitySeries, asOf.value, 5.0) else None;
      if pastLiab5.Some? {
        if totalLiabilities.Some? {
          debtDown5yPass := totalLiabilities.value < pastLiab5.value.val;
        }
      }
      var currentDe := CurrentLiabilitiesToEquity(totalLiabilities, equity, debtToEquityPct);
      if pastLiab5.Some? && pastEq5.Some? && pastEq5.value.val != 0.0 {
        debtToEquity5yAgo := Some(pastLiab5.value.val / pastEq5.value.val);
      }
      if currentDe.Some? && debtToEquity5yAgo.Some? {
        if currentDe.value < debtToEquity5yAgo.value * 0.9 {
          debtDown5yPass := true;
        }
      }
    }

  }

  /** The ratios and the five checks as written. */
  method HealthChecks(f: SecFigures, g: Figures, ndeThreshold: real, icThreshold: real)
    returns (r: FinancialHealthResult)
    requires ConsistentFigures(f)
    ensures HealthRules(f, g, ndeThreshold, icThreshold, r)
  {
    var asOf := f.asOf;
    var liabilities := f.series.liabilities;
    var equitySeries := f.series.equity;
    var ca := f.ca;
    var cl := f.cl;
    var ncl := f.ncl;
    var totalLiabilities := g.totalLiabilities;
    var equity := g.equity;
    var debtToEquityPct := DebtToEquity(g.debt, equity);
    var netDebtToEquityPct := NetDebtToEquity(g.debt, g.cash, equity);

    var debtDown5yPass := DebtDown5yCheck(asOf, liabilities, equitySeries, totalLiabilities, equity,
                                          debtToEquityPct);

    var shortTermPass := Exceeds(ca, cl);
    var approxNcl := ApproxNoncurrent(ncl, totalLiabilities, cl);
    var longTermPass :=
      if approxNcl.Some? && ca.Some? then ca.value > approxNcl.value
      else Exceeds(f.nonCurrentAssets, approxNcl);
    var debtLevelPass := if netDebtToEquityPct.Some? then netDebtToEquityPct.value < ndeThreshold else false;
    var interestCoveragePass :=
      if g.interestCoverage.Some? then g.interestCoverage.value >= icThreshold else false;

    var items := [
      Item(ShortTerm, "단기부채", shortTermPass),
      Item(LongTerm, "장기 부채", longTermPass),
      Item(DebtLevel, "부채 수준", debtLevelPass),
      Item(DebtDown5y, "부채 감소", debtDown5yPass),
      Item(InterestCoverage, "이자보상배율", interestCoveragePass)];

    r := FinancialHealthResult(
      Score(items), items, asOf,
      KeyFacts(debtToEquityPct, g.debt, g.interestCoverage, netDebtToEquityPct, g.cash, equity,
               totalLiabilities, g.totalAssets),
      ca, cl, f.nonCurrentAssets, ncl);
  }

  /** `computeFinancialHealthChecklist(sec, { yahoo, netDebtToEquityThreshold,
      interestCoverageThreshold })`: the thresholds default to 0.4 and 2.0. */
  method ComputeFinancialHealthChecklist(sec: CompanyFacts, yahoo: Option<Yahoo>,
                                         netDebtToEquityThreshold: Option<real>,
                                         interestCoverageThreshold: Option<real>)
    returns (r: FinancialHealthResult)
    ensures var f := SecFiguresOf(sec);
      HealthRules(f, Overridden(f, yahoo), ValueOr(netDebtToEquityThreshold, 0.4),
                  ValueOr(interestCoverageThreshold, 2.0), r)
  {
    var ndeThreshold := ValueOr(netDebtToEquityThreshold, 0.4);
    var icThreshold := ValueOr(interestCoverageThreshold, 2.0);
    var s := ReadHealthSeries(sec);
    var f := ReadSecFigures(sec, s);
    var g := ApplyYahoo(f, yahoo);
    r := HealthChecks(f, g, ndeThreshold, icThreshold);
  }
}
