/** The series helpers of client/src/features/stock/utils/stock-financial-health.ts:
    the balance-sheet series and its "as of" value, the four-tier
    trailing-twelve-month sum used for income-statement items, the money
    unit choice, the cross-taxonomy series picker, and the cash and total
    debt figures with their fallback chains. */
module HealthSeries {
  import opened Common
  import opened Facts
  import opened Units
  import opened Ttm

  // ----- balance-sheet series -----

  /** `BALANCE_SHEET_FORMS`. */
  function BalanceSheetForms(): seq<string>
  {
    ["10-Q", "10-Q/A", "10-K", "10-K/A", "20-F", "20-F/A", "40-F", "6-K"]
  }

  predicate IsBalanceSheetForm(x: Fact)
  {
    FormIn(x, BalanceSheetForms())
  }

  /** The facts `pickBalanceSheetSeries` keeps, before sorting: those filed
      on a balance-sheet form if any, else the annual-like ones if any,
      else all of them. */
  function BalanceSheetTier(items: seq<Fact>): seq<Fact>
  {
    var byForm := FilterByForms(items, BalanceSheetForms());
    if |byForm| > 0 then byForm
    else
      var annualLike := AnnualLikeOf(items);
      if |annualLike| > 0 then annualLike else items
  }

  /** `pickBalanceSheetSeries`: the kept facts, sorted by end date. */
  function PickBalanceSheetSeries(items: seq<Fact>): (r: seq<Fact>)
    ensures SortedByEnd(r)
    ensures multiset(r) == multiset(BalanceSheetTier(items))
    ensures |r| > 0 <==> |items| > 0
  {
    var byForm := FilterByForms(items, BalanceSheetForms());
    var annualLike := AnnualLikeOf(items);
    assert |items| > 0 ==> |BalanceSheetTier(items)| > 0;
    SortByEndSorted(BalanceSheetTier(items));
    SortByEnd(BalanceSheetTier(items))
  }

  /** The tier restriction: balance-sheet forms when any fact has one, else
      annual-like facts when any fact is annual-like, else every fact. */
  lemma BalanceSheetTierChoice(items: seq<Fact>)
    ensures var t := BalanceSheetTier(items);
      (forall x :: x in t ==> x in items) &&
      ((exists k :: 0 <= k < |items| && IsBalanceSheetForm(items[k])) ==>
         (forall x :: x in t ==> IsBalanceSheetForm(x)) &&
         (forall k :: 0 <= k < |items| && IsBalanceSheetForm(items[k]) ==> items[k] in t)) &&
      ((forall k :: 0 <= k < |items| ==> !IsBalanceSheetForm(items[k])) &&
       (exists k :: 0 <= k < |items| && IsAnnualLike(items[k])) ==>
         (forall x :: x in t ==> IsAnnualLike(x)) &&
         (forall k :: 0 <= k < |items| && IsAnnualLike(items[k]) ==> items[k] in t)) &&
      ((forall k :: 0 <= k < |items| ==> !IsBalanceSheetForm(items[k]) && !IsAnnualLike(items[k])) ==>
         t == items)
  {
    var byForm := FilterByForms(items, BalanceSheetForms());
    var annualLike := AnnualLikeOf(items);
    if |byForm| > 0 {
      assert byForm[0] in items;
      var k :| 0 <= k < |items| && items[k] == byForm[0];
      assert IsBalanceSheetForm(items[k]);
    } else if |annualLike| > 0 {
      assert annualLike[0] in items;
      var k :| 0 <= k < |items| && items[k] == annualLike[0];
      assert IsAnnualLike(items[k]);
    }
  }

  /** Filtering a sorted series by an end-date bound keeps it sorted. */
  lemma {:induction false} EndingBySorted(s: seq<Fact>, d: Day)
    requires SortedByEnd(s)
    ensures SortedByEnd(EndingBy(s, d))
  {
    if s != [] {
      EndingBySorted(s[1..], d);
      var t := EndingBy(s[1..], d);
      forall k | 0 <= k < |t| ensures s[0].end <= t[k].end {
        assert t[k] in s[1..];
      }
    }
  }

  /** The fact `pickValueAsOf` reads: the last of the series ending by
      `end`, else the last of the series. */
  function PickFactAsOf(items: seq<Fact>, end: Day): (r: Option<Fact>)
    ensures r.Some? <==> |items| > 0
  {
    var s := PickBalanceSheetSeries(items);
    if |s| == 0 then None
    else
      var asOf := EndingBy(s, end);
      if |asOf| > 0 then Some(Last(asOf)) else Some(Last(s))
  }

  /** In a sorted series, the last fact ending by `d` (else the last
      fact) has the latest end among those ending by `d` (else among all). */
  lemma SortedAsOfPick(s: seq<Fact>, d: Day)
    requires SortedByEnd(s) && |s| > 0
    ensures var asOf := EndingBy(s, d); var p := if |asOf| > 0 then Last(asOf) else Last(s);
      p in s &&
      ((exists x :: x in s && x.end <= d) ==>
         p.end <= d && forall x :: x in s && x.end <= d ==> x.end <= p.end) &&
      ((forall x :: x in s ==> x.end > d) ==> forall x :: x in s ==> x.end <= p.end)
  {
    var asOf := EndingBy(s, d);
    EndingBySorted(s, d);
    if |asOf| > 0 {
      var p := Last(asOf);
      SortedLastLatest(asOf);
      assert p in asOf;
      forall x | x in s && x.end <= d ensures x.end <= p.end {
        var i :| 0 <= i < |s| && s[i] == x;
        assert x in asOf;
        var j :| 0 <= j < |asOf| && asOf[j] == x;
      }
    } else {
      SortedLastLatest(s);
      forall x | x in s ensures x.end <= Last(s).end && x.end > d {
        var i :| 0 <= i < |s| && s[i] == x;
        if x.end <= d {
          assert false;
        }
      }
    }
  }

  /** The "as of" choice: when some kept fact ends by `end`, the picked one
      has the latest such end; otherwise it has the latest end of all. */
  lemma PickFactAsOfLatest(items: seq<Fact>, end: Day)
    ensures var r := PickFactAsOf(items, end); var t := BalanceSheetTier(items);
      (r.Some? ==> r.value in t) &&
      ((exists x :: x in t && x.end <= end) ==>
         r.Some? && r.value.end <= end &&
         forall x :: x in t && x.end <= end ==> x.end <= r.value.end) &&
      ((forall x :: x in t ==> x.end > end) && r.Some? ==>
         forall x :: x in t ==> x.end <= r.value.end)
  {
    var t := BalanceSheetTier(items);
    var s := PickBalanceSheetSeries(items);
    if |s| > 0 {
      SortedAsOfPick(s, end);
      forall x ensures x in t <==> x in s {
        assert x in t <==> x in multiset(t);
        assert x in s <==> x in multiset(s);
      }
    } else {
      assert |t| == 0;
    }
  }

  /** `pickValueAsOf`: undefined only for an empty series. */
  function PickValueAsOf(items: seq<Fact>, end: Day): (r: Option<real>)
    ensures r.Some? <==> |items| > 0
  {
    ValOf(PickFactAsOf(items, end))
  }

  /** `pickLatestEnd`: the end of the last fact of the series. */
  function PickLatestEnd(items: seq<Fact>): (r: Option<Day>)
    ensures r.Some? <==> |items| > 0
  {
    EndOf(LastOrNone(PickBalanceSheetSeries(items)))
  }

  /** The latest end is the largest end date among the kept facts, and one
      of them ends on it. */
  lemma LatestEndIsMax(items: seq<Fact>)
    ensures var r := PickLatestEnd(items); var t := BalanceSheetTier(items);
      r.Some? ==>
        (forall k :: 0 <= k < |t| ==> t[k].end <= r.value) &&
        (exists k :: 0 <= k < |t| && t[k].end == r.value)
  {
    var s := PickBalanceSheetSeries(items);
    var t := BalanceSheetTier(items);
    if |s| > 0 {
      var last := Last(s);
      assert PickLatestEnd(items) == Some(last.end);
      SortedLastLatest(s);
      SameMembers(s, t);
      forall k | 0 <= k < |t| ensures t[k].end <= last.end {
        assert t[k] in s;
        var i :| 0 <= i < |s| && s[i] == t[k];
      }
      assert last in t;
      var k :| 0 <= k < |t| && t[k] == last;
    }
  }

  /** Sequences with the same multiset have the same members. */
  lemma SameMembers(a: seq<Fact>, b: seq<Fact>)
    requires multiset(a) == multiset(b)
    ensures forall x :: x in a <==> x in b
  {
    forall x ensures x in a <==> x in b {
      assert x in a <==> x in multiset(a);
      assert x in b <==> x in multiset(b);
    }
  }

  // ----- trailing twelve months, four tiers -----

  /** Which tier produced a health TTM value (the source returns only
      `{ end, val }`). */
  datatype HealthTier = TenQ | QuarterLike | FYWithStart | AnnualLikeTier

  datatype HealthTtmValue = HealthTtmValue(end: Day, val: real, tier: HealthTier)

  /** `x.fp === 'FY' && x.start`. */
  predicate IsFYWithStart(x: Fact)
  {
    IsFY(x) && x.start.Some?
  }

  /** The local `computeTTM`: 10-Q facts with a start (at least four, sum of
      the last four), else quarter-like facts (likewise), else the last FY
      fact with a start, else the last annual-like fact. */
  function HealthTtm(items: seq<Fact>): Option<HealthTtmValue>
  {
    var sorted := SortByEnd(items);
    var q10q := Filter(sorted, IsQByDuration);
    var qLike := Filter(sorted, IsQuarterLike);
    var fy := Filter(sorted, IsFYWithStart);
    var annualLike := Filter(sorted, IsAnnualLike);
    if |q10q| >= 4 then Some(HealthTtmValue(Last(q10q).end, SumLast4(q10q), TenQ))
    else if |qLike| >= 4 then Some(HealthTtmValue(Last(qLike).end, SumLast4(qLike), QuarterLike))
    else if |fy| > 0 then Some(HealthTtmValue(Last(fy).end, Last(fy).val, FYWithStart))
    else if |annualLike| > 0 then Some(HealthTtmValue(Last(annualLike).end, Last(annualLike).val, AnnualLikeTier))
    else None
  }

  predicate InHealthTier(tier: HealthTier, x: Fact)
  {
    match tier
    case TenQ => IsQByDuration(x)
    case QuarterLike => IsQuarterLike(x)
    case FYWithStart => IsFYWithStart(x)
    case AnnualLikeTier => IsAnnualLike(x)
  }

  /** The tiers are tried in order, each taken exactly when it has enough
      facts and every earlier one has too few; none when all fall short. */
  lemma HealthTtmTierOrder(items: seq<Fact>)
    ensures var r := HealthTtm(items);
      var nQ := TierCount(items, IsQByDuration);
      var nLike := TierCount(items, IsQuarterLike);
      var nFy := TierCount(items, IsFYWithStart);
      var nAnn := TierCount(items, IsAnnualLike);
      (r.Some? && r.value.tier == TenQ <==> nQ >= 4) &&
      (r.Some? && r.value.tier == QuarterLike <==> nQ < 4 && nLike >= 4) &&
      (r.Some? && r.value.tier == FYWithStart <==> nQ < 4 && nLike < 4 && nFy > 0) &&
      (r.Some? && r.value.tier == AnnualLikeTier <==> nQ < 4 && nLike < 4 && nFy == 0 && nAnn > 0) &&
      (r.None? <==> nQ < 4 && nLike < 4 && nFy == 0 && nAnn == 0)
  {
    var sorted := SortByEnd(items);
    FilterCountPermutation(sorted, items, IsQByDuration);
    FilterCountPermutation(sorted, items, IsQuarterLike);
    FilterCountPermutation(sorted, items, IsFYWithStart);
    FilterCountPermutation(sorted, items, IsAnnualLike);
  }

  /** The end date of the result is the latest end among the input facts of
      its tier, and one of them ends on it. */
  lemma HealthTtmEndIsLatest(items: seq<Fact>)
    ensures var r := HealthTtm(items);
      r.Some? ==>
        (forall k :: 0 <= k < |items| && InHealthTier(r.value.tier, items[k]) ==> items[k].end <= r.value.end) &&
        (exists k :: 0 <= k < |items| && InHealthTier(r.value.tier, items[k]) && items[k].end == r.value.end)
  {
    var r := HealthTtm(items);
    if r.Some? {
      match r.value.tier
      case TenQ => TierLastIsLatest(items, IsQByDuration); LastIsInput(items, IsQByDuration);
      case QuarterLike => TierLastIsLatest(items, IsQuarterLike); LastIsInput(items, IsQuarterLike);
      case FYWithStart => TierLastIsLatest(items, IsFYWithStart); LastIsInput(items, IsFYWithStart);
      case AnnualLikeTier => TierLastIsLatest(items, IsAnnualLike); LastIsInput(items, IsAnnualLike);
    }
  }

  // ----- money display -----

  /** `fmtMoney` without its text: 'n/a', or the number divided by the
      magnitude of its suffix. */
  datatype Money = MoneyNA | Money(scaled: real, scale: Scale)

  function FmtMoney(x: Option<JsNumber>): (r: Money)
    ensures r.MoneyNA? <==> x.None? || !x.value.Finite?
    ensures r.Money? ==> r.scaled * Divisor(r.scale) == x.value.value
    ensures r.Money? && r.scale != One ==> Abs(r.scaled) >= 1.0
    ensures r.Money? && r.scale != Tera ==> Abs(r.scaled) < 1000.0
  {
    if x.None? || !x.value.Finite? then MoneyNA
    else
      var v := x.value.value;
      ScaledMagnitude(v);
      Money(v / Divisor(ScaleOf(v)), ScaleOf(v))
  }

  // ----- cross-taxonomy series -----

  /** The first concept of `concepts` with data in `taxonomy`, with the
      default (empty) unit preference. */
  function FirstSeriesIn(sec: CompanyFacts, taxonomy: string, concepts: seq<string>): (r: seq<Fact>)
    ensures |r| > 0 <==> exists i :: 0 <= i < |concepts| && HasSeries(sec, taxonomy, concepts[i], [])
    ensures |r| > 0 ==> exists i :: (0 <= i < |concepts| &&
      r == PickUnitSeriesWithCurrencyFallback(sec, taxonomy, concepts[i], []) &&
      forall k :: 0 <= k < i ==> !HasSeries(sec, taxonomy, concepts[k], []))
  {
    if concepts == [] then []
    else
      var s := PickUnitSeriesWithCurrencyFallback(sec, taxonomy, concepts[0], []);
      if |s| > 0 then s
      else
        var r := FirstSeriesIn(sec, taxonomy, concepts[1..]);
        assert forall i :: 1 <= i < |concepts| ==> concepts[1..][i - 1] == concepts[i];
        r
  }

  /** `pickSeriesBS` (and `pickSeriesIS`, which is the same code): every
      concept in us-gaap first, then every concept in ifrs-full. */
  function PickSeries(sec: CompanyFacts, concepts: seq<string>): (r: seq<Fact>)
    ensures (exists i :: 0 <= i < |concepts| && HasSeries(sec, USGaap, concepts[i], [])) ==>
      r == FirstSeriesIn(sec, USGaap, concepts)
    ensures (forall i :: 0 <= i < |concepts| ==> !HasSeries(sec, USGaap, concepts[i], [])) ==>
      r == FirstSeriesIn(sec, IfrsFull, concepts)
    ensures |r| > 0 <==> exists i :: (0 <= i < |concepts| &&
      (HasSeries(sec, USGaap, concepts[i], []) || HasSeries(sec, IfrsFull, concepts[i], [])))
  {
    var us := FirstSeriesIn(sec, USGaap, concepts);
    if |us| > 0 then us else FirstSeriesIn(sec, IfrsFull, concepts)
  }

  /** `pickSeriesBS` as written: two early-return loops. */
  method PickSeriesBS(sec: CompanyFacts, concepts: seq<string>) returns (r: seq<Fact>)
    ensures r == PickSeries(sec, concepts)
  {
    var i := 0;
    while i < |concepts|
      invariant 0 <= i <= |concepts|
      invariant FirstSeriesIn(sec, USGaap, concepts) == FirstSeriesIn(sec, USGaap, concepts[i..])
    {
      var s := PickUnitSeriesWithCurrencyFallback(sec, USGaap, concepts[i], []);
      if |s| > 0 {
        return s;
      }
      assert concepts[i..][1..] == concepts[i + 1..];
      i := i + 1;
    }
    i := 0;
    while i < |concepts|
      invariant 0 <= i <= |concepts|
      invariant FirstSeriesIn(sec, IfrsFull, concepts) == FirstSeriesIn(sec, IfrsFull, concepts[i..])
    {
      var s := PickUnitSeriesWithCurrencyFallback(sec, IfrsFull, concepts[i], []);
      if |s| > 0 {
        return s;
      }
      assert concepts[i..][1..] == concepts[i + 1..];
      i := i + 1;
    }
    return [];
  }

  // ----- cash -----

  datatype CashSource = CashStiDirect | CashOnly | CashNA

  /** `{ value, source }` of `pickCashPlusSTIAsOf`. */
  datatype CashPick = CashPick(value: Option<real>, source: CashSource)

  function DirectCashConcepts(): seq<string>
  {
    ["CashCashEquivalentsAndShortTermInvestments"]
  }

  function CashOnlyConcepts(): seq<string>
  {
    ["CashAndCashEquivalentsAtCarryingValue", "CashAndCashEquivalents"]
  }

  /** `pickCashPlusSTIAsOf`: cash plus short-term investments as reported,
      else cash alone, else nothing. */
  function CashPlusStiAsOf(sec: CompanyFacts, asOf: Day): (r: CashPick)
    ensures var direct := PickSeries(sec, DirectCashConcepts());
      var cashOnly := PickSeries(sec, CashOnlyConcepts());
      (r.source == CashStiDirect <==> |direct| > 0) &&
      (r.source == CashOnly <==> |direct| == 0 && |cashOnly| > 0) &&
      (r.value.Some? <==> r.source != CashNA) &&
      (r.source == CashStiDirect ==> r.value == PickValueAsOf(direct, asOf)) &&
      (r.source == CashOnly ==> r.value == PickValueAsOf(cashOnly, asOf))
  {
    var v0 := PickValueAsOf(PickSeries(sec, DirectCashConcepts()), asOf);
    if v0.Some? then CashPick(v0, CashStiDirect)
    else
      var v1 := PickValueAsOf(PickSeries(sec, CashOnlyConcepts()), asOf);
      if v1.Some? then CashPick(v1, CashOnly) else CashPick(None, CashNA)
  }

  // ----- total debt -----

  /** `tryPick(taxonomy, concept)`, the closure `pickTotalDebtAsOf` reads
      every figure through. */
  type Picker = (string, string) -> Option<real>

  /** The value as of `asOf` of a concept's series. */
  function TryPick(sec: CompanyFacts, taxonomy: string, concept: string, asOf: Day): Option<real>
  {
    PickValueAsOf(PickUnitSeriesWithCurrencyFallback(sec, taxonomy, concept, []), asOf)
  }

  /** `tryPick` bound to one filing and date. */
  function TryPickAt(sec: CompanyFacts, asOf: Day): Picker
  {
    (t: string, c: string) => TryPick(sec, t, c, asOf)
  }

  /** The eleven fixed `(taxonomy, concept)` candidates, in order. */
  function FixedDebtConcepts(): seq<(string, string)>
  {
    [(USGaap, "Debt"),
     (USGaap, "LongTermDebtAndCapitalLeaseObligations"),
     (USGaap, "LongTermDebtAndFinanceLeaseLiabilities"),
     (USGaap, "LongTermDebt"),
     (USGaap, "DebtNoncurrent"),
     (USGaap, "DebtCurrent"),
     (USGaap, "NotesPayable"),
     (USGaap, "ConvertibleDebt"),
     (IfrsFull, "Borrowings"),
     (IfrsFull, "BorrowingsCurrent"),
     (IfrsFull, "BorrowingsNoncurrent")]
  }

  /** A combination: taxonomy, current part, non-current part, and title. */
  datatype DebtCombo = DebtCombo(taxonomy: string, current: string, noncurrent: string, title: string)

  function ComboDebtConcepts(): seq<DebtCombo>
  {
    [DebtCombo(USGaap, "DebtCurrent", "DebtNoncurrent", "DebtCurrent+DebtNoncurrent"),
     DebtCombo(USGaap, "LongTermDebtAndCapitalLeaseObligationsCurrent",
               "LongTermDebtAndCapitalLeaseObligationsNoncurrent", "LTD+Lease Cur+Noncur"),
     DebtCombo(USGaap, "LongTermDebtAndFinanceLeaseLiabilitiesCurrent",
               "LongTermDebtAndFinanceLeaseLiabilitiesNoncurrent", "LTD+FinanceLease Cur+Noncur"),
     DebtCombo(IfrsFull, "BorrowingsCurrent", "BorrowingsNoncurrent", "Borrowings Cur+Noncur")]
  }

  predicate FixedHit(pick: Picker, f: (string, string))
  {
    pick(f.0, f.1).Some?
  }

  /** Index of the first fixed candidate with a value. */
  function FirstFixed(pick: Picker, fixed: seq<(string, string)>): (r: Option<nat>)
    ensures r.Some? ==> (r.value < |fixed| && FixedHit(pick, fixed[r.value]) &&
      forall k :: 0 <= k < r.value ==> !FixedHit(pick, fixed[k]))
    ensures r.None? ==> forall k :: 0 <= k < |fixed| ==> !FixedHit(pick, fixed[k])
  {
    if fixed == [] then None
    else if FixedHit(pick, fixed[0]) then Some(0)
    else
      match FirstFixed(pick, fixed[1..])
      case None => None
      case Some(j) => Some(j + 1)
  }

  predicate ComboHit(pick: Picker, c: DebtCombo)
  {
    pick(c.taxonomy, c.current).Some? && pick(c.taxonomy, c.noncurrent).Some?
  }

  /** Index of the first combination whose two parts both have a value. */
  function FirstCombo(pick: Picker, combos: seq<DebtCombo>): (r: Option<nat>)
    ensures r.Some? ==> (r.value < |combos| && ComboHit(pick, combos[r.value]) &&
      forall k :: 0 <= k < r.value ==> !ComboHit(pick, combos[k]))
    ensures r.None? ==> forall k :: 0 <= k < |combos| ==> !ComboHit(pick, combos[k])
  {
    if combos == [] then None
    else if ComboHit(pick, combos[0]) then Some(0)
    else
      match FirstCombo(pick, combos[1..])
      case None => None
      case Some(j) => Some(j + 1)
  }

  /** The alternatives of `debtNameRe`, lower-cased: the expression ignores
      case. */
  function DebtNamePatterns(): seq<string>
  {
    ["debt", "borrow", "borrowings", "notespayable", "notepayable", "convertible", "loan",
     "creditfacility", "termloan", "seniornotes", "leaseobligation", "capitallease", "financelease"]
  }

  /** The alternatives of `excludeRe`, lower-cased. */
  function DebtExcludePatterns(): seq<string>
  {
    ["debtsecurities", "debtsecurity", "debtinstrument", "debtmaturity", "availableforsale",
     "tradingsecurities", "marketablesecurities"]
  }

  /** A case-insensitive test of an alternation of literals (given in lower
      case): some alternative occurs in `name`, ignoring case. */
  predicate MatchesAny(name: string, lowered: seq<string>)
  {
    exists i :: 0 <= i < |lowered| && Contains(ToLower(name), lowered[i])
  }

  predicate IsDebtName(concept: string)
  {
    MatchesAny(concept, DebtNamePatterns()) && !MatchesAny(concept, DebtExcludePatterns())
  }

  datatype DebtCandidate = DebtCandidate(taxonomy: string, concept: string, val: real)

  /** `abs > capHint * 2` with a finite cap: the value is implausibly large. */
  predicate OverCap(abs: real, capHint: Option<real>)
  {
    capHint.Some? && abs > capHint.value * 2.0
  }

  /** One concept of the scan: kept when its name looks like debt, it has a
      value, and that value is non-zero and within the cap. */
  function CandidateOf(pick: Picker, capHint: Option<real>, taxonomy: string, concept: string)
    : (r: Option<DebtCandidate>)
    ensures r.Some? <==> (IsDebtName(concept) && pick(taxonomy, concept).Some? &&
      Abs(pick(taxonomy, concept).value) > 0.0 && !OverCap(Abs(pick(taxonomy, concept).value), capHint))
    ensures r.Some? ==> r.value == DebtCandidate(taxonomy, concept, Abs(pick(taxonomy, concept).value))
  {
    if !MatchesAny(concept, DebtNamePatterns()) then None
    else if MatchesAny(concept, DebtExcludePatterns()) then None
    else
      match pick(taxonomy, concept)
      case None => None
      case Some(v) =>
        var abs := Abs(v);
        if !(abs > 0.0) then None
        else if OverCap(abs, capHint) then None
        else Some(DebtCandidate(taxonomy, concept, abs))
  }

  /** The candidates found among `concepts`, in order. */
  function CandidatesIn(pick: Picker, capHint: Option<real>, taxonomy: string,
                        concepts: seq<string>): seq<DebtCandidate>
  {
    if concepts == [] then []
    else
      var rest := CandidatesIn(pick, capHint, taxonomy, concepts[..|concepts| - 1]);
      match CandidateOf(pick, capHint, taxonomy, concepts[|concepts| - 1])
      case None => rest
      case Some(x) => rest + [x]
  }

  /** `x` is what `CandidateOf` keeps for one of `concepts`. */
  predicate KeptFrom(pick: Picker, capHint: Option<real>, taxonomy: string, concepts: seq<string>,
                     x: DebtCandidate)
  {
    x.taxonomy == taxonomy && x.concept in concepts &&
    CandidateOf(pick, capHint, taxonomy, x.concept) == Some(x)
  }

  /** The scan of one taxonomy keeps exactly the concepts `CandidateOf`
      accepts. */
  lemma {:induction false} CandidatesInExact(pick: Picker, capHint: Option<real>, taxonomy: string,
                                             concepts: seq<string>)
    ensures forall i :: 0 <= i < |CandidatesIn(pick, capHint, taxonomy, concepts)| ==>
      KeptFrom(pick, capHint, taxonomy, concepts, CandidatesIn(pick, capHint, taxonomy, concepts)[i])
    ensures forall j :: 0 <= j < |concepts| && CandidateOf(pick, capHint, taxonomy, concepts[j]).Some? ==>
      CandidateOf(pick, capHint, taxonomy, concepts[j]).value in CandidatesIn(pick, capHint, taxonomy, concepts)
  {
    if concepts != [] {
      var init := concepts[..|concepts| - 1];
      var c := concepts[|concepts| - 1];
      CandidatesInExact(pick, capHint, taxonomy, init);
      var rest := CandidatesIn(pick, capHint, taxonomy, init);
      var r := CandidatesIn(pick, capHint, taxonomy, concepts);
      assert forall j :: 0 <= j < |init| ==> init[j] == concepts[j];
      assert r == rest + (if CandidateOf(pick, capHint, taxonomy, c).Some?
                          then [CandidateOf(pick, capHint, taxonomy, c).value] else []);
      forall i | 0 <= i < |r|
        ensures KeptFrom(pick, capHint, taxonomy, concepts, r[i])
      {
        if i < |rest| {
          assert r[i] == rest[i];
          assert KeptFrom(pick, capHint, taxonomy, init, rest[i]);
          var j :| 0 <= j < |init| && init[j] == rest[i].concept;
          assert concepts[j] == r[i].concept;
        } else {
          assert CandidateOf(pick, capHint, taxonomy, c) == Some(r[i]);
        }
      }
    }
  }

  /** `Object.keys(sec.facts?.[taxonomy])`, empty when the taxonomy is absent. */
  function ConceptKeys(sec: CompanyFacts, taxonomy: string): seq<string>
  {
    match Lookup(sec.facts, taxonomy)
    case None => []
    case Some(concepts) => Keys(concepts)
  }

  /** The scan over the listed taxonomies, in order. */
  function CandidatesOver(sec: CompanyFacts, pick: Picker, capHint: Option<real>,
                          taxonomies: seq<string>): seq<DebtCandidate>
  {
    if taxonomies == [] then []
    else
      var init := taxonomies[..|taxonomies| - 1];
      var t := taxonomies[|taxonomies| - 1];
      CandidatesOver(sec, pick, capHint, init) + CandidatesIn(pick, capHint, t, ConceptKeys(sec, t))
  }

  function DebtTaxonomies(): seq<string>
  {
    [USGaap, IfrsFull]
  }

  /** Every us-gaap candidate, then every ifrs-full one. */
  function DebtCandidates(sec: CompanyFacts, pick: Picker, capHint: Option<real>): seq<DebtCandidate>
  {
    CandidatesOver(sec, pick, capHint, DebtTaxonomies())
  }

  /** The two-taxonomy scan is the us-gaap scan followed by the ifrs-full one. */
  lemma DebtCandidatesSplit(sec: CompanyFacts, pick: Picker, capHint: Option<real>)
    ensures DebtCandidates(sec, pick, capHint) ==
      CandidatesIn(pick, capHint, USGaap, ConceptKeys(sec, USGaap)) +
      CandidatesIn(pick, capHint, IfrsFull, ConceptKeys(sec, IfrsFull))
  {
    var ts := DebtTaxonomies();
    var us := CandidatesIn(pick, capHint, USGaap, ConceptKeys(sec, USGaap));
    var ifrs := CandidatesIn(pick, capHint, IfrsFull, ConceptKeys(sec, IfrsFull));
    assert ts[..1] == [USGaap] && ts[..1][..0] == [];
    assert CandidatesOver(sec, pick, capHint, ts[..1][..0]) == [];
    assert CandidatesOver(sec, pick, capHint, ts[..1]) == [] + us;
    assert CandidatesOver(sec, pick, capHint, ts) == CandidatesOver(sec, pick, capHint, ts[..1]) + ifrs;
  }

  /** The discovered candidates are exactly the concepts of the two
      taxonomies that `CandidateOf` keeps: each has a positive value within
      the cap and a debt-like name, and no kept concept is missing. */
  lemma DebtCandidatesExact(sec: CompanyFacts, pick: Picker, capHint: Option<real>)
    ensures var r := DebtCandidates(sec, pick, capHint);
      (forall i :: 0 <= i < |r| ==>
         (r[i].val > 0.0 && !OverCap(r[i].val, capHint) &&
          IsDebtName(r[i].concept) && (r[i].taxonomy == USGaap || r[i].taxonomy == IfrsFull) &&
          pick(r[i].taxonomy, r[i].concept).Some? &&
          r[i].val == Abs(pick(r[i].taxonomy, r[i].concept).value))) &&
      (forall t, c ::
         ((t == USGaap || t == IfrsFull) && c in ConceptKeys(sec, t) &&
          CandidateOf(pick, capHint, t, c).Some?) ==> CandidateOf(pick, capHint, t, c).value in r)
  {
    var us := CandidatesIn(pick, capHint, USGaap, ConceptKeys(sec, USGaap));
    var ifrs := CandidatesIn(pick, capHint, IfrsFull, ConceptKeys(sec, IfrsFull));
    DebtCandidatesSplit(sec, pick, capHint);
    CandidatesInExact(pick, capHint, USGaap, ConceptKeys(sec, USGaap));
    CandidatesInExact(pick, capHint, IfrsFull, ConceptKeys(sec, IfrsFull));
    forall t, c | (t == USGaap || t == IfrsFull) && c in ConceptKeys(sec, t) &&
      CandidateOf(pick, capHint, t, c).Some?
      ensures CandidateOf(pick, capHint, t, c).value in us + ifrs
    {
      var j :| 0 <= j < |ConceptKeys(sec, t)| && ConceptKeys(sec, t)[j] == c;
    }
  }

  /** The candidates after one more concept. */
  lemma CandidatesInPrefix(pick: Picker, capHint: Option<real>, taxonomy: string, keys: seq<string>, i: nat)
    requires i < |keys|
    ensures var c := CandidateOf(pick, capHint, taxonomy, keys[i]);
      CandidatesIn(pick, capHint, taxonomy, keys[..i + 1]) ==
      CandidatesIn(pick, capHint, taxonomy, keys[..i]) + (if c.Some? then [c.value] else [])
  {
    assert keys[..i + 1][..i] == keys[..i];
  }

  /** The scan of one taxonomy as written: push each kept concept. */
  method ScanTaxonomy(sec: CompanyFacts, pick: Picker, capHint: Option<real>, taxonomy: string,
                      before: seq<DebtCandidate>) returns (candidates: seq<DebtCandidate>)
    ensures candidates == before + CandidatesIn(pick, capHint, taxonomy, ConceptKeys(sec, taxonomy))
  {
    candidates := before;
    var keys := ConceptKeys(sec, taxonomy);
    var ci := 0;
    while ci < |keys|
      invariant 0 <= ci <= |keys|
      invariant candidates == before + CandidatesIn(pick, capHint, taxonomy, keys[..ci])
    {
      var concept := keys[ci];
      CandidatesInPrefix(pick, capHint, taxonomy, keys, ci);
      var c := CandidateOf(pick, capHint, taxonomy, concept);
      ghost var prev := CandidatesIn(pick, capHint, taxonomy, keys[..ci]);
      if c.Some? {
        assert before + (prev + [c.value]) == (before + prev) + [c.value];
        candidates := candidates + [c.value];
      }
      ci := ci + 1;
    }
    assert keys[..ci] == keys;
  }

  /** The discovery scan as written: for each taxonomy, the scan of its
      concept keys. */
  method CollectDebtCandidates(sec: CompanyFacts, pick: Picker, capHint: Option<real>)
    returns (candidates: seq<DebtCandidate>)
    ensures candidates == DebtCandidates(sec, pick, capHint)
  {
    var taxonomies := DebtTaxonomies();
    candidates := [];
    var ti := 0;
    while ti < |taxonomies|
      invariant 0 <= ti <= |taxonomies|
      invariant candidates == CandidatesOver(sec, pick, capHint, taxonomies[..ti])
    {
      candidates := ScanTaxonomy(sec, pick, capHint, taxonomies[ti], candidates);
      assert taxonomies[..ti + 1][..ti] == taxonomies[..ti];
      ti := ti + 1;
    }
    assert taxonomies[..ti] == taxonomies;
  }

  /** Position of the candidate `sort` by ascending value leaves last: the
      last of those with the largest value (the sort is stable). */
  function LargestIndex(cands: seq<DebtCandidate>): (r: nat)
    requires |cands| > 0
    ensures r < |cands|
    ensures forall k :: 0 <= k < |cands| ==> cands[k].val <= cands[r].val
    ensures forall k :: r < k < |cands| ==> cands[k].val < cands[r].val
  {
    if |cands| == 1 then 0
    else
      var j := LargestIndex(cands[..|cands| - 1]);
      if cands[|cands| - 1].val >= cands[j].val then |cands| - 1 else j
  }

  datatype DebtSource =
    | Fixed(taxonomy: string, concept: string)
    | Combo(taxonomy: string, title: string)
    | Discovered(taxonomy: string, concept: string)
    | DebtNA

  /** `{ debt, source }` of `pickTotalDebtAsOf`. */
  datatype DebtPick = DebtPick(debt: Option<real>, source: DebtSource)

  /** The three stages over a picker and the two candidate lists: the
      first fixed concept with a value, else the first combination with
      both parts, else the largest discovered candidate, else nothing. */
  function DebtStages(sec: CompanyFacts, pick: Picker, capHint: Option<real>,
                      fixed: seq<(string, string)>, combos: seq<DebtCombo>): (r: DebtPick)
    ensures r.debt.Some? ==> r.debt.value >= 0.0
    ensures r.debt.None? <==> r.source.DebtNA?
  {
    match FirstFixed(pick, fixed)
    case Some(i) =>
      DebtPick(Some(Abs(pick(fixed[i].0, fixed[i].1).value)), Fixed(fixed[i].0, fixed[i].1))
    case None =>
      match FirstCombo(pick, combos)
      case Some(j) =>
        var c := combos[j];
        DebtPick(Some(Abs(pick(c.taxonomy, c.current).value) + Abs(pick(c.taxonomy, c.noncurrent).value)),
                 Combo(c.taxonomy, c.title))
      case None =>
        var cands := DebtCandidates(sec, pick, capHint);
        DebtCandidatesExact(sec, pick, capHint);
        if |cands| == 0 then DebtPick(None, DebtNA)
        else
          var best := cands[LargestIndex(cands)];
          DebtPick(Some(best.val), Discovered(best.taxonomy, best.concept))
  }

  /** `pickTotalDebtAsOf(sec, asOf, capHint)`. */
  function TotalDebtAsOf(sec: CompanyFacts, asOf: Day, capHint: Option<real>): DebtPick
  {
    DebtStages(sec, TryPickAt(sec, asOf), capHint, FixedDebtConcepts(), ComboDebtConcepts())
  }

  /** The three stages: a fixed pick is the magnitude of the first fixed
      concept with a value; a combination is taken only when no fixed
      concept has one and is the sum of the two magnitudes; a discovered
      debt is taken only when both earlier stages fail, is a kept
      candidate, and is at least every kept candidate's value. */
  lemma DebtStagesMeaning(sec: CompanyFacts, pick: Picker, capHint: Option<real>,
                          fixed: seq<(string, string)>, combos: seq<DebtCombo>)
    ensures var r := DebtStages(sec, pick, capHint, fixed, combos);
      var cands := DebtCandidates(sec, pick, capHint);
      (r.source.Fixed? <==> exists i :: 0 <= i < |fixed| && FixedHit(pick, fixed[i])) &&
      (r.source.Fixed? ==> exists i :: (0 <= i < |fixed| && FixedHit(pick, fixed[i]) &&
         (forall k :: 0 <= k < i ==> !FixedHit(pick, fixed[k])) &&
         r.source == Fixed(fixed[i].0, fixed[i].1) &&
         r.debt == Some(Abs(pick(fixed[i].0, fixed[i].1).value)))) &&
      (r.source.Combo? ==>
         (forall i :: 0 <= i < |fixed| ==> !FixedHit(pick, fixed[i])) &&
         exists j :: (0 <= j < |combos| && ComboHit(pick, combos[j]) &&
           (forall k :: 0 <= k < j ==> !ComboHit(pick, combos[k])) &&
           r.debt == Some(Abs(pick(combos[j].taxonomy, combos[j].current).value) +
                          Abs(pick(combos[j].taxonomy, combos[j].noncurrent).value)))) &&
      (r.source.Discovered? ==>
         (forall i :: 0 <= i < |fixed| ==> !FixedHit(pick, fixed[i])) &&
         (forall j :: 0 <= j < |combos| ==> !ComboHit(pick, combos[j])) &&
         r.debt.Some? && r.debt.value > 0.0 && !OverCap(r.debt.value, capHint) &&
         DebtCandidate(r.source.taxonomy, r.source.concept, r.debt.value) in cands &&
         (forall k :: 0 <= k < |cands| ==> cands[k].val <= r.debt.value)) &&
      (r.source.DebtNA? <==>
         (forall i :: 0 <= i < |fixed| ==> !FixedHit(pick, fixed[i])) &&
         (forall j :: 0 <= j < |combos| ==> !ComboHit(pick, combos[j])) &&
         |cands| == 0)
  {
    var cands := DebtCandidates(sec, pick, capHint);
    var fi := FirstFixed(pick, fixed);
    if fi.None? {
      var cj := FirstCombo(pick, combos);
      if cj.None? {
        DebtCandidatesExact(sec, pick, capHint);
        if |cands| > 0 {
          var b := LargestIndex(cands);
          assert DebtStages(sec, pick, capHint, fixed, combos) ==
            DebtPick(Some(cands[b].val), Discovered(cands[b].taxonomy, cands[b].concept));
          assert cands[b] in cands;
        }
      }
    }
  }

  /** `pickTotalDebtAsOf` as written: the `tryPick` closure, then the
      stages. */
  method PickTotalDebtAsOf(sec: CompanyFacts, asOf: Day, capHint: Option<real>) returns (r: DebtPick)
    ensures r == TotalDebtAsOf(sec, asOf, capHint)
  {
    var tryPick := TryPickAt(sec, asOf);
    r := PickDebtStages(sec, tryPick, capHint, FixedDebtConcepts(), ComboDebtConcepts());
  }

  /** The stages of `pickTotalDebtAsOf` as written: two early-return loops
      over the fixed candidates and the combinations, then the scan. */
  method PickDebtStages(sec: CompanyFacts, tryPick: Picker, capHint: Option<real>,
                        fixed: seq<(string, string)>, combos: seq<DebtCombo>) returns (r: DebtPick)
    ensures r == DebtStages(sec, tryPick, capHint, fixed, combos)
  {
    var i := 0;
    while i < |fixed|
      invariant 0 <= i <= |fixed|
      invariant forall k :: 0 <= k < i ==> !FixedHit(tryPick, fixed[k])
    {
      var v := tryPick(fixed[i].0, fixed[i].1);
      if v.Some? {
        return DebtPick(Some(Abs(v.value)), Fixed(fixed[i].0, fixed[i].1));
      }
      i := i + 1;
    }
    var j := 0;
    while j < |combos|
      invariant 0 <= j <= |combos|
      invariant forall k :: 0 <= k < j ==> !ComboHit(tryPick, combos[k])
    {
      var c := combos[j];
      var va := tryPick(c.taxonomy, c.current);
      var vb := tryPick(c.taxonomy, c.noncurrent);
      if va.Some? && vb.Some? {
        return DebtPick(Some(Abs(va.value) + Abs(vb.value)), Combo(c.taxonomy, c.title));
      }
      j := j + 1;
    }
    var candidates := CollectDebtCandidates(sec, tryPick, capHint);
    if |candidates| == 0 {
      return DebtPick(None, DebtNA);
    }
    var best := candidates[LargestIndex(candidates)];
    return DebtPick(Some(best.val), Discovered(best.taxonomy, best.concept));
  }
}
