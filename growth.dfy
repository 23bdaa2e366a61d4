/** Growth helpers of client/src/features/stock/utils/stock-past-info.ts:
    compound annual growth, the past value a growth rate is measured from,
    the first loss-to-profit turnaround, and the growth summary
    (`TurnaroundInfo`) built from them; also the annual "as of" pickers. */
module Growth {
  import opened Common
  import opened Facts

  /** `Math.pow`, which the model does not compute: every operation using
      it takes it as a parameter. */
  type Pow = (real, real) -> real

  /** A power function that, for a positive base and a positive exponent,
      exceeds one exactly when the base does (true of `Math.pow`). */
  ghost predicate MonotoneAtOne(pow: Pow)
  {
    forall x: real, e: real {:trigger pow(x, e)} :: x > 0.0 && e > 0.0 ==> (pow(x, e) > 1.0 <==> x > 1.0)
  }

  /** `Math.pow(latest / past, 1 / years) - 1`. */
  function CagrRate(past: real, latest: real, years: real, pow: Pow): real
    requires past != 0.0 && years != 0.0
  {
    pow(latest / past, 1.0 / years) - 1.0
  }

  /** `cagr(past, latest, years)`: defined only for a positive span and
      positive endpoints. */
  function Cagr(past: real, latest: real, years: real, pow: Pow): (r: Option<real>)
    ensures r.Some? <==> years > 0.0 && past > 0.0 && latest > 0.0
    ensures r.Some? ==> r.value == CagrRate(past, latest, years, pow)
  {
    if !(years > 0.0) then None
    else if !(past > 0.0 && latest > 0.0) then None
    else Some(CagrRate(past, latest, years, pow))
  }

  /** With a power function like `Math.pow`, the growth rate is positive
      exactly when the latest value exceeds the past one. */
  lemma CagrPositive(past: real, latest: real, years: real, pow: Pow)
    requires MonotoneAtOne(pow)
    requires Cagr(past, latest, years, pow).Some?
    ensures Cagr(past, latest, years, pow).value > 0.0 <==> latest > past
  {
    var x := latest / past;
    assert x > 1.0 <==> latest > past by {
      assert latest == x * past;
    }
    assert pow(x, 1.0 / years) > 1.0 <==> x > 1.0;
  }

  /** A fact ending before `latestEnd` by at least `targetYears` years. */
  predicate IsPastCandidate(x: Fact, latestEnd: Day, targetYears: real)
  {
    x.end < latestEnd && YearsBetween(x.end, latestEnd) >= targetYears
  }

  /** `s[j]` is the last fact of `s` at least `targetYears` before
      `latestEnd`: the past value `pickPastValueNearYears` picks. */
  predicate IsLastPastCandidate(s: seq<Fact>, latestEnd: Day, targetYears: real, j: int)
  {
    0 <= j < |s| && IsPastCandidate(s[j], latestEnd, targetYears) &&
    forall k :: j < k < |s| ==> !IsPastCandidate(s[k], latestEnd, targetYears)
  }

  /** `pickPastValueNearYears`: among the facts at least `targetYears`
      before `latestEnd`, the one that comes last in the series. */
  function PickPastValueNearYears(items: seq<Fact>, latestEnd: Day, targetYears: real): (r: Option<Fact>)
    ensures r.None? <==> forall k :: 0 <= k < |items| ==> !IsPastCandidate(items[k], latestEnd, targetYears)
    ensures r.Some? ==> exists j :: (0 <= j < |items| && items[j] == r.value &&
      IsPastCandidate(items[j], latestEnd, targetYears) &&
      forall k :: j < k < |items| ==> !IsPastCandidate(items[k], latestEnd, targetYears))
  {
    LastWhere(items, (x: Fact) => IsPastCandidate(x, latestEnd, targetYears))
  }

  /** The picked past value is the one last candidate. */
  lemma LastPastCandidateUnique(s: seq<Fact>, latestEnd: Day, targetYears: real)
    ensures forall j :: IsLastPastCandidate(s, latestEnd, targetYears, j) ==>
      PickPastValueNearYears(s, latestEnd, targetYears) == Some(s[j])
    ensures var r := PickPastValueNearYears(s, latestEnd, targetYears);
      r.Some? ==> exists j :: IsLastPastCandidate(s, latestEnd, targetYears, j) && r.value == s[j]
  {
    var r := PickPastValueNearYears(s, latestEnd, targetYears);
    forall j | IsLastPastCandidate(s, latestEnd, targetYears, j) ensures r == Some(s[j]) {
      var i :| 0 <= i < |s| && s[i] == r.value && IsPastCandidate(s[i], latestEnd, targetYears) &&
        forall k :: i < k < |s| ==> !IsPastCandidate(s[k], latestEnd, targetYears);
      assert IsPastCandidate(s[i], latestEnd, targetYears) && IsPastCandidate(s[j], latestEnd, targetYears);
      assert i == j;
    }
    if r.Some? {
      var i :| 0 <= i < |s| && s[i] == r.value && IsPastCandidate(s[i], latestEnd, targetYears) &&
        forall k :: i < k < |s| ==> !IsPastCandidate(s[k], latestEnd, targetYears);
      assert IsLastPastCandidate(s, latestEnd, targetYears, i);
    }
  }

  /** The source's two successive filters (`end < latestEnd`, then at least
      `targetYears` apart) followed by taking the last element give the same
      fact. */
  lemma PastValueIsLastOfFilters(items: seq<Fact>, latestEnd: Day, targetYears: real)
    ensures LastOrNone(Filter(Filter(items, (x: Fact) => x.end < latestEnd),
      (x: Fact) => YearsBetween(x.end, latestEnd) >= targetYears)) ==
      PickPastValueNearYears(items, latestEnd, targetYears)
  {
    var p := (x: Fact) => x.end < latestEnd;
    var q := (x: Fact) => YearsBetween(x.end, latestEnd) >= targetYears;
    var c := (x: Fact) => IsPastCandidate(x, latestEnd, targetYears);
    FilterFilter(items, p, q, c);
    LastOfFilter(items, c);
  }

  /** Position `k` turns a loss (or zero) into a profit. */
  predicate IsTurnaroundAt(s: seq<Fact>, k: int)
  {
    1 <= k < |s| && s[k - 1].val <= 0.0 && s[k].val > 0.0
  }

  /** Position `k` is the first turnaround of `s`. */
  predicate IsFirstTurnaround(s: seq<Fact>, k: int)
  {
    IsTurnaroundAt(s, k) && forall k' :: 1 <= k' < k ==> !IsTurnaroundAt(s, k')
  }

  /** The first turnaround position at or after `i`. */
  function TurnaroundFrom(s: seq<Fact>, i: nat): (r: Option<nat>)
    requires i >= 1
    ensures r.Some? ==> (i <= r.value < |s| && IsTurnaroundAt(s, r.value) &&
      forall k :: i <= k < r.value ==> !IsTurnaroundAt(s, k))
    ensures r.None? ==> forall k :: i <= k < |s| ==> !IsTurnaroundAt(s, k)
    decreases |s| - i
  {
    if i >= |s| then None
    else if s[i - 1].val <= 0.0 && s[i].val > 0.0 then Some(i)
    else TurnaroundFrom(s, i + 1)
  }

  /** The calendar year of the first turnaround, if any. */
  function TurnaroundYear(s: seq<Fact>): Option<int>
  {
    match TurnaroundFrom(s, 1)
    case Some(k) => Some(YearOfDay(s[k].end))
    case None => None
  }

  /** `findTurnaroundYear`: scans adjacent pairs from the oldest and
      returns the year of the first one going from `<= 0` to `> 0`. */
  method FindTurnaroundYear(s: seq<Fact>) returns (y: Option<int>)
    ensures y == TurnaroundYear(s)
    ensures y.Some? <==> exists k :: 1 <= k < |s| && IsTurnaroundAt(s, k)
  {
    var i := 1;
    while i < |s|
      invariant 1 <= i
      invariant TurnaroundFrom(s, 1) == TurnaroundFrom(s, i)
      decreases |s| - i
    {
      var prev := s[i - 1];
      var cur := s[i];
      if prev.val <= 0.0 && cur.val > 0.0 {
        return Some(YearOfDay(cur.end));
      }
      i := i + 1;
    }
    return None;
  }

  const GrowthForms: seq<string> := ["10-K", "10-K/A", "20-F", "40-F"]

  /** `pickAnnualSeriesForGrowth` with its default forms: the FY facts of
      annual forms in series order, else the annual-like facts by end. */
  function PickAnnualSeriesForGrowth(items: seq<Fact>): (r: seq<Fact>)
    ensures forall i :: 0 <= i < |r| ==> r[i] in items
    ensures var fy := FilterByFp(FilterByForms(items, GrowthForms), ["FY"]);
      |fy| > 0 ==> r == fy
    ensures (forall k :: 0 <= k < |items| ==> !(FormIn(items[k], GrowthForms) && FpIn(items[k], ["FY"]))) ==>
      SortedByEnd(r) && multiset(r) == multiset(AnnualLikeOf(items))
  {
    var fy := FilterByFp(FilterByForms(items, GrowthForms), ["FY"]);
    if |fy| > 0 then fy
    else
      var a := AnnualLikeOf(items);
      SortByEndSorted(a);
      var r := SortByEnd(a);
      assert forall i :: 0 <= i < |r| ==> r[i] in items by {
        forall i | 0 <= i < |r| ensures r[i] in items {
          assert r[i] in multiset(a);
          assert r[i] in a;
        }
      }
      r
  }

  /** Why no growth figure could be given (the source's `reason` texts). */
  datatype NaReason =
    | LatestNotFound                       // 'latest annual value not found'
    | NoPastValue                         // 'no past value near target years'
    | CagrNotApplicable(past: real, latest: real)  // 'cagr not applicable (past=…, latest=…)'
    | NoLatestNetIncomeEnd                // 'no latest net income end'
    | NoEpsSeries                         // 'no eps series'
    | NoEpsEnd                            // 'no eps end'

  /** `TurnaroundInfo`. */
  datatype GrowthInfo =
    | CagrInfo(value: real)
    | Turnaround(year: int, yearLabel: string)
    | NotAvailable(reason: NaReason)

  /** `` `${y}년 흑자전환` ``. */
  function TurnaroundLabel(y: int): string
  {
    IntToString(y) + "년 흑자전환"
  }

  /** `if (y) return { kind: 'turnaround', … }` (a year of 0 is falsy),
      otherwise `{ kind: 'na', reason }`. */
  function TurnaroundOr(annual: seq<Fact>, reason: NaReason): (r: GrowthInfo)
    ensures r.Turnaround? || r == NotAvailable(reason)
    ensures r.Turnaround? ==> (r.year != 0 && r.yearLabel == TurnaroundLabel(r.year) &&
      exists k :: IsFirstTurnaround(annual, k) && r.year == YearOfDay(annual[k].end))
    ensures (exists k :: IsFirstTurnaround(annual, k) && YearOfDay(annual[k].end) != 0) ==> r.Turnaround?
  {
    FirstTurnaroundUnique(annual);
    var y := TurnaroundYear(annual);
    if y.Some? && y.value != 0 then Turnaround(y.value, TurnaroundLabel(y.value)) else NotAvailable(reason)
  }

  /** The first turnaround is `TurnaroundFrom(s, 1)`, and there is at most
      one. */
  lemma FirstTurnaroundUnique(s: seq<Fact>)
    ensures forall k :: IsFirstTurnaround(s, k) ==> TurnaroundFrom(s, 1) == Some(k)
    ensures TurnaroundFrom(s, 1).Some? ==> IsFirstTurnaround(s, TurnaroundFrom(s, 1).value)
  {
    var t := TurnaroundFrom(s, 1);
    forall k | IsFirstTurnaround(s, k) ensures t == Some(k) {
      assert t.Some?;
      assert IsTurnaroundAt(s, t.value) && IsTurnaroundAt(s, k);
      assert t.value == k;
    }
  }

  /** The part of `buildGrowthInfo` after the latest annual value is
      found: a rate from the past value, else a turnaround, else a reason.
      A rate is the compound growth between two positive facts of the
      annual series, the older at least `targetYears` before the latest. */
  function GrowthFrom(annual: seq<Fact>, latest: Fact, targetYears: real, pow: Pow): (r: GrowthInfo)
    ensures r.NotAvailable? ==> r.reason == NoPastValue || r.reason.CagrNotApplicable?
    ensures r.CagrInfo? ==> exists p :: (p in annual && p.val > 0.0 && latest.val > 0.0 &&
      p.end < latest.end && YearsBetween(p.end, latest.end) >= targetYears &&
      r.value == CagrRate(p.val, latest.val, YearsBetween(p.end, latest.end), pow))
    ensures r.CagrInfo? ==> exists j :: (IsLastPastCandidate(annual, latest.end, targetYears, j) &&
      annual[j].val > 0.0 && latest.val > 0.0 &&
      r.value == CagrRate(annual[j].val, latest.val, YearsBetween(annual[j].end, latest.end), pow))
    ensures ((exists j :: IsLastPastCandidate(annual, latest.end, targetYears, j) && annual[j].val > 0.0) &&
             latest.val > 0.0) ==> r.CagrInfo?
    ensures r == NotAvailable(NoPastValue) ==>
      forall k :: 0 <= k < |annual| ==> !IsPastCandidate(annual[k], latest.end, targetYears)
    ensures r.NotAvailable? && r.reason.CagrNotApplicable? ==>
      !(r.reason.past > 0.0 && r.reason.latest > 0.0) && r.reason.latest == latest.val &&
      exists j :: IsLastPastCandidate(annual, latest.end, targetYears, j) && r.reason.past == annual[j].val
    ensures r.Turnaround? ==> (r.year != 0 && r.yearLabel == TurnaroundLabel(r.year) &&
      exists k :: IsFirstTurnaround(annual, k) && r.year == YearOfDay(annual[k].end))
  {
    LastPastCandidateUnique(annual, latest.end, targetYears);
    var past := PickPastValueNearYears(annual, latest.end, targetYears);
    if past.None? then TurnaroundOr(annual, NoPastValue)
    else
      var yrs := YearsBetween(past.value.end, latest.end);
      var g := Cagr(past.value.val, latest.val, yrs, pow);
      if g.Some? then CagrInfo(g.value)
      else TurnaroundOr(annual, CagrNotApplicable(past.value.val, latest.val))
  }

  /** `buildGrowthInfo(series, latestEnd, targetYears)`. */
  function BuildGrowthInfo(series: seq<Fact>, latestEnd: Day, targetYears: real, pow: Pow): GrowthInfo
  {
    var annual := PickAnnualSeriesForGrowth(series);
    var latest := LastAsOf(annual, latestEnd);
    if latest.None? then NotAvailable(LatestNotFound)
    else GrowthFrom(annual, latest.value, targetYears, pow)
  }

  /** A growth rate is the compound growth between two positive facts of
      the series, the older at least `targetYears` before the newer; the
      newer is the "as of" choice of the annual series and the older the
      last fact of that series at least `targetYears` before it. */
  lemma GrowthRateMeaning(series: seq<Fact>, latestEnd: Day, targetYears: real, pow: Pow)
    ensures var r := BuildGrowthInfo(series, latestEnd, targetYears, pow);
      r.CagrInfo? ==> exists p, l :: (p in series && l in series && p.val > 0.0 && l.val > 0.0 &&
        p.end < l.end && YearsBetween(p.end, l.end) >= targetYears &&
        r.value == CagrRate(p.val, l.val, YearsBetween(p.end, l.end), pow))
    ensures var r := BuildGrowthInfo(series, latestEnd, targetYears, pow);
      var annual := PickAnnualSeriesForGrowth(series);
      var l := LastAsOf(annual, latestEnd);
      r.CagrInfo? ==> l.Some? && exists j :: (IsLastPastCandidate(annual, l.value.end, targetYears, j) &&
        annual[j].val > 0.0 && l.value.val > 0.0 &&
        r.value == CagrRate(annual[j].val, l.value.val, YearsBetween(annual[j].end, l.value.end), pow))
  {
    var annual := PickAnnualSeriesForGrowth(series);
    var latest := LastAsOf(annual, latestEnd);
    if latest.Some? {
      var r := GrowthFrom(annual, latest.value, targetYears, pow);
      if r.CagrInfo? {
        var p :| p in annual && p.val > 0.0 && latest.value.val > 0.0 &&
          p.end < latest.value.end && YearsBetween(p.end, latest.value.end) >= targetYears &&
          r.value == CagrRate(p.val, latest.value.val, YearsBetween(p.end, latest.value.end), pow);
        assert p in series && latest.value in series;
      }
    }
  }

  /** A turnaround names the non-zero year of the first fact of the annual
      series that is a profit while its predecessor was a loss or zero. */
  lemma GrowthTurnaroundMeaning(series: seq<Fact>, latestEnd: Day, targetYears: real, pow: Pow)
    ensures var r := BuildGrowthInfo(series, latestEnd, targetYears, pow);
      var annual := PickAnnualSeriesForGrowth(series);
      r.Turnaround? ==> (r.year != 0 && r.yearLabel == TurnaroundLabel(r.year) &&
        exists k :: IsFirstTurnaround(annual, k) && r.year == YearOfDay(annual[k].end))
  {
    var annual := PickAnnualSeriesForGrowth(series);
    var latest := LastAsOf(annual, latestEnd);
    if latest.Some? {
      var r := GrowthFrom(annual, latest.value, targetYears, pow);
    }
  }

  /** "Latest not found" happens exactly when there is no annual fact, and
      "not applicable" carries endpoint values that are not both positive. */
  lemma GrowthNaMeaning(series: seq<Fact>, latestEnd: Day, targetYears: real, pow: Pow)
    ensures var r := BuildGrowthInfo(series, latestEnd, targetYears, pow);
      r == NotAvailable(LatestNotFound) <==> |PickAnnualSeriesForGrowth(series)| == 0
    ensures var r := BuildGrowthInfo(series, latestEnd, targetYears, pow);
      r.NotAvailable? && r.reason.CagrNotApplicable? ==> !(r.reason.past > 0.0 && r.reason.latest > 0.0)
  {
    var annual := PickAnnualSeriesForGrowth(series);
    var latest := LastAsOf(annual, latestEnd);
    if latest.Some? {
      var r := GrowthFrom(annual, latest.value, targetYears, pow);
    }
  }

  /** `{ end, val }`. */
  datatype Point = Point(end: Day, val: real)

  /** A fact of a 10-K or 10-K/A filing for a full fiscal year. */
  predicate IsTenKFY(x: Fact)
  {
    FormIn(x, ["10-K", "10-K/A"]) && FpIn(x, ["FY"])
  }

  /** `pickLatestAnnual`: the last 10-K FY fact in series order, else the
      last annual-like fact in series order among those with the latest
      end. */
  function PickLatestAnnual(items: seq<Fact>): (r: Option<Point>)
    ensures r.Some? ==> exists x :: x in items && r.value == Point(x.end, x.val)
    ensures r.None? <==> forall k :: 0 <= k < |items| ==>
      !(FormIn(items[k], ["10-K", "10-K/A"]) && FpIn(items[k], ["FY"])) && !IsAnnualLike(items[k])
    ensures var fy := FilterByFp(FilterByForms(items, ["10-K", "10-K/A"]), ["FY"]);
      |fy| == 0 && r.Some? ==> forall k :: 0 <= k < |items| && IsAnnualLike(items[k]) ==> items[k].end <= r.value.end
  {
    var fy := FilterByFp(FilterByForms(items, ["10-K", "10-K/A"]), ["FY"]);
    if |fy| > 0 then
      var last := Last(fy);
      Some(Point(last.end, last.val))
    else
      var annualLike := SortByEnd(AnnualLikeOf(items));
      if |annualLike| > 0 then
        var last := Last(annualLike);
        LatestOfSorted(AnnualLikeOf(items));
        Some(Point(last.end, last.val))
      else
        None
  }

  /** The choice `pickLatestAnnual` makes: the last 10-K FY fact in series
      order when there is one; otherwise, among the annual-like facts with
      the latest end, the last in series order. */
  lemma PickLatestAnnualChoice(items: seq<Fact>)
    ensures var r := PickLatestAnnual(items);
      (exists k :: 0 <= k < |items| && IsTenKFY(items[k])) ==>
        exists j :: (0 <= j < |items| && IsTenKFY(items[j]) && r == Some(Point(items[j].end, items[j].val)) &&
          forall k :: j < k < |items| ==> !IsTenKFY(items[k]))
    ensures var r := PickLatestAnnual(items);
      (forall k :: 0 <= k < |items| ==> !IsTenKFY(items[k])) && r.Some? ==>
        exists j :: (0 <= j < |items| && IsAnnualLike(items[j]) && r == Some(Point(items[j].end, items[j].val)) &&
          forall k :: j < k < |items| && IsAnnualLike(items[k]) ==> items[k].end != items[j].end)
  {
    var fy := FilterByFp(FilterByForms(items, ["10-K", "10-K/A"]), ["FY"]);
    TenKFYLast(items);
    TenKFYIndex(items);
    if |fy| == 0 && |AnnualLikeOf(items)| > 0 {
      SortedLastIsLast(items, IsAnnualLike);
    }
  }

  /** The 10-K FY facts filtered in two steps end with the last such fact
      of the series. */
  lemma TenKFYLast(items: seq<Fact>)
    ensures LastOrNone(FilterByFp(FilterByForms(items, ["10-K", "10-K/A"]), ["FY"])) == LastWhere(items, IsTenKFY)
  {
    FilterFilter(items, HasForm(["10-K", "10-K/A"]), HasFp(["FY"]), IsTenKFY);
    LastOfFilter(items, IsTenKFY);
  }

  /** The last 10-K FY fact of the series, by index. */
  lemma TenKFYIndex(items: seq<Fact>)
    ensures var r := LastWhere(items, IsTenKFY);
      (r.Some? <==> exists k :: 0 <= k < |items| && IsTenKFY(items[k])) &&
      (r.Some? ==> exists j :: (0 <= j < |items| && IsTenKFY(items[j]) && r.value == items[j] &&
        forall k :: j < k < |items| ==> !IsTenKFY(items[k])))
  {
    var r := LastWhere(items, IsTenKFY);
    if r.Some? {
      var j :| 0 <= j < |items| && items[j] == r.value && IsTenKFY(items[j]) &&
        forall k :: j < k < |items| ==> !IsTenKFY(items[k]);
    }
  }

  /** The last element of a sorted copy is an input with the latest end. */
  lemma LatestOfSorted(s: seq<Fact>)
    requires |s| > 0
    ensures Last(SortByEnd(s)) in s
    ensures forall k :: 0 <= k < |s| ==> s[k].end <= Last(SortByEnd(s)).end
  {
    var t := SortByEnd(s);
    SortByEndSorted(s);
    assert Last(t) in multiset(s);
    forall k | 0 <= k < |s| ensures s[k].end <= Last(t).end {
      assert s[k] in multiset(t);
      var a :| 0 <= a < |t| && t[a] == s[k];
    }
  }

  /** `pickAnnualAsOf`: the "as of" choice among the annual-like facts in
      end order, that is the last annual-like fact in series order whose
      end is the given date, else the latest end before it, else the
      latest end of all. */
  function PickAnnualAsOf(items: seq<Fact>, end: Day): (r: Option<Fact>)
    ensures r.Some? ==> r.value in items && IsAnnualLike(r.value)
    ensures r.None? <==> forall k :: 0 <= k < |items| ==> !IsAnnualLike(items[k])
    ensures (exists k :: 0 <= k < |items| && IsAnnualLike(items[k]) && items[k].end == end) ==>
      r.Some? && r.value.end == end
    ensures (exists k :: 0 <= k < |items| && IsAnnualLike(items[k]) && items[k].end <= end) ==>
      r.Some? && r.value.end <= end
    ensures r.Some? ==> exists j :: (0 <= j < |items| && items[j] == r.value &&
      forall k :: j < k < |items| && IsAnnualLike(items[k]) ==> items[k].end != r.value.end)
    ensures r.Some? ==> forall k :: 0 <= k < |items| && IsAnnualLike(items[k]) && items[k].end <= end ==>
      items[k].end <= r.value.end
    ensures r.Some? && r.value.end > end ==> forall k :: 0 <= k < |items| && IsAnnualLike(items[k]) ==>
      items[k].end <= r.value.end
  {
    var a := AnnualLikeOf(items);
    var annuals := SortByEnd(a);
    var r := LastAsOf(annuals, end);
    SortedChoiceLast(items, IsAnnualLike, end);
    SortedChoiceLatest(items, IsAnnualLike, end);
    assert forall k :: 0 <= k < |items| && IsAnnualLike(items[k]) ==> items[k] in annuals by {
      forall k | 0 <= k < |items| && IsAnnualLike(items[k]) ensures items[k] in annuals {
        assert items[k] in multiset(a);
      }
    }
    assert r.Some? ==> r.value in items && IsAnnualLike(r.value) by {
      if r.Some? {
        assert r.value in multiset(a);
      }
    }
    r
  }

  /** `pickLatestAsOf`: the last fact, in series order, ending by `asOfEnd`. */
  function PickLatestAsOf(items: seq<Fact>, asOfEnd: Day): (r: Option<Fact>)
    ensures r.None? <==> forall k :: 0 <= k < |items| ==> items[k].end > asOfEnd
    ensures r.Some? ==> exists j :: (0 <= j < |items| && items[j] == r.value && items[j].end <= asOfEnd &&
      forall k :: j < k < |items| ==> items[k].end > asOfEnd)
  {
    var p := (x: Fact) => x.end <= asOfEnd;
    LastOfFilter(items, p);
    LastOrNone(Filter(items, p))
  }

  /** The picked latest fact is the one last fact ending by `asOfEnd`. */
  lemma PickLatestAsOfUnique(items: seq<Fact>, asOfEnd: Day)
    ensures forall j :: IsLastEndingBy(items, asOfEnd, j) ==> PickLatestAsOf(items, asOfEnd) == Some(items[j])
    ensures PickLatestAsOf(items, asOfEnd).Some? ==>
      exists j :: IsLastEndingBy(items, asOfEnd, j) && PickLatestAsOf(items, asOfEnd).value == items[j]
  {
    var r := PickLatestAsOf(items, asOfEnd);
    forall j | IsLastEndingBy(items, asOfEnd, j) ensures r == Some(items[j]) {
      var i :| 0 <= i < |items| && items[i] == r.value && items[i].end <= asOfEnd &&
        forall k :: i < k < |items| ==> items[k].end > asOfEnd;
      assert items[i].end <= asOfEnd && items[j].end <= asOfEnd;
      assert i == j;
    }
    if r.Some? {
      var i :| 0 <= i < |items| && items[i] == r.value && items[i].end <= asOfEnd &&
        forall k :: i < k < |items| ==> items[k].end > asOfEnd;
      assert IsLastEndingBy(items, asOfEnd, i);
    }
  }

  /** An FY fact of one of the four annual forms (`String(x.form)` of an
      absent form is never one of them). */
  predicate IsFYAnnualForm(x: Fact)
  {
    IsFY(x) && x.form.Some? && x.form.value in GrowthForms
  }

  /** `pickFYAsOf`: the "as of" choice among the FY annual-form facts. */
  function PickFYAsOf(items: seq<Fact>, end: Day): (r: Option<Fact>)
    ensures r.Some? ==> r.value in items && IsFYAnnualForm(r.value)
    ensures r.None? <==> forall k :: 0 <= k < |items| ==> !IsFYAnnualForm(items[k])
    ensures (exists k :: 0 <= k < |items| && IsFYAnnualForm(items[k]) && items[k].end == end) ==>
      r.Some? && r.value.end == end
    ensures (exists k :: 0 <= k < |items| && IsFYAnnualForm(items[k]) && items[k].end <= end) ==>
      r.Some? && r.value.end <= end
    ensures r.Some? ==> AsOfChoice(items, IsFYAnnualForm, end, r.value)
  {
    LastAsOfFilter(items, IsFYAnnualForm, end);
    LastAsOf(Filter(items, IsFYAnnualForm), end)
  }
}
