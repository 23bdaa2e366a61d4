/** Trailing-twelve-month aggregation of
    client/src/features/stock/utils/stock-past-info.ts (`computeTTM`): five
    tiers tried in order, on the facts sorted by end date. */
module Ttm {
  import opened Common
  import opened Facts

  datatype TtmSource = QFp | QDuration | FY | AnnualLike | QLike

  /** `{ end, val, source }`. */
  datatype TtmValue = TtmValue(end: Day, val: real, source: TtmSource)

  const QuarterFps: seq<string> := ["Q1", "Q2", "Q3", "Q4"]
  const QuarterForms: seq<string> := ["10-Q", "10-Q/A"]
  const AnnualForms: seq<string> := ["10-K", "10-K/A"]

  /** `['Q1'..'Q4'].includes(String(x.fp)) && ['10-Q','10-Q/A'].includes(String(x.form))`. */
  predicate IsQByFp(x: Fact)
  {
    x.fp.Some? && x.fp.value in QuarterFps && x.form.Some? && x.form.value in QuarterForms
  }

  /** `x.start && ['10-Q','10-Q/A'].includes(String(x.form))`. */
  predicate IsQByDuration(x: Fact)
  {
    x.start.Some? && x.form.Some? && x.form.value in QuarterForms
  }

  /** `x.fp === 'FY' && ['10-K','10-K/A'].includes(String(x.form))`. */
  predicate IsFYFiling(x: Fact)
  {
    IsFY(x) && x.form.Some? && x.form.value in AnnualForms
  }

  function Vals(s: seq<Fact>): (r: seq<real>)
    ensures |r| == |s| && forall i :: 0 <= i < |s| ==> r[i] == s[i].val
  {
    if s == [] then [] else [s[0].val] + Vals(s[1..])
  }

  /** `last4.reduce((s, x) => s + x.val, 0)` for the last four facts. */
  function SumLast4(s: seq<Fact>): real
    requires |s| >= 4
  {
    Sum(Vals(s[|s| - 4..]))
  }

  /** The sum of the last four, marked with the end of the last one (the
      shape shared by the three quarterly tiers). */
  function Last4(s: seq<Fact>, src: TtmSource): TtmValue
    requires |s| >= 4
  {
    TtmValue(Last(s).end, SumLast4(s), src)
  }

  function LastOne(s: seq<Fact>, src: TtmSource): TtmValue
    requires |s| > 0
  {
    TtmValue(Last(s).end, Last(s).val, src)
  }

  /** `computeTTM`. */
  function ComputeTTM(items: seq<Fact>): Option<TtmValue>
  {
    var sorted := SortByEnd(items);
    var qByFp := Filter(sorted, IsQByFp);
    var qByDuration := Filter(sorted, IsQByDuration);
    var fy := Filter(sorted, IsFYFiling);
    var annualLike := Filter(sorted, IsAnnualLike);
    var quarterLike := Filter(sorted, IsQuarterLike);
    if |qByFp| >= 4 then Some(Last4(qByFp, QFp))
    else if |qByDuration| >= 4 then Some(Last4(qByDuration, QDuration))
    else if |fy| > 0 then Some(LastOne(fy, FY))
    else if |annualLike| > 0 then Some(LastOne(annualLike, AnnualLike))
    else if |quarterLike| >= 4 then Some(Last4(quarterLike, QLike))
    else None
  }

  /** A tier's facts, counted on the input (the sort keeps every fact). */
  function TierCount(items: seq<Fact>, p: Fact -> bool): nat
  {
    |Filter(items, p)|
  }

  lemma {:induction false} FilterCountPermutation(s: seq<Fact>, t: seq<Fact>, p: Fact -> bool)
    requires multiset(s) == multiset(t)
    ensures |Filter(s, p)| == |Filter(t, p)|
    decreases |s|
  {
    if s != [] {
      var x := s[0];
      assert x in multiset(t);
      var i :| 0 <= i < |t| && t[i] == x;
      var t' := t[..i] + t[i + 1..];
      assert t == t[..i] + [x] + t[i + 1..];
      assert multiset(t) == multiset(t[..i]) + multiset{x} + multiset(t[i + 1..]);
      assert s == [x] + s[1..];
      assert multiset(t') == multiset(t[..i]) + multiset(t[i + 1..]);
      assert multiset(s) == multiset{x} + multiset(s[1..]);
      assert multiset(s[1..]) == multiset(s) - multiset{x};
      assert multiset(t') == multiset(t) - multiset{x};
      FilterCountPermutation(s[1..], t', p);
      FilterAppend(t[..i] + [x], t[i + 1..], p);
      FilterAppend(t[..i], [x], p);
      FilterAppend(t[..i], t[i + 1..], p);
    }
  }

  /** The tiers are tried in the order Q_FP, Q_DURATION, FY, ANNUAL_LIKE,
      Q_LIKE: each is taken exactly when it has enough facts (four for the
      quarterly tiers, one otherwise) and every earlier tier has too few;
      there is no result when none has enough. */
  lemma TtmTierOrder(items: seq<Fact>)
    ensures var r := ComputeTTM(items);
      var nFp := TierCount(items, IsQByFp);
      var nDur := TierCount(items, IsQByDuration);
      var nFy := TierCount(items, IsFYFiling);
      var nAnn := TierCount(items, IsAnnualLike);
      var nQ := TierCount(items, IsQuarterLike);
      (r.Some? && r.value.source == QFp <==> nFp >= 4) &&
      (r.Some? && r.value.source == QDuration <==> nFp < 4 && nDur >= 4) &&
      (r.Some? && r.value.source == FY <==> nFp < 4 && nDur < 4 && nFy > 0) &&
      (r.Some? && r.value.source == AnnualLike <==> nFp < 4 && nDur < 4 && nFy == 0 && nAnn > 0) &&
      (r.Some? && r.value.source == QLike <==> nFp < 4 && nDur < 4 && nFy == 0 && nAnn == 0 && nQ >= 4) &&
      (r.None? <==> nFp < 4 && nDur < 4 && nFy == 0 && nAnn == 0 && nQ < 4)
  {
    var sorted := SortByEnd(items);
    FilterCountPermutation(sorted, items, IsQByFp);
    FilterCountPermutation(sorted, items, IsQByDuration);
    FilterCountPermutation(sorted, items, IsFYFiling);
    FilterCountPermutation(sorted, items, IsAnnualLike);
    FilterCountPermutation(sorted, items, IsQuarterLike);
  }

  lemma {:induction false} FilterSorted(s: seq<Fact>, p: Fact -> bool)
    requires SortedByEnd(s)
    ensures SortedByEnd(Filter(s, p))
  {
    if s != [] {
      FilterSorted(s[1..], p);
      if p(s[0]) {
        var t := Filter(s[1..], p);
        forall k | 0 <= k < |t| ensures s[0].end <= t[k].end {
          assert t[k] in s[1..];
        }
      }
    }
  }

  /** In a sorted series, the last fact of a tier has the latest end date
      among all input facts of that tier, and the tier's facts are inputs. */
  lemma TierLastIsLatest(items: seq<Fact>, p: Fact -> bool)
    requires |Filter(SortByEnd(items), p)| > 0
    ensures var t := Filter(SortByEnd(items), p);
      forall k :: 0 <= k < |items| && p(items[k]) ==> items[k].end <= Last(t).end
    ensures forall x :: x in Filter(SortByEnd(items), p) ==> x in items && p(x)
  {
    var sorted := SortByEnd(items);
    SortByEndSorted(items);
    FilterSorted(sorted, p);
    var t := Filter(sorted, p);
    SortedLastLatest(t);
    forall k | 0 <= k < |items| && p(items[k]) ensures items[k].end <= Last(t).end {
      InTierOfSorted(items, p, k);
      var a :| 0 <= a < |t| && t[a] == items[k];
    }
    forall x | x in t ensures x in items && p(x) {
      assert x in sorted;
      assert x in multiset(sorted);
    }
  }

  lemma SortedLastLatest(t: seq<Fact>)
    requires SortedByEnd(t) && |t| > 0
    ensures forall a :: 0 <= a < |t| ==> t[a].end <= Last(t).end
  {
  }

  lemma InTierOfSorted(items: seq<Fact>, p: Fact -> bool, k: nat)
    requires k < |items| && p(items[k])
    ensures items[k] in Filter(SortByEnd(items), p)
  {
    var sorted := SortByEnd(items);
    assert items[k] in multiset(sorted);
    var i :| 0 <= i < |sorted| && sorted[i] == items[k];
  }

  predicate TierOf(src: TtmSource, x: Fact)
  {
    match src
    case QFp => IsQByFp(x)
    case QDuration => IsQByDuration(x)
    case FY => IsFYFiling(x)
    case AnnualLike => IsAnnualLike(x)
    case QLike => IsQuarterLike(x)
  }

  /** The result's end date is the latest end date among the input facts
      of the tier it came from, and some input fact of that tier ends on it. */
  lemma TtmEndIsLatest(items: seq<Fact>)
    ensures var r := ComputeTTM(items);
      r.Some? ==>
        (forall k :: 0 <= k < |items| && TierOf(r.value.source, items[k]) ==> items[k].end <= r.value.end) &&
        (exists k :: 0 <= k < |items| && TierOf(r.value.source, items[k]) && items[k].end == r.value.end)
  {
    var r := ComputeTTM(items);
    var sorted := SortByEnd(items);
    if r.Some? {
      match r.value.source
      case QFp => TierLastIsLatest(items, IsQByFp); LastIsInput(items, IsQByFp);
      case QDuration => TierLastIsLatest(items, IsQByDuration); LastIsInput(items, IsQByDuration);
      case FY => TierLastIsLatest(items, IsFYFiling); LastIsInput(items, IsFYFiling);
      case AnnualLike => TierLastIsLatest(items, IsAnnualLike); LastIsInput(items, IsAnnualLike);
      case QLike => TierLastIsLatest(items, IsQuarterLike); LastIsInput(items, IsQuarterLike);
    }
  }

  lemma LastIsInput(items: seq<Fact>, p: Fact -> bool)
    requires |Filter(SortByEnd(items), p)| > 0
    ensures exists k :: 0 <= k < |items| && p(items[k]) && items[k] == Last(Filter(SortByEnd(items), p))
  {
    TierLastIsLatest(items, p);
    var t := Filter(SortByEnd(items), p);
    assert Last(t) in t;
  }
}
