/** SEC XBRL facts (`SecFactItem`), the date arithmetic the fact-series code
    performs on them, the annual / quarter classification, the form and
    fiscal-period filters, and the stable sort by end date. */
module Facts {
  import opened Common

  /** A calendar date `YYYY-MM-DD`, as its day number (day 0 = 1970-01-01).
      `parseDate(d)` is `Day * 86400000` milliseconds. */
  type Day = int

  /** One reported value; a date that the source treats as falsy when
      absent (`start`, `filed`) is `None`. */
  datatype Fact = Fact(
    end: Day,
    start: Option<Day>,
    val: real,
    accn: string,
    fy: Option<int>,
    fp: Option<string>,
    form: Option<string>,
    filed: Option<Day>)

  /** `Number(d.slice(0, 4))`: the calendar year of a day number
      (proleptic Gregorian calendar, civil-from-days conversion). */
  function YearOfDay(d: Day): int
  {
    var z := d + 719468;
    var era := z / 146097;
    var doe := z % 146097;
    var yoe := (doe - doe / 1460 + doe / 36524 - doe / 146096) / 365;
    var doy := doe - (365 * yoe + yoe / 4 - yoe / 100);
    var mp := (5 * doy + 2) / 153;
    var m := if mp < 10 then mp + 3 else mp - 9;
    yoe + era * 400 + (if m <= 2 then 1 else 0)
  }

  /** `daysBetween(start, end)`. */
  function DaysBetween(start: Day, end: Day): int
  {
    end - start
  }

  /** `yearsBetween`: elapsed time in 365.25-day years. */
  function YearsBetween(from: Day, to: Day): (r: real)
    ensures r > 0.0 <==> from < to
    ensures r >= 0.0 <==> from <= to
  {
    (to - from) as real / 365.25
  }

  /** A duration fact spanning 330 to 400 days. */
  predicate IsAnnualLike(it: Fact)
  {
    it.start.Some? && 330 <= DaysBetween(it.start.value, it.end) <= 400
  }

  /** A duration fact spanning 80 to 120 days. */
  predicate IsQuarterLike(it: Fact)
  {
    it.start.Some? && 80 <= DaysBetween(it.start.value, it.end) <= 120
  }

  /** No fact is both: the two day ranges are disjoint. */
  lemma AnnualQuarterDisjoint(it: Fact)
    ensures !(IsAnnualLike(it) && IsQuarterLike(it))
  {
  }

  /** `x.form ? set.has(x.form) : false` (the empty string is falsy). */
  predicate FormIn(x: Fact, forms: seq<string>)
  {
    x.form.Some? && x.form.value != "" && x.form.value in forms
  }

  /** `x.fp ? set.has(x.fp) : false`. */
  predicate FpIn(x: Fact, fps: seq<string>)
  {
    x.fp.Some? && x.fp.value != "" && x.fp.value in fps
  }

  /** `x.fp === 'FY'`. */
  predicate IsFY(x: Fact)
  {
    x.fp == Some("FY")
  }

  function FilterByForms(items: seq<Fact>, forms: seq<string>): (r: seq<Fact>)
    ensures forall i :: 0 <= i < |r| ==> r[i] in items && FormIn(r[i], forms)
    ensures forall i :: 0 <= i < |items| && FormIn(items[i], forms) ==> items[i] in r
  {
    Filter(items, HasForm(forms))
  }

  /** The test `FormIn(x, forms)`. */
  function HasForm(forms: seq<string>): Fact -> bool
  {
    (x: Fact) => FormIn(x, forms)
  }

  /** The test `FpIn(x, fps)`. */
  function HasFp(fps: seq<string>): Fact -> bool
  {
    (x: Fact) => FpIn(x, fps)
  }

  function FilterByFp(items: seq<Fact>, fps: seq<string>): (r: seq<Fact>)
    ensures forall i :: 0 <= i < |r| ==> r[i] in items && FpIn(r[i], fps)
    ensures forall i :: 0 <= i < |items| && FpIn(items[i], fps) ==> items[i] in r
  {
    Filter(items, HasFp(fps))
  }

  function AnnualLikeOf(items: seq<Fact>): seq<Fact>
  {
    Filter(items, IsAnnualLike)
  }

  function QuarterLikeOf(items: seq<Fact>): seq<Fact>
  {
    Filter(items, IsQuarterLike)
  }

  // ----- stable sort by end date -----

  /** Non-decreasing end dates. */
  predicate SortedByEnd(s: seq<Fact>)
  {
    forall i, j :: 0 <= i < j < |s| ==> s[i].end <= s[j].end
  }

  /** Strictly increasing end dates: sorted and no end date twice. */
  predicate StrictlySortedByEnd(s: seq<Fact>)
  {
    forall i, j :: 0 <= i < j < |s| ==> s[i].end < s[j].end
  }

  /** Inserts `x` after every element whose end is not later than its own,
      which keeps elements with equal ends in arrival order. */
  function InsertByEnd(x: Fact, s: seq<Fact>): (r: seq<Fact>)
    ensures multiset(r) == multiset(s) + multiset{x}
    ensures |r| == |s| + 1
  {
    if s == [] then [x]
    else if x.end < s[0].end then [x] + s
    else
      assert s == [s[0]] + s[1..];
      [s[0]] + InsertByEnd(x, s[1..])
  }

  /** `[...items].sort((a, b) => parseDate(a.end) - parseDate(b.end))`:
      a stable sort, as `Array.prototype.sort` is. */
  function SortByEnd(s: seq<Fact>): (r: seq<Fact>)
    ensures multiset(r) == multiset(s)
    ensures |r| == |s|
  {
    if s == [] then []
    else
      assert s == s[..|s| - 1] + [s[|s| - 1]];
      InsertByEnd(s[|s| - 1], SortByEnd(s[..|s| - 1]))
  }

  lemma {:induction false} InsertByEndSorted(x: Fact, s: seq<Fact>)
    requires SortedByEnd(s)
    ensures SortedByEnd(InsertByEnd(x, s))
  {
    if s != [] && x.end >= s[0].end {
      InsertByEndSorted(x, s[1..]);
      var t := InsertByEnd(x, s[1..]);
      assert multiset(t) == multiset(s[1..]) + multiset{x};
      forall k | 0 <= k < |t| ensures s[0].end <= t[k].end {
        assert t[k] in multiset(t);
        if t[k] != x {
          assert t[k] in multiset(s[1..]);
          assert t[k] in s[1..];
        }
      }
    }
  }

  lemma {:induction false} InsertByEndStrict(x: Fact, s: seq<Fact>)
    requires StrictlySortedByEnd(s)
    requires forall k :: 0 <= k < |s| ==> s[k].end != x.end
    ensures StrictlySortedByEnd(InsertByEnd(x, s))
  {
    if s != [] && x.end >= s[0].end {
      InsertByEndStrict(x, s[1..]);
      var t := InsertByEnd(x, s[1..]);
      assert multiset(t) == multiset(s[1..]) + multiset{x};
      forall k | 0 <= k < |t| ensures s[0].end < t[k].end {
        assert t[k] in multiset(t);
        if t[k] != x {
          assert t[k] in multiset(s[1..]);
          assert t[k] in s[1..];
        }
      }
    }
  }

  /** The sort's output is ordered by end date. */
  lemma {:induction false} SortByEndSorted(s: seq<Fact>)
    ensures SortedByEnd(SortByEnd(s))
  {
    if s != [] {
      SortByEndSorted(s[..|s| - 1]);
      InsertByEndSorted(s[|s| - 1], SortByEnd(s[..|s| - 1]));
    }
  }

  /** When no two facts share an end date, the sorted output is strictly
      increasing. */
  lemma {:induction false} SortByEndStrict(s: seq<Fact>)
    requires forall i, j :: 0 <= i < j < |s| ==> s[i].end != s[j].end
    ensures StrictlySortedByEnd(SortByEnd(s))
  {
    if s != [] {
      var p := s[..|s| - 1];
      var x := s[|s| - 1];
      SortByEndStrict(p);
      var t := SortByEnd(p);
      forall k | 0 <= k < |t| ensures t[k].end != x.end {
        assert t[k] in multiset(t);
        assert t[k] in p;
      }
      InsertByEndStrict(x, t);
    }
  }

  lemma {:induction false} InsertByEndAtEnd(x: Fact, s: seq<Fact>)
    requires forall k :: 0 <= k < |s| ==> s[k].end <= x.end
    ensures InsertByEnd(x, s) == s + [x]
  {
    if s != [] {
      InsertByEndAtEnd(x, s[1..]);
    }
  }

  /** Sorting an already ordered series changes nothing (stability). */
  lemma {:induction false} SortByEndOfSorted(s: seq<Fact>)
    requires SortedByEnd(s)
    ensures SortByEnd(s) == s
  {
    if s != [] {
      var p := s[..|s| - 1];
      SortByEndOfSorted(p);
      InsertByEndAtEnd(s[|s| - 1], p);
    }
  }

  /** The test `x.end == d`. */
  function EndsOn(d: Day): Fact -> bool
  {
    (x: Fact) => x.end == d
  }

  /** The test `x.end <= d`. */
  function EndsBy(d: Day): Fact -> bool
  {
    (x: Fact) => x.end <= d
  }

  /** Inserting `x` into a sorted series keeps the facts ending on `e` in
      order, with `x` after them when it ends on `e` too. */
  lemma {:induction false} InsertByEndStable(x: Fact, s: seq<Fact>, e: Day)
    requires SortedByEnd(s)
    ensures Filter(InsertByEnd(x, s), EndsOn(e)) ==
      Filter(s, EndsOn(e)) + (if x.end == e then [x] else [])
  {
    if s == [] {
      assert InsertByEnd(x, s) == [x];
      FilterOne(x, e);
    } else if x.end < s[0].end {
      InsertFrontStable(x, s, e);
    } else {
      var q := EndsOn(e);
      assert s == [s[0]] + s[1..];
      SortedTail(s);
      InsertByEndStable(x, s[1..], e);
      FilterAppend([s[0]], InsertByEnd(x, s[1..]), q);
      FilterAppend([s[0]], s[1..], q);
    }
  }

  /** A single fact is kept exactly when it ends on `e`. */
  lemma FilterOne(x: Fact, e: Day)
    ensures Filter([x], EndsOn(e)) == if x.end == e then [x] else []
  {
    assert [x][1..] == [];
  }

  /** A tail of an end-ordered series is end-ordered. */
  lemma SortedTail(s: seq<Fact>)
    requires SortedByEnd(s) && s != []
    ensures SortedByEnd(s[1..])
  {
    forall i, j | 0 <= i < j < |s[1..]| ensures s[1..][i].end <= s[1..][j].end {
      assert s[1..][i] == s[i + 1] && s[1..][j] == s[j + 1];
    }
  }

  /** A fact ending before a whole end-ordered series goes in front, after
      none of its facts ending on `e`. */
  lemma InsertFrontStable(x: Fact, s: seq<Fact>, e: Day)
    requires SortedByEnd(s) && s != [] && x.end < s[0].end
    ensures Filter(InsertByEnd(x, s), EndsOn(e)) ==
      Filter(s, EndsOn(e)) + (if x.end == e then [x] else [])
  {
    var q := EndsOn(e);
    assert InsertByEnd(x, s) == [x] + s;
    FilterAppend([x], s, q);
    FilterOne(x, e);
    if x.end == e {
      forall i | 0 <= i < |s| ensures !q(s[i]) {
        assert s[0].end <= s[i].end;
      }
      FilterNone(s, q);
    }
  }

  /** The sort is stable: the facts ending on any one date keep their
      order. */
  lemma {:induction false} SortByEndStable(s: seq<Fact>, e: Day)
    ensures Filter(SortByEnd(s), EndsOn(e)) == Filter(s, EndsOn(e))
  {
    if s != [] {
      var init, x := s[..|s| - 1], s[|s| - 1];
      assert s == init + [x];
      SortByEndStable(init, e);
      SortByEndSorted(init);
      InsertByEndStable(x, SortByEnd(init), e);
      FilterAppend(init, [x], EndsOn(e));
      assert Filter([x], EndsOn(e)) == (if x.end == e then [x] else []) by { assert [x][1..] == []; }
    }
  }

  /** Facts whose end is exactly `d`. */
  function EndingOn(items: seq<Fact>, d: Day): seq<Fact>
  {
    Filter(items, EndsOn(d))
  }

  /** Facts whose end is not after `d`. */
  function EndingBy(items: seq<Fact>, d: Day): seq<Fact>
  {
    Filter(items, EndsBy(d))
  }

  /** The last fact ending on `d`, else the last ending by `d`, else the last
      one overall: the "as of" choice used for latest values. */
  function LastAsOf(items: seq<Fact>, d: Day): (r: Option<Fact>)
    ensures r.Some? <==> |items| > 0
    ensures r.Some? ==> r.value in items
    ensures (exists k :: 0 <= k < |items| && items[k].end == d) ==> r.Some? && r.value.end == d
    ensures (exists k :: 0 <= k < |items| && items[k].end <= d) ==> r.Some? && r.value.end <= d
    ensures r.Some? && r.value.end > d ==> r.value == Last(items)
    ensures (exists k :: 0 <= k < |items| && items[k].end == d) ==>
      exists j :: 0 <= j < |items| && r == Some(items[j]) && items[j].end == d &&
        forall k :: j < k < |items| ==> items[k].end != d
    ensures ((forall k :: 0 <= k < |items| ==> items[k].end != d) &&
             (exists k :: 0 <= k < |items| && items[k].end <= d)) ==>
      exists j :: 0 <= j < |items| && r == Some(items[j]) && items[j].end <= d &&
        forall k :: j < k < |items| ==> items[k].end > d
    ensures (forall k :: 0 <= k < |items| ==> items[k].end > d) ==> r == LastOrNone(items)
  {
    var exact := EndingOn(items, d);
    var asOf := EndingBy(items, d);
    LastOfFilter(items, EndsOn(d));
    LastOfFilter(items, EndsBy(d));
    LastEndingOn(items, d);
    LastEndingBy(items, d);
    if |exact| > 0 then Some(Last(exact))
    else if |asOf| > 0 then Some(Last(asOf))
    else LastOrNone(items)
  }

  /** The last fact ending on `d`. */
  lemma LastEndingOn(items: seq<Fact>, d: Day)
    ensures var r := LastWhere(items, EndsOn(d));
      (r.Some? <==> exists k :: 0 <= k < |items| && items[k].end == d) &&
      (r.Some? ==> exists j :: (0 <= j < |items| && r.value == items[j] && items[j].end == d &&
        forall k :: j < k < |items| ==> items[k].end != d))
  {
    var r := LastWhere(items, EndsOn(d));
    if r.Some? {
      var j :| 0 <= j < |items| && items[j] == r.value && EndsOn(d)(items[j]) &&
        forall k :: j < k < |items| ==> !EndsOn(d)(items[k]);
    }
  }

  /** The last fact ending by `d`. */
  lemma LastEndingBy(items: seq<Fact>, d: Day)
    ensures var r := LastWhere(items, EndsBy(d));
      (r.Some? <==> exists k :: 0 <= k < |items| && items[k].end <= d) &&
      (r.Some? ==> exists j :: (0 <= j < |items| && r.value == items[j] && items[j].end <= d &&
        forall k :: j < k < |items| ==> items[k].end > d))
  {
    var r := LastWhere(items, EndsBy(d));
    if r.Some? {
      var j :| 0 <= j < |items| && items[j] == r.value && EndsBy(d)(items[j]) &&
        forall k :: j < k < |items| ==> !EndsBy(d)(items[k]);
    }
  }

  /** `s[j]` is the last fact of `s` ending exactly on `d`. */
  predicate IsLastEndingOn(s: seq<Fact>, d: Day, j: int)
  {
    0 <= j < |s| && s[j].end == d && forall k :: j < k < |s| ==> s[k].end != d
  }

  /** `s[j]` is the last fact of `s` ending by `d`. */
  predicate IsLastEndingBy(s: seq<Fact>, d: Day, j: int)
  {
    0 <= j < |s| && s[j].end <= d && forall k :: j < k < |s| ==> s[k].end > d
  }

  /** The last of the facts ending on `d` is the one last such fact of the
      series. */
  lemma LastEndingOnUnique(s: seq<Fact>, d: Day)
    ensures LastOrNone(EndingOn(s, d)).None? <==> forall k :: 0 <= k < |s| ==> s[k].end != d
    ensures forall j :: IsLastEndingOn(s, d, j) ==> LastOrNone(EndingOn(s, d)) == Some(s[j])
    ensures LastOrNone(EndingOn(s, d)).Some? ==>
      exists j :: IsLastEndingOn(s, d, j) && LastOrNone(EndingOn(s, d)).value == s[j]
  {
    LastOfFilter(s, EndsOn(d));
    LastEndingOn(s, d);
    var r := LastWhere(s, EndsOn(d));
    forall j | IsLastEndingOn(s, d, j) ensures r == Some(s[j]) {
      var i :| 0 <= i < |s| && r.value == s[i] && s[i].end == d && forall k :: i < k < |s| ==> s[k].end != d;
      assert s[i].end == d && s[j].end == d;
      assert i == j;
    }
    if r.Some? {
      var i :| 0 <= i < |s| && r.value == s[i] && s[i].end == d && forall k :: i < k < |s| ==> s[k].end != d;
      assert IsLastEndingOn(s, d, i);
    }
  }

  /** `x` is the "as of" choice among the facts of `items` passing `p`:
      the last of them ending on `d`, else the last ending by `d`, else the
      last of them. */
  predicate AsOfChoice(items: seq<Fact>, p: Fact -> bool, d: Day, x: Fact)
  {
    exists j :: 0 <= j < |items| && items[j] == x && p(x) &&
      if exists k :: 0 <= k < |items| && p(items[k]) && items[k].end == d then
        x.end == d && forall k :: j < k < |items| && p(items[k]) ==> items[k].end != d
      else if exists k :: 0 <= k < |items| && p(items[k]) && items[k].end <= d then
        x.end <= d && forall k :: j < k < |items| && p(items[k]) ==> items[k].end > d
      else
        forall k :: j < k < |items| ==> !p(items[k])
  }

  /** The test `p(x) && x.end == d`. */
  function PassesOn(p: Fact -> bool, d: Day): Fact -> bool
  {
    (x: Fact) => p(x) && x.end == d
  }

  /** The test `p(x) && x.end <= d`. */
  function PassesBy(p: Fact -> bool, d: Day): Fact -> bool
  {
    (x: Fact) => p(x) && x.end <= d
  }

  /** The "as of" choice over the facts passing `p` is `AsOfChoice`, and
      there is one exactly when some fact passes. */
  lemma LastAsOfFilter(items: seq<Fact>, p: Fact -> bool, d: Day)
    ensures var r := LastAsOf(Filter(items, p), d);
      (r.Some? <==> exists k :: 0 <= k < |items| && p(items[k])) &&
      (r.Some? ==> AsOfChoice(items, p, d, r.value))
  {
    var f := Filter(items, p);
    var r := LastAsOf(f, d);
    LastOfFilter(items, p);
    if exists k :: 0 <= k < |items| && p(items[k]) && items[k].end == d {
      AsOfOn(items, p, d);
      ChoiceOn(items, p, d);
    } else if exists k :: 0 <= k < |items| && p(items[k]) && items[k].end <= d {
      AsOfBy(items, p, d);
      ChoiceBy(items, p, d);
    } else if exists k :: 0 <= k < |items| && p(items[k]) {
      AsOfLast(items, p, d);
      ChoiceLast(items, p, d);
    }
  }

  lemma ChoiceOn(items: seq<Fact>, p: Fact -> bool, d: Day)
    requires LastWhere(items, PassesOn(p, d)).Some?
    ensures AsOfChoice(items, p, d, LastWhere(items, PassesOn(p, d)).value)
  {
    var x := LastWhere(items, PassesOn(p, d)).value;
    var j :| 0 <= j < |items| && items[j] == x && PassesOn(p, d)(items[j]) &&
      forall k :: j < k < |items| ==> !PassesOn(p, d)(items[k]);
    assert 0 <= j < |items| && items[j] == x && p(x) && PassesOn(p, d)(items[j]);
    assert forall k :: j < k < |items| && p(items[k]) ==> items[k].end != d by {
      forall k | j < k < |items| && p(items[k]) ensures items[k].end != d {
        assert !PassesOn(p, d)(items[k]);
      }
    }
  }

  lemma ChoiceBy(items: seq<Fact>, p: Fact -> bool, d: Day)
    requires forall k :: 0 <= k < |items| && p(items[k]) ==> items[k].end != d
    requires LastWhere(items, PassesBy(p, d)).Some?
    ensures AsOfChoice(items, p, d, LastWhere(items, PassesBy(p, d)).value)
  {
    var x := LastWhere(items, PassesBy(p, d)).value;
    var j :| 0 <= j < |items| && items[j] == x && PassesBy(p, d)(items[j]) &&
      forall k :: j < k < |items| ==> !PassesBy(p, d)(items[k]);
    assert 0 <= j < |items| && items[j] == x && p(x) && PassesBy(p, d)(items[j]);
    assert forall k :: j < k < |items| && p(items[k]) ==> items[k].end > d by {
      forall k | j < k < |items| && p(items[k]) ensures items[k].end > d {
        assert !PassesBy(p, d)(items[k]);
      }
    }
  }

  lemma ChoiceLast(items: seq<Fact>, p: Fact -> bool, d: Day)
    requires forall k :: 0 <= k < |items| && p(items[k]) ==> items[k].end > d
    requires LastWhere(items, p).Some?
    ensures AsOfChoice(items, p, d, LastWhere(items, p).value)
  {
    var x := LastWhere(items, p).value;
    var j :| 0 <= j < |items| && items[j] == x && p(items[j]) &&
      forall k :: j < k < |items| ==> !p(items[k]);
  }

  /** With a passing fact ending on `d`, the choice is the last such. */
  lemma AsOfOn(items: seq<Fact>, p: Fact -> bool, d: Day)
    requires exists k :: 0 <= k < |items| && p(items[k]) && items[k].end == d
    ensures LastAsOf(Filter(items, p), d) == LastWhere(items, PassesOn(p, d))
    ensures LastWhere(items, PassesOn(p, d)).Some?
  {
    var f := Filter(items, p);
    FilterFilter(items, p, EndsOn(d), PassesOn(p, d));
    LastOfFilter(items, PassesOn(p, d));
    var k :| 0 <= k < |items| && p(items[k]) && items[k].end == d;
    assert PassesOn(p, d)(items[k]);
    assert |EndingOn(f, d)| > 0;
  }

  /** With none ending on `d` but one ending by it, the choice is the last
      passing fact ending by `d`. */
  lemma AsOfBy(items: seq<Fact>, p: Fact -> bool, d: Day)
    requires forall k :: 0 <= k < |items| && p(items[k]) ==> items[k].end != d
    requires exists k :: 0 <= k < |items| && p(items[k]) && items[k].end <= d
    ensures LastAsOf(Filter(items, p), d) == LastWhere(items, PassesBy(p, d))
    ensures LastWhere(items, PassesBy(p, d)).Some?
  {
    var f := Filter(items, p);
    FilterFilter(items, p, EndsOn(d), PassesOn(p, d));
    LastOfFilter(items, PassesOn(p, d));
    assert forall k :: 0 <= k < |items| ==> !PassesOn(p, d)(items[k]);
    assert |EndingOn(f, d)| == 0;
    FilterFilter(items, p, EndsBy(d), PassesBy(p, d));
    LastOfFilter(items, PassesBy(p, d));
    var k :| 0 <= k < |items| && p(items[k]) && items[k].end <= d;
    assert PassesBy(p, d)(items[k]);
    assert |EndingBy(f, d)| > 0;
  }

  /** With every passing fact after `d`, the choice is the last passing
      fact. */
  lemma AsOfLast(items: seq<Fact>, p: Fact -> bool, d: Day)
    requires forall k :: 0 <= k < |items| && p(items[k]) ==> items[k].end > d
    ensures LastAsOf(Filter(items, p), d) == LastWhere(items, p)
  {
    var f := Filter(items, p);
    FilterFilter(items, p, EndsOn(d), PassesOn(p, d));
    LastOfFilter(items, PassesOn(p, d));
    assert forall k :: 0 <= k < |items| ==> !PassesOn(p, d)(items[k]);
    assert |EndingOn(f, d)| == 0;
    FilterFilter(items, p, EndsBy(d), PassesBy(p, d));
    LastOfFilter(items, PassesBy(p, d));
    assert forall k :: 0 <= k < |items| ==> !PassesBy(p, d)(items[k]);
    assert |EndingBy(f, d)| == 0;
    LastOfFilter(items, p);
  }

  /** In a series sorted by end, the "as of" choice is the last fact with
      its own end, and that end is the latest not after `d` when one is,
      else the latest of all. */
  lemma SortedLastAsOf(t: seq<Fact>, d: Day)
    requires SortedByEnd(t)
    ensures var r := LastAsOf(t, d);
      r.Some? ==> (LastWhere(t, EndsOn(r.value.end)) == r &&
        (forall i :: 0 <= i < |t| && t[i].end <= d ==> t[i].end <= r.value.end) &&
        (r.value.end > d ==> forall i :: 0 <= i < |t| ==> t[i].end <= r.value.end))
  {
    var r := LastAsOf(t, d);
    if r.Some? {
      if exists k :: 0 <= k < |t| && t[k].end == d {
        var j :| 0 <= j < |t| && r == Some(t[j]) && t[j].end == d &&
          forall k :: j < k < |t| ==> t[k].end != d;
        SortedOnAt(t, d, j);
      } else if exists k :: 0 <= k < |t| && t[k].end <= d {
        var j :| 0 <= j < |t| && r == Some(t[j]) && t[j].end <= d &&
          forall k :: j < k < |t| ==> t[k].end > d;
        SortedByAt(t, d, j);
      } else {
        SortedLatestAt(t);
      }
    }
  }

  /** In an end-ordered series, the last fact ending on `d`. */
  lemma SortedOnAt(t: seq<Fact>, d: Day, j: int)
    requires SortedByEnd(t) && 0 <= j < |t| && t[j].end == d
    requires forall k :: j < k < |t| ==> t[k].end != d
    ensures LastWhere(t, EndsOn(t[j].end)) == Some(t[j])
    ensures forall i :: 0 <= i < |t| && t[i].end <= d ==> t[i].end <= t[j].end
  {
    LastWhereAt(t, EndsOn(d), j);
  }

  /** In an end-ordered series, the last fact ending by `d` has the latest
      end of the facts ending by `d`. */
  lemma SortedByAt(t: seq<Fact>, d: Day, j: int)
    requires SortedByEnd(t) && 0 <= j < |t| && t[j].end <= d
    requires forall k :: j < k < |t| ==> t[k].end > d
    ensures LastWhere(t, EndsOn(t[j].end)) == Some(t[j])
    ensures forall i :: 0 <= i < |t| && t[i].end <= d ==> t[i].end <= t[j].end
  {
    LastWhereAt(t, EndsOn(t[j].end), j);
    forall i | 0 <= i < |t| && t[i].end <= d ensures t[i].end <= t[j].end {
      assert i <= j;
    }
  }

  /** In an end-ordered series, the last fact has the latest end. */
  lemma SortedLatestAt(t: seq<Fact>)
    requires SortedByEnd(t) && |t| > 0
    ensures LastWhere(t, EndsOn(t[|t| - 1].end)) == Some(t[|t| - 1])
    ensures forall i :: 0 <= i < |t| ==> t[i].end <= t[|t| - 1].end
  {
    LastWhereAt(t, EndsOn(t[|t| - 1].end), |t| - 1);
  }

  /** The last fact ending on `e` in the sorted facts passing `p` is the
      last passing fact of the series ending on `e`. */
  lemma LastSortedFilter(items: seq<Fact>, p: Fact -> bool, e: Day)
    ensures LastWhere(SortByEnd(Filter(items, p)), EndsOn(e)) == LastWhere(items, PassesOn(p, e))
  {
    var f := Filter(items, p);
    var t := SortByEnd(f);
    LastOfFilter(t, EndsOn(e));
    SortByEndStable(f, e);
    FilterFilter(items, p, EndsOn(e), PassesOn(p, e));
    LastOfFilter(items, PassesOn(p, e));
  }

  /** The last fact passing `p` and ending on `e`, by index. */
  lemma LastPassesOn(items: seq<Fact>, p: Fact -> bool, e: Day)
    requires LastWhere(items, PassesOn(p, e)).Some?
    ensures var x := LastWhere(items, PassesOn(p, e)).value;
      exists j :: (0 <= j < |items| && items[j] == x && p(x) && x.end == e &&
        forall k :: j < k < |items| && p(items[k]) ==> items[k].end != e)
  {
    var x := LastWhere(items, PassesOn(p, e)).value;
    var j :| 0 <= j < |items| && items[j] == x && PassesOn(p, e)(items[j]) &&
      forall k :: j < k < |items| ==> !PassesOn(p, e)(items[k]);
    assert forall k :: j < k < |items| && p(items[k]) ==> items[k].end != e by {
      forall k | j < k < |items| && p(items[k]) ensures items[k].end != e {
        assert !PassesOn(p, e)(items[k]);
      }
    }
  }

  /** The "as of" choice over the passing facts sorted by end is the last
      passing fact with its own end. */
  lemma SortedChoiceLast(items: seq<Fact>, p: Fact -> bool, d: Day)
    ensures var r := LastAsOf(SortByEnd(Filter(items, p)), d);
      r.Some? ==> exists j :: (0 <= j < |items| && items[j] == r.value && p(r.value) &&
        forall k :: j < k < |items| && p(items[k]) ==> items[k].end != r.value.end)
  {
    var t := SortByEnd(Filter(items, p));
    var r := LastAsOf(t, d);
    if r.Some? {
      SortByEndSorted(Filter(items, p));
      SortedLastAsOf(t, d);
      LastSortedFilter(items, p, r.value.end);
      LastPassesOn(items, p, r.value.end);
    }
  }

  /** The "as of" choice over the passing facts sorted by end has the
      latest end not after `d` when a passing fact ends by `d`, else the
      latest end of all. */
  lemma SortedChoiceLatest(items: seq<Fact>, p: Fact -> bool, d: Day)
    ensures var r := LastAsOf(SortByEnd(Filter(items, p)), d);
      r.Some? ==> ((forall k :: 0 <= k < |items| && p(items[k]) && items[k].end <= d ==> items[k].end <= r.value.end) &&
        (r.value.end > d ==> forall k :: 0 <= k < |items| && p(items[k]) ==> items[k].end <= r.value.end))
  {
    var f := Filter(items, p);
    var t := SortByEnd(f);
    var r := LastAsOf(t, d);
    if r.Some? {
      SortByEndSorted(f);
      SortedLastAsOf(t, d);
      forall k | 0 <= k < |items| && p(items[k]) ensures (items[k].end <= d || r.value.end > d) ==> items[k].end <= r.value.end {
        assert items[k] in multiset(f);
        assert items[k] in t;
      }
    }
  }

  /** The last of the passing facts sorted by end is the last passing fact
      in series order with its end. */
  lemma SortedLastIsLast(items: seq<Fact>, p: Fact -> bool)
    requires |Filter(items, p)| > 0
    ensures var x := Last(SortByEnd(Filter(items, p)));
      exists j :: (0 <= j < |items| && items[j] == x && p(x) &&
        forall k :: j < k < |items| && p(items[k]) ==> items[k].end != x.end)
  {
    var t := SortByEnd(Filter(items, p));
    var x := Last(t);
    LastWhereAt(t, EndsOn(x.end), |t| - 1);
    LastSortedFilter(items, p, x.end);
    LastPassesOn(items, p, x.end);
  }

  /** `x?.val`. */
  function ValOf(x: Option<Fact>): (r: Option<real>)
    ensures r.Some? <==> x.Some?
    ensures r.Some? ==> r.value == x.value.val
  {
    if x.Some? then Some(x.value.val) else None
  }

  /** `x?.end`. */
  function EndOf(x: Option<Fact>): (r: Option<Day>)
    ensures r.Some? <==> x.Some?
    ensures r.Some? ==> r.value == x.value.end
  {
    if x.Some? then Some(x.value.end) else None
  }
}
