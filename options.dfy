/** Options analytics: open interest aggregated per (bucketed) strike and
    ranked into "walls", the top-N walls, the max-pain strike, and the
    snapshot computed from an already fetched option chain. */
module Options {
  import opened Common

  /** `SimpleOptionRow`. */
  datatype OptionRow = OptionRow(strike: JsNumber, openInterest: Option<JsNumber>, volume: Option<JsNumber>)

  /** `OiWallOptions` after its defaults: a missing bucket size is 0. */
  datatype WallOptions = WallOptions(bucketSize: real, spot: Option<real>, withinPct: Option<real>)

  /** `OiAgg`: one strike (or bucket) with its summed open interest and
      volume. */
  datatype OiAgg = OiAgg(strike: real, oi: real, vol: real)

  /** `Number(x ?? 0) || 0`: a missing or NaN count is 0. */
  function CountOf(x: Option<JsNumber>): (r: real)
    ensures x.Some? && x.value.Finite? ==> r == x.value.value
    ensures x.None? || x.value.NaN? ==> r == 0.0
  {
    if x.Some? && x.value.Finite? then x.value.value else 0.0
  }

  function RowOi(r: OptionRow): real
  {
    CountOf(r.openInterest)
  }

  function RowVol(r: OptionRow): real
  {
    CountOf(r.volume)
  }

  // ----- the band and the bucket -----

  function BandLow(spot: real, pct: real): real
  {
    spot * (1.0 - pct)
  }

  function BandHigh(spot: real, pct: real): real
  {
    spot * (1.0 + pct)
  }

  /** `inRange`: every strike when the spot or the percentage is missing,
      else the closed band `[spot (1 - pct), spot (1 + pct)]`. */
  predicate InRange(k: real, opts: WallOptions)
  {
    opts.spot.None? || opts.withinPct.None? ||
    (BandLow(opts.spot.value, opts.withinPct.value) <= k <= BandHigh(opts.spot.value, opts.withinPct.value))
  }

  /** `bucketKey`: the raw strike for a zero bucket size, else the strike
      rounded to the nearest multiple of the bucket size. */
  function BucketKey(k: real, b: real): real
  {
    if b == 0.0 then k else Round(k / b) as real * b
  }

  /** With a positive bucket size the key is the nearest multiple: within
      half a bucket of the strike, half-way strikes rounding up. */
  lemma BucketKeyNearest(k: real, b: real)
    requires b > 0.0
    ensures k - b / 2.0 < BucketKey(k, b) <= k + b / 2.0
  {
    var n := Round(k / b) as real;
    var q := k / b;
    assert q * b == k;
    assert BucketKey(k, b) == n * b;
    var lo := q + 0.5 - n;
    var hi := n + 1.0 - q - 0.5;
    assert lo >= 0.0 && hi > 0.0;
    ProductSigns(lo, hi, b);
    assert lo * b == k + b / 2.0 - n * b;
    assert hi * b == n * b + b / 2.0 - k;
  }

  lemma ProductSigns(lo: real, hi: real, b: real)
    requires lo >= 0.0 && hi > 0.0 && b > 0.0
    ensures lo * b >= 0.0 && hi * b > 0.0
  {
  }

  /** Bucketing a bucket key again changes nothing. */
  lemma BucketKeyIdempotent(k: real, b: real)
    ensures BucketKey(BucketKey(k, b), b) == BucketKey(k, b)
  {
    if b != 0.0 {
      var n := Round(k / b);
      var y := n as real * b;
      assert BucketKey(k, b) == y;
      assert y / b == n as real;
      assert Round(n as real) == n;
      assert BucketKey(y, b) == Round(y / b) as real * b;
    }
  }

  /** A row the aggregation keeps: a finite strike within the band. */
  predicate Kept(r: OptionRow, opts: WallOptions)
  {
    r.strike.Finite? && InRange(r.strike.value, opts)
  }

  /** The bucket key of a kept row. */
  function KeyOf(r: OptionRow, opts: WallOptions): real
    requires r.strike.Finite?
  {
    BucketKey(r.strike.value, opts.bucketSize)
  }

  // ----- the per-key tally (the `Map` of the source, in insertion order) -----

  /** The position of `key` in the tally, or -1 (`map.get`). */
  function StrikeIndex(m: seq<OiAgg>, key: real): (r: int)
    ensures -1 <= r < |m|
    ensures r >= 0 ==> m[r].strike == key
    ensures r < 0 <==> forall i :: 0 <= i < |m| ==> m[i].strike != key
  {
    if m == [] then -1
    else if m[0].strike == key then 0
    else
      var j := StrikeIndex(m[1..], key);
      assert forall i :: 0 < i < |m| ==> m[i] == m[1..][i - 1];
      if j < 0 then -1 else j + 1
  }

  /** `map.set(key, { oi: prev.oi + oi, vol: prev.vol + vol })`: an existing
      key keeps its place, a new one goes last. */
  function Add(m: seq<OiAgg>, key: real, oi: real, vol: real): seq<OiAgg>
  {
    var i := StrikeIndex(m, key);
    if i >= 0 then m[i := OiAgg(key, m[i].oi + oi, m[i].vol + vol)] else m + [OiAgg(key, oi, vol)]
  }

  /** The map after the loop over the rows. */
  function Tally(rows: seq<OptionRow>, opts: WallOptions): seq<OiAgg>
  {
    if rows == [] then []
    else
      var m := Tally(rows[..|rows| - 1], opts);
      var r := rows[|rows| - 1];
      if Kept(r, opts) then Add(m, KeyOf(r, opts), RowOi(r), RowVol(r)) else m
  }

  /** The sum of `f` over the kept rows whose bucket key is `key`. */
  function KeyTotal(rows: seq<OptionRow>, opts: WallOptions, key: real, f: OptionRow -> real): real
  {
    if rows == [] then 0.0
    else
      var r := rows[|rows| - 1];
      KeyTotal(rows[..|rows| - 1], opts, key, f) + (if Kept(r, opts) && KeyOf(r, opts) == key then f(r) else 0.0)
  }

  /** The sum of `f` over all kept rows. */
  function KeptTotal(rows: seq<OptionRow>, opts: WallOptions, f: OptionRow -> real): real
  {
    if rows == [] then 0.0
    else
      var r := rows[|rows| - 1];
      KeptTotal(rows[..|rows| - 1], opts, f) + (if Kept(r, opts) then f(r) else 0.0)
  }

  /** Some kept row falls in bucket `key`. */
  predicate KeyUsed(rows: seq<OptionRow>, opts: WallOptions, key: real)
  {
    exists j :: 0 <= j < |rows| && Kept(rows[j], opts) && KeyOf(rows[j], opts) == key
  }

  predicate HasStrike(m: seq<OiAgg>, key: real)
  {
    exists i :: 0 <= i < |m| && m[i].strike == key
  }

  /** No strike appears twice. */
  predicate DistinctStrikes(m: seq<OiAgg>)
  {
    forall i, j :: 0 <= i < j < |m| ==> m[i].strike != m[j].strike
  }

  /** The sum of the open interest of the entries. */
  function SumOi(m: seq<OiAgg>): real
  {
    if m == [] then 0.0 else m[0].oi + SumOi(m[1..])
  }

  lemma {:induction false} KeyTotalUnused(rows: seq<OptionRow>, opts: WallOptions, key: real, f: OptionRow -> real)
    requires !KeyUsed(rows, opts, key)
    ensures KeyTotal(rows, opts, key, f) == 0.0
  {
    if rows != [] {
      var init := rows[..|rows| - 1];
      assert forall j :: 0 <= j < |init| ==> init[j] == rows[j];
      KeyTotalUnused(init, opts, key, f);
    }
  }

  /** A kept row extends the keys in use by its own key, a dropped row
      leaves them as they were. */
  lemma KeyUsedStep(rows: seq<OptionRow>, opts: WallOptions, key: real)
    requires rows != []
    ensures var r := rows[|rows| - 1];
      KeyUsed(rows, opts, key) <==>
        (KeyUsed(rows[..|rows| - 1], opts, key) || (Kept(r, opts) && KeyOf(r, opts) == key))
  {
    var init := rows[..|rows| - 1];
    assert forall j :: 0 <= j < |init| ==> init[j] == rows[j];
    if KeyUsed(rows, opts, key) {
      var j :| 0 <= j < |rows| && Kept(rows[j], opts) && KeyOf(rows[j], opts) == key;
      if j < |init| {
        assert Kept(init[j], opts) && KeyOf(init[j], opts) == key;
      }
    }
  }

  /** One distinct entry per bucket key in use. */
  lemma {:induction false} TallyKeys(rows: seq<OptionRow>, opts: WallOptions)
    ensures DistinctStrikes(Tally(rows, opts))
    ensures forall key :: HasStrike(Tally(rows, opts), key) <==> KeyUsed(rows, opts, key)
  {
    if rows != [] {
      var init := rows[..|rows| - 1];
      var r := rows[|rows| - 1];
      TallyKeys(init, opts);
      forall key ensures KeyUsed(rows, opts, key) <==>
          (KeyUsed(init, opts, key) || (Kept(r, opts) && KeyOf(r, opts) == key)) {
        KeyUsedStep(rows, opts, key);
      }
      var m := Tally(init, opts);
      if Kept(r, opts) {
        var key0 := KeyOf(r, opts);
        var i := StrikeIndex(m, key0);
        if i >= 0 {
          var m' := m[i := OiAgg(key0, m[i].oi + RowOi(r), m[i].vol + RowVol(r))];
          assert forall k :: 0 <= k < |m| ==> m'[k].strike == m[k].strike;
          assert forall key :: HasStrike(m', key) <==> HasStrike(m, key);
        } else {
          var m' := m + [OiAgg(key0, RowOi(r), RowVol(r))];
          assert forall k :: 0 <= k < |m| ==> m'[k] == m[k];
          assert m'[|m|].strike == key0;
          forall key | HasStrike(m', key) ensures HasStrike(m, key) || key == key0 {
            var k :| 0 <= k < |m'| && m'[k].strike == key;
            if k < |m| {
              assert m[k].strike == key;
            }
          }
        }
      }
    }
  }

  /** Each entry holds the open interest and the volume summed over the
      kept rows of its bucket (a missing or NaN count adding 0; zero-OI
      buckets stay). */
  lemma {:induction false} TallyTotals(rows: seq<OptionRow>, opts: WallOptions)
    ensures forall i :: 0 <= i < |Tally(rows, opts)| ==>
      Tally(rows, opts)[i].oi == KeyTotal(rows, opts, Tally(rows, opts)[i].strike, RowOi) &&
      Tally(rows, opts)[i].vol == KeyTotal(rows, opts, Tally(rows, opts)[i].strike, RowVol)
  {
    if rows != [] {
      var init := rows[..|rows| - 1];
      var r := rows[|rows| - 1];
      TallyTotals(init, opts);
      TallyKeys(init, opts);
      var m := Tally(init, opts);
      if Kept(r, opts) {
        var key0 := KeyOf(r, opts);
        var i := StrikeIndex(m, key0);
        if i < 0 {
          assert !HasStrike(m, key0);
          KeyTotalUnused(init, opts, key0, RowOi);
          KeyTotalUnused(init, opts, key0, RowVol);
        }
      }
    }
  }

  lemma {:induction false} SumOiAppend(m: seq<OiAgg>, e: OiAgg)
    ensures SumOi(m + [e]) == SumOi(m) + e.oi
  {
    if m != [] {
      assert (m + [e])[1..] == m[1..] + [e];
      SumOiAppend(m[1..], e);
    }
  }

  lemma {:induction false} SumOiUpdate(m: seq<OiAgg>, i: int, e: OiAgg)
    requires 0 <= i < |m|
    ensures SumOi(m[i := e]) == SumOi(m) - m[i].oi + e.oi
  {
    if i > 0 {
      assert m[i := e][1..] == m[1..][i - 1 := e];
      SumOiUpdate(m[1..], i - 1, e);
    }
  }

  /** Aggregating conserves open interest: the entries sum to the total
      over the kept rows. */
  lemma {:induction false} TallyConserves(rows: seq<OptionRow>, opts: WallOptions)
    ensures SumOi(Tally(rows, opts)) == KeptTotal(rows, opts, RowOi)
  {
    if rows != [] {
      var init := rows[..|rows| - 1];
      var r := rows[|rows| - 1];
      TallyConserves(init, opts);
      var m := Tally(init, opts);
      if Kept(r, opts) {
        var key0 := KeyOf(r, opts);
        var i := StrikeIndex(m, key0);
        if i >= 0 {
          SumOiUpdate(m, i, OiAgg(key0, m[i].oi + RowOi(r), m[i].vol + RowVol(r)));
        } else {
          SumOiAppend(m, OiAgg(key0, RowOi(r), RowVol(r)));
        }
      }
    }
  }

  // ----- the ranking -----

  /** The comparator of the sort is negative: `a` has more open interest,
      or as much and a lower strike. */
  predicate Ahead(a: OiAgg, b: OiAgg)
  {
    a.oi > b.oi || (a.oi == b.oi && a.strike < b.strike)
  }

  /** Open interest descending, ties by strike ascending. */
  predicate Ranked(s: seq<OiAgg>)
  {
    forall i, j :: 0 <= i < j < |s| ==> !Ahead(s[j], s[i])
  }

  /** Inserts `x` after every entry it does not rank ahead of. */
  function InsertRanked(x: OiAgg, s: seq<OiAgg>): (r: seq<OiAgg>)
    ensures multiset(r) == multiset(s) + multiset{x}
    ensures |r| == |s| + 1
  {
    if s == [] then [x]
    else if Ahead(x, s[0]) then [x] + s
    else
      assert s == [s[0]] + s[1..];
      [s[0]] + InsertRanked(x, s[1..])
  }

  /** `result.sort(...)`: a stable sort by the comparator. */
  function Rank(s: seq<OiAgg>): (r: seq<OiAgg>)
    ensures multiset(r) == multiset(s)
    ensures |r| == |s|
  {
    if s == [] then []
    else
      assert s == s[..|s| - 1] + [s[|s| - 1]];
      InsertRanked(s[|s| - 1], Rank(s[..|s| - 1]))
  }

  lemma {:induction false} InsertRankedRanked(x: OiAgg, s: seq<OiAgg>)
    requires Ranked(s)
    ensures Ranked(InsertRanked(x, s))
  {
    if s != [] && !Ahead(x, s[0]) {
      InsertRankedRanked(x, s[1..]);
      var t := InsertRanked(x, s[1..]);
      forall k | 0 <= k < |t| ensures !Ahead(t[k], s[0]) {
        assert t[k] in multiset(t);
        if t[k] != x {
          assert t[k] in multiset(s[1..]);
          assert t[k] in s[1..];
        }
      }
    }
  }

  lemma {:induction false} RankRanked(s: seq<OiAgg>)
    ensures Ranked(Rank(s))
  {
    if s != [] {
      RankRanked(s[..|s| - 1]);
      InsertRankedRanked(s[|s| - 1], Rank(s[..|s| - 1]));
    }
  }

  lemma {:induction false} InsertRankedDistinct(x: OiAgg, s: seq<OiAgg>)
    requires DistinctStrikes(s) && !HasStrike(s, x.strike)
    ensures DistinctStrikes(InsertRanked(x, s))
  {
    if s != [] && !Ahead(x, s[0]) {
      assert forall k :: 0 <= k < |s[1..]| ==> s[1..][k] == s[k + 1];
      InsertRankedDistinct(x, s[1..]);
      var t := InsertRanked(x, s[1..]);
      forall k | 0 <= k < |t| ensures t[k].strike != s[0].strike {
        assert t[k] in multiset(t);
        if t[k] != x {
          assert t[k] in multiset(s[1..]);
          assert t[k] in s[1..];
        }
      }
    }
  }

  lemma {:induction false} RankDistinct(s: seq<OiAgg>)
    requires DistinctStrikes(s)
    ensures DistinctStrikes(Rank(s))
  {
    if s != [] {
      var init := s[..|s| - 1];
      var x := s[|s| - 1];
      RankDistinct(init);
      var t := Rank(init);
      forall k | 0 <= k < |t| ensures t[k].strike != x.strike {
        assert t[k] in multiset(t);
        var j :| 0 <= j < |init| && init[j] == t[k];
        assert init[j] == s[j];
      }
      InsertRankedDistinct(x, t);
    }
  }

  lemma {:induction false} InsertRankedSum(x: OiAgg, s: seq<OiAgg>)
    ensures SumOi(InsertRanked(x, s)) == x.oi + SumOi(s)
  {
    if s != [] && !Ahead(x, s[0]) {
      InsertRankedSum(x, s[1..]);
    }
  }

  lemma {:induction false} RankSum(s: seq<OiAgg>)
    ensures SumOi(Rank(s)) == SumOi(s)
  {
    if s != [] {
      var init := s[..|s| - 1];
      var x := s[|s| - 1];
      var ri := Rank(init);
      assert Rank(s) == InsertRanked(x, ri);
      RankSum(init);
      InsertRankedSum(x, ri);
      SumOiAppend(init, x);
      assert s == init + [x];
    }
  }

  /** What `aggregateOiByStrike` returns. */
  function Aggregate(rows: seq<OptionRow>, opts: WallOptions): seq<OiAgg>
  {
    Rank(Tally(rows, opts))
  }

  /** The aggregation has exactly one entry per bucket key of a kept row
      (a finite strike in the band), each holding the open interest and
      volume summed over that bucket's rows; it conserves the total open
      interest of the kept rows and is ranked by open interest descending,
      ties by strike ascending. */
  lemma AggregateProperties(rows: seq<OptionRow>, opts: WallOptions)
    ensures Ranked(Aggregate(rows, opts))
    ensures DistinctStrikes(Aggregate(rows, opts))
    ensures forall key :: HasStrike(Aggregate(rows, opts), key) <==> KeyUsed(rows, opts, key)
    ensures forall i :: 0 <= i < |Aggregate(rows, opts)| ==>
      Aggregate(rows, opts)[i].oi == KeyTotal(rows, opts, Aggregate(rows, opts)[i].strike, RowOi) &&
      Aggregate(rows, opts)[i].vol == KeyTotal(rows, opts, Aggregate(rows, opts)[i].strike, RowVol)
    ensures SumOi(Aggregate(rows, opts)) == KeptTotal(rows, opts, RowOi)
  {
    var m := Tally(rows, opts);
    var a := Rank(m);
    TallyKeys(rows, opts);
    TallyTotals(rows, opts);
    TallyConserves(rows, opts);
    RankRanked(m);
    RankDistinct(m);
    RankSum(m);
    forall i | 0 <= i < |a| ensures a[i] in m {
      assert a[i] in multiset(a);
    }
    forall key ensures HasStrike(a, key) <==> HasStrike(m, key) {
      if HasStrike(a, key) {
        var i :| 0 <= i < |a| && a[i].strike == key;
        assert a[i] in m;
      }
      if HasStrike(m, key) {
        var i :| 0 <= i < |m| && m[i].strike == key;
        assert m[i] in multiset(a);
        assert m[i] in a;
      }
    }
  }

  /** `aggregateOiByStrike(rows, opts)`. */
  method AggregateOiByStrike(rows: seq<OptionRow>, opts: WallOptions) returns (result: seq<OiAgg>)
    ensures result == Aggregate(rows, opts)
  {
    var entries: seq<OiAgg> := [];
    for i := 0 to |rows|
      invariant entries == Tally(rows[..i], opts)
    {
      assert rows[..i + 1][..i] == rows[..i];
      var r := rows[i];
      if r.strike.Finite? && InRange(r.strike.value, opts) {
        var key := BucketKey(r.strike.value, opts.bucketSize);
        var oi := CountOf(r.openInterest);
        var vol := CountOf(r.volume);
        var at := StrikeIndex(entries, key);
        if at >= 0 {
          var prev := entries[at];
          entries := entries[at := OiAgg(key, prev.oi + oi, prev.vol + vol)];
        } else {
          entries := entries + [OiAgg(key, oi, vol)];
        }
      }
    }
    assert rows[..|rows|] == rows;
    var listed: seq<OiAgg> := [];
    for i := 0 to |entries|
      invariant listed == entries[..i]
    {
      assert entries[..i + 1] == entries[..i] + [entries[i]];
      listed := listed + [OiAgg(entries[i].strike, entries[i].oi, entries[i].vol)];
    }
    assert entries[..|entries|] == entries;
    result := Rank(listed);
  }

  /** `pickOiWall`: the top-ranked entry, which holds the most open
      interest, the lowest strike among equals. */
  method PickOiWall(rows: seq<OptionRow>, opts: WallOptions) returns (r: Option<OiAgg>)
    ensures r.None? <==> forall j :: 0 <= j < |rows| ==> !Kept(rows[j], opts)
    ensures r.Some? ==> (r.value in Aggregate(rows, opts) &&
      forall e :: e in Aggregate(rows, opts) ==> e.oi < r.value.oi || (e.oi == r.value.oi && e.strike >= r.value.strike))
  {
    var all := AggregateOiByStrike(rows, opts);
    AggregateProperties(rows, opts);
    if |all| > 0 {
      r := Some(all[0]);
      assert HasStrike(all, all[0].strike);
    } else {
      r := None;
      forall j | 0 <= j < |rows| ensures !Kept(rows[j], opts) {
        if rows[j].strike.Finite? {
          assert !HasStrike(all, KeyOf(rows[j], opts));
          assert !KeyUsed(rows, opts, KeyOf(rows[j], opts));
        }
      }
    }
  }

  /** `pickOiWallTopN`: nothing for `n <= 0`, else the first `n` entries
      of the ranking (all of them when there are fewer). */
  method PickOiWallTopN(rows: seq<OptionRow>, n: int, opts: WallOptions) returns (r: seq<OiAgg>)
    ensures n <= 0 ==> r == []
    ensures n > 0 ==> (|r| == (if n <= |Aggregate(rows, opts)| then n else |Aggregate(rows, opts)|) &&
      r == Aggregate(rows, opts)[..|r|])
    ensures forall i, e :: 0 <= i < |r| && e in Aggregate(rows, opts) && e !in r ==> !Ahead(e, r[i])
  {
    if n <= 0 {
      return [];
    }
    var all := AggregateOiByStrike(rows, opts);
    AggregateProperties(rows, opts);
    r := if n <= |all| then all[..n] else all;
    forall i, e | 0 <= i < |r| && e in all && e !in r ensures !Ahead(e, r[i]) {
      var j :| 0 <= j < |all| && all[j] == e;
      assert r[i] == all[i];
      assert forall idx :: 0 <= idx < |r| ==> r[idx] == all[idx];
      assert j >= |r|;
    }
  }

  // ----- max pain -----

  /** Every strike is a finite number. */
  predicate FiniteStrikes(rows: seq<OptionRow>)
  {
    forall i :: 0 <= i < |rows| ==> rows[i].strike.Finite?
  }

  /** `Math.max(0, d) * oi`. */
  function Intrinsic(d: real, oi: real): real
  {
    Max(0.0, d) * oi
  }

  /** The payout of one contract row at settlement `s`; rows with zero
      open interest are skipped. */
  function ContractPain(s: real, r: OptionRow, isCall: bool): real
    requires r.strike.Finite?
  {
    var oi := RowOi(r);
    if oi == 0.0 then 0.0
    else if isCall then Intrinsic(s - r.strike.value, oi)
    else Intrinsic(r.strike.value - s, oi)
  }

  /** The summed payout of one leg. */
  function LegPain(s: real, leg: seq<OptionRow>, isCall: bool): real
    requires FiniteStrikes(leg)
  {
    if leg == [] then 0.0
    else LegPain(s, leg[..|leg| - 1], isCall) + ContractPain(s, leg[|leg| - 1], isCall)
  }

  /** The total payout of calls and puts at settlement `s`. */
  function Pain(s: real, calls: seq<OptionRow>, puts: seq<OptionRow>): real
    requires FiniteStrikes(calls) && FiniteStrikes(puts)
  {
    LegPain(s, calls, true) + LegPain(s, puts, false)
  }

  /** `strikesSet` after adding the finite strikes of `rows`, in the
      insertion order a `Set` iterates in. */
  function AddStrikes(seen: seq<real>, rows: seq<OptionRow>): seq<real>
  {
    if rows == [] then seen
    else
      var s := AddStrikes(seen, rows[..|rows| - 1]);
      var r := rows[|rows| - 1];
      if r.strike.Finite? && r.strike.value !in s then s + [r.strike.value] else s
  }

  /** A finite strike of some call or put. */
  predicate Observed(calls: seq<OptionRow>, puts: seq<OptionRow>, x: real)
  {
    (exists i :: 0 <= i < |calls| && calls[i].strike == Finite(x)) ||
    (exists i :: 0 <= i < |puts| && puts[i].strike == Finite(x))
  }

  /** No value twice. */
  predicate DistinctReals(s: seq<real>)
  {
    forall i, j :: 0 <= i < j < |s| ==> s[i] != s[j]
  }

  lemma {:induction false} AddStrikesMembers(seen: seq<real>, rows: seq<OptionRow>)
    requires DistinctReals(seen)
    ensures DistinctReals(AddStrikes(seen, rows))
    ensures forall x :: x in AddStrikes(seen, rows) <==>
      (x in seen || exists i :: 0 <= i < |rows| && rows[i].strike == Finite(x))
  {
    if rows != [] {
      var init := rows[..|rows| - 1];
      var r := rows[|rows| - 1];
      AddStrikesMembers(seen, init);
      assert forall i :: 0 <= i < |init| ==> init[i] == rows[i];
      forall x ensures (exists i :: 0 <= i < |rows| && rows[i].strike == Finite(x)) <==>
          ((exists i :: 0 <= i < |init| && init[i].strike == Finite(x)) || r.strike == Finite(x)) {
        if exists i :: 0 <= i < |rows| && rows[i].strike == Finite(x) {
          var i :| 0 <= i < |rows| && rows[i].strike == Finite(x);
          if i < |init| {
            assert init[i].strike == Finite(x);
          }
        }
      }
    }
  }

  /** Strictly increasing. */
  predicate Increasing(s: seq<real>)
  {
    forall i, j :: 0 <= i < j < |s| ==> s[i] < s[j]
  }

  /** Inserts `x` after every value not larger than it. */
  function InsertAscending(x: real, s: seq<real>): (r: seq<real>)
    ensures multiset(r) == multiset(s) + multiset{x}
    ensures |r| == |s| + 1
  {
    if s == [] then [x]
    else if x < s[0] then [x] + s
    else
      assert s == [s[0]] + s[1..];
      [s[0]] + InsertAscending(x, s[1..])
  }

  /** `sort((a, b) => a - b)`. */
  function SortAscending(s: seq<real>): (r: seq<real>)
    ensures multiset(r) == multiset(s)
    ensures |r| == |s|
  {
    if s == [] then []
    else
      assert s == s[..|s| - 1] + [s[|s| - 1]];
      InsertAscending(s[|s| - 1], SortAscending(s[..|s| - 1]))
  }

  lemma {:induction false} InsertAscendingIncreasing(x: real, s: seq<real>)
    requires Increasing(s) && x !in s
    ensures Increasing(InsertAscending(x, s))
  {
    if s != [] && x >= s[0] {
      assert x !in s[1..];
      InsertAscendingIncreasing(x, s[1..]);
      var t := InsertAscending(x, s[1..]);
      forall k | 0 <= k < |t| ensures s[0] < t[k] {
        assert t[k] in multiset(t);
        if t[k] != x {
          assert t[k] in multiset(s[1..]);
          assert t[k] in s[1..];
        }
      }
    }
  }

  /** Sorting distinct values gives a strictly increasing sequence of the
      same values. */
  lemma {:induction false} SortAscendingIncreasing(s: seq<real>)
    requires DistinctReals(s)
    ensures Increasing(SortAscending(s))
    ensures forall x :: x in SortAscending(s) <==> x in s
  {
    if s != [] {
      var init := s[..|s| - 1];
      var x := s[|s| - 1];
      assert DistinctReals(init);
      SortAscendingIncreasing(init);
      var t := SortAscending(init);
      assert forall k :: 0 <= k < |init| ==> init[k] == s[k] && init[k] != x;
      assert x !in multiset(init);
      InsertAscendingIncreasing(x, t);
      forall y ensures y in SortAscending(s) <==> y in s {
        assert y in SortAscending(s) <==> y in multiset(SortAscending(s));
      }
    }
  }

  /** Two strictly increasing sequences with the same values are equal. */
  lemma {:induction false} IncreasingUnique(s: seq<real>, t: seq<real>)
    requires Increasing(s) && Increasing(t)
    requires forall x :: x in s <==> x in t
    ensures s == t
  {
    assert |t| > 0 ==> t[0] in t;
    assert |s| > 0 ==> s[0] in s;
    if s != [] && t != [] {
      assert s[0] in t && t[0] in s;
      assert s[0] == t[0];
      forall x ensures x in s[1..] <==> x in t[1..] {
        assert x in s[1..] <==> x in s && x != s[0];
        assert x in t[1..] <==> x in t && x != t[0];
      }
      IncreasingUnique(s[1..], t[1..]);
      assert s == [s[0]] + s[1..] && t == [t[0]] + t[1..];
    }
  }

  /** The strikes the search scans: the observed strikes, ascending. */
  function ScanStrikes(calls: seq<OptionRow>, puts: seq<OptionRow>): seq<real>
  {
    SortAscending(AddStrikes(AddStrikes([], calls), puts))
  }

  lemma ScanStrikesMembers(calls: seq<OptionRow>, puts: seq<OptionRow>)
    ensures Increasing(ScanStrikes(calls, puts))
    ensures forall x :: x in ScanStrikes(calls, puts) <==> Observed(calls, puts, x)
  {
    var seen := AddStrikes([], calls);
    var all := AddStrikes(seen, puts);
    AddStrikesMembers([], calls);
    AddStrikesMembers(seen, puts);
    SortAscendingIncreasing(all);
    forall x ensures x in ScanStrikes(calls, puts) <==> Observed(calls, puts, x) {
      assert x in ScanStrikes(calls, puts) <==> x in all;
      assert x in all <==> (x in seen || exists i :: 0 <= i < |puts| && puts[i].strike == Finite(x));
      assert x in seen <==> exists i :: 0 <= i < |calls| && calls[i].strike == Finite(x);
    }
  }

  /** The best strike so far and its pain. */
  datatype Best = Best(strike: real, pain: real)

  /** The scan: a strike replaces the best one only with a strictly smaller
      pain. */
  function BestOf(strikes: seq<real>, calls: seq<OptionRow>, puts: seq<OptionRow>): Option<Best>
    requires FiniteStrikes(calls) && FiniteStrikes(puts)
  {
    if strikes == [] then None
    else
      var b := BestOf(strikes[..|strikes| - 1], calls, puts);
      var s := strikes[|strikes| - 1];
      var p := Pain(s, calls, puts);
      if b.None? || p < b.value.pain then Some(Best(s, p)) else b
  }

  /** The scan after one more strike. */
  lemma BestOfPrefix(strikes: seq<real>, i: nat, calls: seq<OptionRow>, puts: seq<OptionRow>)
    requires FiniteStrikes(calls) && FiniteStrikes(puts)
    requires i < |strikes|
    ensures var b := BestOf(strikes[..i], calls, puts);
      var p := Pain(strikes[i], calls, puts);
      BestOf(strikes[..i + 1], calls, puts) == if b.None? || p < b.value.pain then Some(Best(strikes[i], p)) else b
  {
    assert strikes[..i + 1][..i] == strikes[..i];
  }

  /** The scan finds a strike of minimal pain, the first such in scan
      order. */
  lemma {:induction false} BestOfMinimal(strikes: seq<real>, calls: seq<OptionRow>, puts: seq<OptionRow>)
    requires FiniteStrikes(calls) && FiniteStrikes(puts)
    ensures BestOf(strikes, calls, puts).None? <==> strikes == []
    ensures BestOf(strikes, calls, puts).Some? ==>
      BestOf(strikes, calls, puts).value.pain == Pain(BestOf(strikes, calls, puts).value.strike, calls, puts) &&
      exists k :: 0 <= k < |strikes| && strikes[k] == BestOf(strikes, calls, puts).value.strike &&
        (forall i :: 0 <= i < |strikes| ==> Pain(strikes[i], calls, puts) >= BestOf(strikes, calls, puts).value.pain) &&
        (forall i :: 0 <= i < k ==> Pain(strikes[i], calls, puts) > BestOf(strikes, calls, puts).value.pain)
  {
    if strikes != [] {
      var init := strikes[..|strikes| - 1];
      var s := strikes[|strikes| - 1];
      BestOfMinimal(init, calls, puts);
      assert forall i :: 0 <= i < |init| ==> init[i] == strikes[i];
      var b := BestOf(init, calls, puts);
      var p := Pain(s, calls, puts);
      if b.None? || p < b.value.pain {
        assert strikes[|strikes| - 1] == s;
      } else {
        var k :| 0 <= k < |init| && init[k] == b.value.strike &&
          (forall i :: 0 <= i < |init| ==> Pain(init[i], calls, puts) >= b.value.pain) &&
          (forall i :: 0 <= i < k ==> Pain(init[i], calls, puts) > b.value.pain);
        assert strikes[k] == b.value.strike;
      }
    }
  }

  /** What `computeMaxPain` returns. */
  function MaxPainOf(calls: seq<OptionRow>, puts: seq<OptionRow>): Option<real>
    requires FiniteStrikes(calls) && FiniteStrikes(puts)
  {
    var b := BestOf(ScanStrikes(calls, puts), calls, puts);
    if b.Some? then Some(b.value.strike) else None
  }

  /** Max pain is absent exactly when no strike is observed; otherwise it
      is an observed strike whose pain is minimal, and every lower observed
      strike has strictly more pain (ties go to the lowest strike). */
  lemma MaxPainMinimal(calls: seq<OptionRow>, puts: seq<OptionRow>)
    requires FiniteStrikes(calls) && FiniteStrikes(puts)
    ensures MaxPainOf(calls, puts).None? <==> |calls| == 0 && |puts| == 0
    ensures MaxPainOf(calls, puts).Some? ==> Observed(calls, puts, MaxPainOf(calls, puts).value)
    ensures MaxPainOf(calls, puts).Some? ==> forall x :: Observed(calls, puts, x) ==>
      Pain(MaxPainOf(calls, puts).value, calls, puts) <= Pain(x, calls, puts) &&
      (x < MaxPainOf(calls, puts).value ==> Pain(MaxPainOf(calls, puts).value, calls, puts) < Pain(x, calls, puts))
  {
    var st := ScanStrikes(calls, puts);
    ScanStrikesMembers(calls, puts);
    BestOfMinimal(st, calls, puts);
    if |calls| > 0 {
      assert Observed(calls, puts, calls[0].strike.value);
      assert calls[0].strike.value in st;
    }
    if |puts| > 0 {
      assert Observed(calls, puts, puts[0].strike.value);
      assert puts[0].strike.value in st;
    }
    var b := BestOf(st, calls, puts);
    if b.Some? {
      assert b.value.strike in st;
      forall x | Observed(calls, puts, x)
        ensures Pain(b.value.strike, calls, puts) <= Pain(x, calls, puts) &&
          (x < b.value.strike ==> Pain(b.value.strike, calls, puts) < Pain(x, calls, puts))
      {
        assert x in st;
        var i :| 0 <= i < |st| && st[i] == x;
        var k :| 0 <= k < |st| && st[k] == b.value.strike &&
          (forall i :: 0 <= i < |st| ==> Pain(st[i], calls, puts) >= b.value.pain) &&
          (forall i :: 0 <= i < k ==> Pain(st[i], calls, puts) > b.value.pain);
        if x < b.value.strike {
          assert i < k;
        }
      }
    }
  }

  /** With no open interest anywhere, max pain is the lowest observed
      strike. */
  lemma MaxPainNoInterest(calls: seq<OptionRow>, puts: seq<OptionRow>)
    requires FiniteStrikes(calls) && FiniteStrikes(puts)
    requires forall i :: 0 <= i < |calls| ==> RowOi(calls[i]) == 0.0
    requires forall i :: 0 <= i < |puts| ==> RowOi(puts[i]) == 0.0
    ensures MaxPainOf(calls, puts).Some? ==>
      forall x :: Observed(calls, puts, x) ==> MaxPainOf(calls, puts).value <= x
  {
    MaxPainMinimal(calls, puts);
    forall x ensures Pain(x, calls, puts) == 0.0 {
      LegPainNoInterest(x, calls, true);
      LegPainNoInterest(x, puts, false);
    }
  }

  lemma {:induction false} LegPainNoInterest(s: real, leg: seq<OptionRow>, isCall: bool)
    requires FiniteStrikes(leg)
    requires forall i :: 0 <= i < |leg| ==> RowOi(leg[i]) == 0.0
    ensures LegPain(s, leg, isCall) == 0.0
  {
    if leg != [] {
      LegPainNoInterest(s, leg[..|leg| - 1], isCall);
    }
  }

  lemma {:induction false} LegPainAppend(s: real, a: seq<OptionRow>, b: seq<OptionRow>, isCall: bool)
    requires FiniteStrikes(a) && FiniteStrikes(b)
    ensures FiniteStrikes(a + b)
    ensures LegPain(s, a + b, isCall) == LegPain(s, a, isCall) + LegPain(s, b, isCall)
  {
    if b != [] {
      assert (a + b)[..|a + b| - 1] == a + b[..|b| - 1];
      LegPainAppend(s, a, b[..|b| - 1], isCall);
    } else {
      assert a + b == a;
    }
  }

  /** Removing one row takes its own payout off the leg's pain. */
  lemma LegPainRemove(s: real, b: seq<OptionRow>, k: int, isCall: bool)
    requires FiniteStrikes(b) && 0 <= k < |b|
    ensures FiniteStrikes(b[..k] + b[k + 1..])
    ensures LegPain(s, b, isCall) == LegPain(s, b[..k] + b[k + 1..], isCall) + ContractPain(s, b[k], isCall)
  {
    assert b == b[..k] + [b[k]] + b[k + 1..];
    LegPainAppend(s, b[..k], b[k + 1..], isCall);
    LegPainAppend(s, b[..k] + [b[k]], b[k + 1..], isCall);
    LegPainAppend(s, b[..k], [b[k]], isCall);
  }

  lemma MultisetRemoveLast<T>(a: seq<T>, b: seq<T>, k: int)
    requires multiset(a) == multiset(b) && |a| > 0 && 0 <= k < |b| && b[k] == a[|a| - 1]
    ensures multiset(a[..|a| - 1]) == multiset(b[..k] + b[k + 1..])
  {
    assert a == a[..|a| - 1] + [a[|a| - 1]];
    assert b == b[..k] + [b[k]] + b[k + 1..];
    assert multiset(a[..|a| - 1]) == multiset(a) - multiset{b[k]};
    assert multiset(b[..k] + b[k + 1..]) == multiset(b) - multiset{b[k]};
  }

  /** A leg's pain does not depend on the order of its rows. */
  lemma {:induction false} LegPainPermutation(s: real, a: seq<OptionRow>, b: seq<OptionRow>, isCall: bool)
    requires FiniteStrikes(a) && FiniteStrikes(b)
    requires multiset(a) == multiset(b)
    ensures LegPain(s, a, isCall) == LegPain(s, b, isCall)
  {
    if a != [] {
      var x := a[|a| - 1];
      assert x in multiset(b);
      var k :| 0 <= k < |b| && b[k] == x;
      MultisetRemoveLast(a, b, k);
      LegPainRemove(s, b, k, isCall);
      LegPainPermutation(s, a[..|a| - 1], b[..k] + b[k + 1..], isCall);
    } else {
      assert |b| == |multiset(b)| == 0;
    }
  }

  lemma {:induction false} BestOfSamePain(strikes: seq<real>, calls: seq<OptionRow>, puts: seq<OptionRow>,
                                          calls': seq<OptionRow>, puts': seq<OptionRow>)
    requires FiniteStrikes(calls) && FiniteStrikes(puts) && FiniteStrikes(calls') && FiniteStrikes(puts')
    requires forall i :: 0 <= i < |strikes| ==> Pain(strikes[i], calls, puts) == Pain(strikes[i], calls', puts')
    ensures BestOf(strikes, calls, puts) == BestOf(strikes, calls', puts')
  {
    if strikes != [] {
      BestOfSamePain(strikes[..|strikes| - 1], calls, puts, calls', puts');
    }
  }

  /** Max pain does not depend on the order of the calls or of the puts. */
  lemma MaxPainOrderFree(calls: seq<OptionRow>, puts: seq<OptionRow>, calls': seq<OptionRow>, puts': seq<OptionRow>)
    requires FiniteStrikes(calls) && FiniteStrikes(puts) && FiniteStrikes(calls') && FiniteStrikes(puts')
    requires multiset(calls) == multiset(calls') && multiset(puts) == multiset(puts')
    ensures MaxPainOf(calls, puts) == MaxPainOf(calls', puts')
  {
    ScanStrikesMembers(calls, puts);
    ScanStrikesMembers(calls', puts');
    forall x ensures Observed(calls, puts, x) <==> Observed(calls', puts', x) {
      SameMembersObserved(calls, calls', x);
      SameMembersObserved(puts, puts', x);
    }
    IncreasingUnique(ScanStrikes(calls, puts), ScanStrikes(calls', puts'));
    var st := ScanStrikes(calls, puts);
    forall i | 0 <= i < |st| ensures Pain(st[i], calls, puts) == Pain(st[i], calls', puts') {
      LegPainPermutation(st[i], calls, calls', true);
      LegPainPermutation(st[i], puts, puts', false);
    }
    BestOfSamePain(st, calls, puts, calls', puts');
  }

  lemma SameMembersObserved(a: seq<OptionRow>, b: seq<OptionRow>, x: real)
    requires multiset(a) == multiset(b)
    ensures (exists i :: 0 <= i < |a| && a[i].strike == Finite(x)) <==> (exists i :: 0 <= i < |b| && b[i].strike == Finite(x))
  {
    if exists i :: 0 <= i < |a| && a[i].strike == Finite(x) {
      var i :| 0 <= i < |a| && a[i].strike == Finite(x);
      assert a[i] in multiset(b);
      var j :| 0 <= j < |b| && b[j] == a[i];
    }
    if exists i :: 0 <= i < |b| && b[i].strike == Finite(x) {
      var i :| 0 <= i < |b| && b[i].strike == Finite(x);
      assert b[i] in multiset(a);
      var j :| 0 <= j < |a| && a[j] == b[i];
    }
  }

  /** The loops collecting `strikesSet`. */
  method CollectStrikes(calls: seq<OptionRow>, puts: seq<OptionRow>) returns (seen: seq<real>)
    ensures seen == AddStrikes(AddStrikes([], calls), puts)
  {
    seen := [];
    for i := 0 to |calls|
      invariant seen == AddStrikes([], calls[..i])
    {
      assert calls[..i + 1][..i] == calls[..i];
      if calls[i].strike.Finite? && calls[i].strike.value !in seen {
        seen := seen + [calls[i].strike.value];
      }
    }
    assert calls[..|calls|] == calls;
    for i := 0 to |puts|
      invariant seen == AddStrikes(AddStrikes([], calls), puts[..i])
    {
      assert puts[..i + 1][..i] == puts[..i];
      if puts[i].strike.Finite? && puts[i].strike.value !in seen {
        seen := seen + [puts[i].strike.value];
      }
    }
    assert puts[..|puts|] == puts;
  }

  /** The inner loops: the pain at settlement `s`. */
  method PainAt(s: real, calls: seq<OptionRow>, puts: seq<OptionRow>) returns (pain: real)
    requires FiniteStrikes(calls) && FiniteStrikes(puts)
    ensures pain == Pain(s, calls, puts)
  {
    pain := 0.0;
    for j := 0 to |calls|
      invariant pain == LegPain(s, calls[..j], true)
    {
      assert calls[..j + 1][..j] == calls[..j];
      var oi := CountOf(calls[j].openInterest);
      if oi != 0.0 {
        pain := pain + Intrinsic(s - calls[j].strike.value, oi);
      }
    }
    assert calls[..|calls|] == calls;
    for j := 0 to |puts|
      invariant pain == LegPain(s, calls, true) + LegPain(s, puts[..j], false)
    {
      assert puts[..j + 1][..j] == puts[..j];
      var oi := CountOf(puts[j].openInterest);
      if oi != 0.0 {
        pain := pain + Intrinsic(puts[j].strike.value - s, oi);
      }
    }
    assert puts[..|puts|] == puts;
  }

  /** `computeMaxPain(calls, puts)`: every contract's payout at each
      observed strike, scanned in ascending order. */
  method ComputeMaxPain(calls: seq<OptionRow>, puts: seq<OptionRow>) returns (r: Option<real>)
    requires FiniteStrikes(calls) && FiniteStrikes(puts)
    ensures r == MaxPainOf(calls, puts)
  {
    var seen := CollectStrikes(calls, puts);
    var strikes := SortAscending(seen);
    if |strikes| == 0 {
      return None;
    }
    var bestStrike: Option<real> := None;
    var bestPain: Option<real> := None;
    for i := 0 to |strikes|
      invariant bestStrike.Some? == bestPain.Some?
      invariant BestOf(strikes[..i], calls, puts) ==
        (if bestStrike.Some? then Some(Best(bestStrike.value, bestPain.value)) else None)
    {
      BestOfPrefix(strikes, i, calls, puts);
      var s := strikes[i];
      var pain := PainAt(s, calls, puts);
      if bestPain.None? || pain < bestPain.value {
        bestPain := Some(pain);
        bestStrike := Some(s);
      }
    }
    assert strikes[..|strikes|] == strikes;
    r := bestStrike;
  }

  // ----- the snapshot -----

  /** `first.expirationDate`: a date (its ISO text), a text, or anything
      else. */
  datatype Expiration = ExpirationDate(iso: string) | ExpirationText(text: string) | NoExpiration

  /** `{ strike, oi }`. */
  datatype Wall = Wall(strike: real, oi: real)

  datatype OptionsSnapshot = OptionsSnapshot(
    spot: Option<real>,
    expiration: Option<string>,
    callWalls: seq<Wall>,
    putWalls: seq<Wall>,
    maxPain: Option<real>)

  /** `res.map((w) => ({ strike: w.strike, oi: w.oi }))`. */
  function WallsOf(aggs: seq<OiAgg>): (r: seq<Wall>)
    ensures |r| == |aggs|
    ensures forall i :: 0 <= i < |r| ==> r[i] == Wall(aggs[i].strike, aggs[i].oi)
  {
    if aggs == [] then [] else [Wall(aggs[0].strike, aggs[0].oi)] + WallsOf(aggs[1..])
  }

  /** The expiration's date part, `null` when it is neither a date nor a
      text. */
  function ExpirationOf(e: Expiration): (r: Option<string>)
    ensures e.NoExpiration? <==> r.None?
    ensures e.ExpirationDate? ==> r == Some(DatePart(e.iso))
    ensures e.ExpirationText? ==> r == Some(DatePart(e.text))
  {
    match e
    case ExpirationDate(iso) => Some(DatePart(iso))
    case ExpirationText(text) => Some(DatePart(text))
    case NoExpiration => None
  }

  /** The walls' options: $1 buckets within 30% of the spot. */
  function SnapshotOptions(spot: Option<real>): WallOptions
  {
    WallOptions(1.0, spot, Some(0.3))
  }

  /** The part of `buildOptionsSnapshot` after the chain is fetched: no
      snapshot for an empty chain; otherwise the top walls of each leg
      ($1 buckets, within 30% of the spot when there is one) and the max
      pain of the unfiltered legs, which then always exists. */
  method BuildOptionsSnapshot(calls: seq<OptionRow>, puts: seq<OptionRow>, spot: Option<real>,
                              expiration: Expiration, topN: int) returns (r: Option<OptionsSnapshot>)
    requires FiniteStrikes(calls) && FiniteStrikes(puts)
    ensures r.None? <==> |calls| == 0 && |puts| == 0
    ensures r.Some? ==> r.value.spot == spot && r.value.expiration == ExpirationOf(expiration)
    ensures r.Some? ==> (r.value.maxPain == MaxPainOf(calls, puts) && r.value.maxPain.Some? &&
      Observed(calls, puts, r.value.maxPain.value))
    ensures r.Some? && topN <= 0 ==> r.value.callWalls == [] && r.value.putWalls == []
    ensures r.Some? && topN > 0 ==> (
      var ca := Aggregate(calls, SnapshotOptions(spot));
      var pa := Aggregate(puts, SnapshotOptions(spot));
      |r.value.callWalls| == (if topN <= |ca| then topN else |ca|) &&
      |r.value.putWalls| == (if topN <= |pa| then topN else |pa|) &&
      r.value.callWalls == WallsOf(ca[..|r.value.callWalls|]) &&
      r.value.putWalls == WallsOf(pa[..|r.value.putWalls|]))
  {
    if |calls| == 0 && |puts| == 0 {
      return None;
    }
    var opts := SnapshotOptions(spot);
    var callRes := PickOiWallTopN(calls, topN, opts);
    var putRes := PickOiWallTopN(puts, topN, opts);
    var maxPain := ComputeMaxPain(calls, puts);
    MaxPainMinimal(calls, puts);
    r := Some(OptionsSnapshot(spot, ExpirationOf(expiration), WallsOf(callRes), WallsOf(putRes), maxPain));
  }
}
