/** `normalizeItems` (client/src/features/stock/utils/stock-past-info.ts):
    facts sharing an end date are collapsed to the one filed last, and the
    survivors are returned in end-date order. */
module Normalize {
  import opened Common
  import opened Facts

  /** `curFiled >= prevFiled`, with a missing filing date as -Infinity. */
  predicate FiledAtLeast(cur: Fact, prev: Fact)
  {
    prev.filed.None? || (cur.filed.Some? && cur.filed.value >= prev.filed.value)
  }

  lemma FiledAtLeastTotal(a: Fact, b: Fact)
    ensures FiledAtLeast(a, b) || FiledAtLeast(b, a)
  {
  }

  /** Index of the entry holding end date `e`, if any. */
  function IndexOfEnd(acc: seq<Fact>, e: Day): (r: Option<nat>)
    ensures r.Some? ==> r.value < |acc| && acc[r.value].end == e
    ensures r.None? ==> forall k :: 0 <= k < |acc| ==> acc[k].end != e
    ensures r.Some? ==> forall k :: 0 <= k < r.value ==> acc[k].end != e
  {
    if acc == [] then None
    else if acc[0].end == e then Some(0)
    else
      match IndexOfEnd(acc[1..], e)
      case None => None
      case Some(i) => Some(i + 1)
  }

  /** One step of the `byEnd` Map: a new end date is appended (insertion
      order); an existing one is overwritten in place when the new fact's
      filing date is not earlier. */
  function Upsert(acc: seq<Fact>, it: Fact): seq<Fact>
  {
    match IndexOfEnd(acc, it.end)
    case None => acc + [it]
    case Some(i) => if FiledAtLeast(it, acc[i]) then acc[i := it] else acc
  }

  /** The Map's values, in insertion order, after the whole loop. */
  function ByEnd(items: seq<Fact>): seq<Fact>
  {
    if items == [] then []
    else Upsert(ByEnd(items[..|items| - 1]), items[|items| - 1])
  }

  /** `normalizeItems(items)`. */
  function Normalized(items: seq<Fact>): seq<Fact>
  {
    SortByEnd(ByEnd(items))
  }

  /** Fact `j` survives: it is filed no earlier than every fact before it
      with the same end, and strictly later than every fact after it. */
  predicate WinsAt(items: seq<Fact>, j: int)
  {
    0 <= j < |items| &&
    forall k :: 0 <= k < |items| && items[k].end == items[j].end ==>
      (k < j ==> FiledAtLeast(items[j], items[k])) &&
      (k > j ==> !FiledAtLeast(items[k], items[j]))
  }

  /** Some entry of `acc` holds end date `e`. */
  ghost predicate HasEnd(acc: seq<Fact>, e: Day)
  {
    exists a :: 0 <= a < |acc| && acc[a].end == e
  }

  /** `f` is a surviving fact of `items`. */
  ghost predicate IsWinner(items: seq<Fact>, f: Fact)
  {
    exists j :: WinsAt(items, j) && items[j] == f
  }

  predicate DistinctEnds(acc: seq<Fact>)
  {
    forall a, b :: 0 <= a < b < |acc| ==> acc[a].end != acc[b].end
  }

  /** The invariant of the `byEnd` Map: one entry per end date seen so far,
      each holding that end date's surviving fact. */
  ghost predicate MapInvariant(items: seq<Fact>, acc: seq<Fact>)
  {
    DistinctEnds(acc) &&
    (forall k :: 0 <= k < |items| ==> HasEnd(acc, items[k].end)) &&
    (forall a :: 0 <= a < |acc| ==> IsWinner(items, acc[a]))
  }

  /** An old survivor still survives when the new fact does not beat it. */
  lemma WinsAtExtend(items: seq<Fact>, it: Fact, j: int)
    requires WinsAt(items, j)
    requires it.end != items[j].end || !FiledAtLeast(it, items[j])
    ensures WinsAt(items + [it], j)
  {
    var items' := items + [it];
    forall k | 0 <= k < |items'| && items'[k].end == items'[j].end
      ensures (k < j ==> FiledAtLeast(items'[j], items'[k])) &&
              (k > j ==> !FiledAtLeast(items'[k], items'[j]))
    {
      if k < |items| {
        assert items'[k] == items[k];
      }
    }
  }

  lemma WinnerExtend(items: seq<Fact>, it: Fact, f: Fact)
    requires IsWinner(items, f)
    requires it.end != f.end || !FiledAtLeast(it, f)
    ensures IsWinner(items + [it], f)
  {
    var j :| WinsAt(items, j) && items[j] == f;
    WinsAtExtend(items, it, j);
    assert (items + [it])[j] == f;
  }

  /** The new fact survives when it beats everything before it. */
  lemma NewWinner(items: seq<Fact>, it: Fact)
    requires forall k :: 0 <= k < |items| && items[k].end == it.end ==> FiledAtLeast(it, items[k])
    ensures IsWinner(items + [it], it)
  {
    var items' := items + [it];
    var n := |items|;
    forall k | 0 <= k < |items'| && items'[k].end == items'[n].end
      ensures k < n ==> FiledAtLeast(items'[n], items'[k])
    {
      if k < n {
        assert items'[k] == items[k];
      }
    }
    assert WinsAt(items', n);
  }

  lemma HasEndExtend(acc: seq<Fact>, acc': seq<Fact>, e: Day)
    requires HasEnd(acc, e)
    requires |acc| <= |acc'|
    requires forall a :: 0 <= a < |acc| ==> acc'[a].end == acc[a].end
    ensures HasEnd(acc', e)
  {
    var a :| 0 <= a < |acc| && acc[a].end == e;
    assert acc'[a].end == e;
  }

  lemma {:induction false} UpsertNew(items: seq<Fact>, acc: seq<Fact>, it: Fact)
    requires MapInvariant(items, acc)
    requires forall a :: 0 <= a < |acc| ==> acc[a].end != it.end
    ensures MapInvariant(items + [it], acc + [it])
  {
    var items' := items + [it];
    var acc' := acc + [it];
    forall k | 0 <= k < |items| ensures items[k].end != it.end {
      var a :| 0 <= a < |acc| && acc[a].end == items[k].end;
    }
    NewWinner(items, it);
    forall a | 0 <= a < |acc'| ensures IsWinner(items', acc'[a]) {
      if a < |acc| {
        var j :| WinsAt(items, j) && items[j] == acc[a];
        WinnerExtend(items, it, acc[a]);
      }
    }
    forall k | 0 <= k < |items'| ensures HasEnd(acc', items'[k].end) {
      if k < |items| {
        assert items'[k] == items[k];
        HasEndExtend(acc, acc', items[k].end);
      } else {
        assert acc'[|acc|].end == it.end;
      }
    }
  }

  lemma {:induction false} UpsertReplace(items: seq<Fact>, acc: seq<Fact>, it: Fact, i: nat)
    requires MapInvariant(items, acc)
    requires i < |acc| && acc[i].end == it.end && FiledAtLeast(it, acc[i])
    ensures MapInvariant(items + [it], acc[i := it])
  {
    var items' := items + [it];
    var acc' := acc[i := it];
    var j0 :| WinsAt(items, j0) && items[j0] == acc[i];
    forall k | 0 <= k < |items| && items[k].end == it.end
      ensures FiledAtLeast(it, items[k])
    {
      if k < j0 {
        assert FiledAtLeast(items[j0], items[k]);
      } else if k > j0 {
        assert !FiledAtLeast(items[k], items[j0]);
      }
    }
    NewWinner(items, it);
    forall a | 0 <= a < |acc'| ensures IsWinner(items', acc'[a]) {
      if a != i {
        assert acc[a].end != acc[i].end;
        WinnerExtend(items, it, acc[a]);
      }
    }
    forall k | 0 <= k < |items'| ensures HasEnd(acc', items'[k].end) {
      if k < |items| {
        assert items'[k] == items[k];
        HasEndExtend(acc, acc', items[k].end);
      } else {
        assert acc'[i].end == it.end;
      }
    }
  }

  lemma {:induction false} UpsertKeep(items: seq<Fact>, acc: seq<Fact>, it: Fact, i: nat)
    requires MapInvariant(items, acc)
    requires i < |acc| && acc[i].end == it.end && !FiledAtLeast(it, acc[i])
    ensures MapInvariant(items + [it], acc)
  {
    var items' := items + [it];
    forall a | 0 <= a < |acc| ensures IsWinner(items', acc[a]) {
      if a != i {
        assert acc[a].end != acc[i].end;
      }
      WinnerExtend(items, it, acc[a]);
    }
    forall k | 0 <= k < |items'| ensures HasEnd(acc, items'[k].end) {
      if k < |items| {
        assert items'[k] == items[k];
      } else {
        assert acc[i].end == it.end;
      }
    }
  }

  lemma UpsertKeepsInvariant(items: seq<Fact>, acc: seq<Fact>, it: Fact)
    requires MapInvariant(items, acc)
    ensures MapInvariant(items + [it], Upsert(acc, it))
  {
    match IndexOfEnd(acc, it.end)
    case None => UpsertNew(items, acc, it);
    case Some(i) =>
      if FiledAtLeast(it, acc[i]) {
        UpsertReplace(items, acc, it, i);
      } else {
        UpsertKeep(items, acc, it, i);
      }
  }

  lemma {:induction false} ByEndInvariant(items: seq<Fact>)
    ensures MapInvariant(items, ByEnd(items))
  {
    if items != [] {
      var p := items[..|items| - 1];
      ByEndInvariant(p);
      UpsertKeepsInvariant(p, ByEnd(p), items[|items| - 1]);
      assert p + [items[|items| - 1]] == items;
    }
  }

  /** At most one fact per end date can survive. */
  lemma WinnerUnique(items: seq<Fact>, j1: int, j2: int)
    requires WinsAt(items, j1) && WinsAt(items, j2)
    requires items[j1].end == items[j2].end
    ensures j1 == j2
  {
  }

  /** Membership is preserved by the sort. */
  lemma SortedMembers(acc: seq<Fact>, r: seq<Fact>, f: Fact)
    requires multiset(r) == multiset(acc)
    ensures f in r <==> f in acc
  {
    assert f in r <==> f in multiset(r);
    assert f in acc <==> f in multiset(acc);
  }

  /** What `normalizeItems` keeps: one fact per end date of the input,
      strictly increasing by end date, each of them the input fact that
      wins for its end date (see `WinsAt`) whatever its start, fp or form.
      Together with `WinnerUnique` this fixes the output completely. */
  lemma {:induction false} NormalizedCharacterization(items: seq<Fact>)
    ensures StrictlySortedByEnd(Normalized(items))
    ensures forall k :: 0 <= k < |items| ==> HasEnd(Normalized(items), items[k].end)
    ensures forall a :: 0 <= a < |Normalized(items)| ==> IsWinner(items, Normalized(items)[a])
    ensures |Normalized(items)| == 0 <==> |items| == 0
  {
    ByEndInvariant(items);
    var acc := ByEnd(items);
    var r := Normalized(items);
    SortByEndStrict(acc);
    forall k | 0 <= k < |items| ensures HasEnd(r, items[k].end) {
      var b :| 0 <= b < |acc| && acc[b].end == items[k].end;
      SortedMembers(acc, r, acc[b]);
      var a :| 0 <= a < |r| && r[a] == acc[b];
    }
    forall a | 0 <= a < |r| ensures IsWinner(items, r[a]) {
      SortedMembers(acc, r, r[a]);
      var b :| 0 <= b < |acc| && acc[b] == r[a];
    }
    if |items| > 0 {
      assert HasEnd(r, items[0].end);
    }
  }

  /** Every end date of the input has exactly one survivor. */
  lemma WinnerExists(items: seq<Fact>, k: int)
    requires 0 <= k < |items|
    ensures exists j :: WinsAt(items, j) && items[j].end == items[k].end
  {
    NormalizedCharacterization(items);
    var r := Normalized(items);
    var a :| 0 <= a < |r| && r[a].end == items[k].end;
    var j :| WinsAt(items, j) && items[j] == r[a];
  }

  /** `normalizeItems` as written: a loop filling the `byEnd` Map, kept as
      a sequence in insertion order, followed by the sort. */
  method NormalizeItems(items: seq<Fact>) returns (r: seq<Fact>)
    ensures r == Normalized(items)
    ensures StrictlySortedByEnd(r)
  {
    var byEnd: seq<Fact> := [];
    var n := 0;
    while n < |items|
      invariant 0 <= n <= |items|
      invariant byEnd == ByEnd(items[..n])
    {
      var it := items[n];
      var prev := IndexOfEnd(byEnd, it.end);
      if prev.None? {
        byEnd := byEnd + [it];
      } else if FiledAtLeast(it, byEnd[prev.value]) {
        byEnd := byEnd[prev.value := it];
      }
      assert items[..n + 1][..n] == items[..n];
      n := n + 1;
    }
    assert items[..n] == items;
    r := SortByEnd(byEnd);
    NormalizedCharacterization(items);
  }
}
