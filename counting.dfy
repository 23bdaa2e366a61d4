/** An ordered counter: words with their counts in first-seen order, as a
    Python `Counter` or a JavaScript object used as a tally keeps them. */
module Counting {

  /** The counter: words with their counts, in first-seen order. */
  type Counter = seq<(string, nat)>

  /** `counter[w] += 1`: a known word keeps its place with one more, a new
      one goes at the end with 1. */
  function Bump(c: Counter, w: string): (r: Counter)
    ensures |c| <= |r| <= |c| + 1
    ensures forall i :: 0 <= i < |c| ==> r[i].0 == c[i].0 && r[i].1 >= c[i].1
    ensures (exists i :: 0 <= i < |c| && c[i].0 == w) ==> |r| == |c|
    ensures (forall i :: 0 <= i < |c| ==> c[i].0 != w) ==> r == c + [(w, 1)]
  {
    if c == [] then [(w, 1)]
    else if c[0].0 == w then [(w, c[0].1 + 1)] + c[1..]
    else
      var t := c[1..];
      var b := Bump(t, w);
      var r := [c[0]] + b;
      assert forall i :: 1 <= i < |c| ==> c[i] == t[i - 1];
      assert forall i :: 1 <= i < |r| ==> r[i] == b[i - 1];
      assert (exists i :: 0 <= i < |c| && c[i].0 == w) ==> exists i :: 0 <= i < |t| && t[i].0 == w;
      r
  }

  /** The count of `w` (0 when absent). */
  function CountOf(c: Counter, w: string): nat
  {
    if c == [] then 0 else (if c[0].0 == w then c[0].1 else 0) + CountOf(c[1..], w)
  }

  predicate DistinctWords(c: Counter)
  {
    forall i, j :: 0 <= i < j < |c| ==> c[i].0 != c[j].0
  }

  /** Bumping adds one to `w`'s count and leaves every other count alone. */
  lemma {:induction false} BumpCounts(c: Counter, w: string)
    ensures forall v :: CountOf(Bump(c, w), v) == CountOf(c, v) + (if v == w then 1 else 0)
  {
    if c != [] && c[0].0 != w {
      BumpCounts(c[1..], w);
    } else if c != [] {
      assert Bump(c, w)[1..] == c[1..];
    }
  }

  /** Every stored count is positive. */
  predicate PositiveCounts(c: Counter)
  {
    forall i :: 0 <= i < |c| ==> c[i].1 >= 1
  }

  lemma BumpKeeps(c: Counter, w: string)
    requires DistinctWords(c) && PositiveCounts(c)
    ensures DistinctWords(Bump(c, w)) && PositiveCounts(Bump(c, w))
    ensures forall i :: 0 <= i < |Bump(c, w)| ==> Bump(c, w)[i].0 == w || (i < |c| && Bump(c, w)[i].0 == c[i].0)
  {
  }
  /** The total of the counts. */
  function CountTotal(c: Counter): nat
  {
    if c == [] then 0 else c[0].1 + CountTotal(c[1..])
  }

  lemma {:induction false} BumpTotal(c: Counter, w: string)
    ensures CountTotal(Bump(c, w)) == CountTotal(c) + 1
  {
    if c != [] && c[0].0 != w {
      BumpTotal(c[1..], w);
    } else if c != [] {
      assert Bump(c, w)[1..] == c[1..];
    }
  }

  /** The count of a stored word is its stored count. */
  lemma {:induction false} CountAt(c: Counter, k: nat)
    requires DistinctWords(c) && k < |c|
    ensures CountOf(c, c[k].0) == c[k].1
  {
    if k == 0 {
      CountAbsent(c[1..], c[0].0);
    } else {
      assert forall i :: 1 <= i < |c| ==> c[i] == c[1..][i - 1];
      CountAt(c[1..], k - 1);
    }
  }

  lemma {:induction false} CountAbsent(c: Counter, w: string)
    requires forall i :: 0 <= i < |c| ==> c[i].0 != w
    ensures CountOf(c, w) == 0
  {
    if c != [] {
      CountAbsent(c[1..], w);
    }
  }

  lemma {:induction false} DistinctOnce(c: Counter, x: (string, nat))
    requires DistinctWords(c)
    ensures multiset(c)[x] <= 1
  {
    if c != [] {
      var t := c[1..];
      assert c == [c[0]] + t;
      assert forall i, j :: 0 <= i < j < |t| ==> t[i] == c[i + 1] && t[j] == c[j + 1];
      DistinctOnce(t, x);
      if c[0] == x {
        forall i | 0 <= i < |t|
          ensures t[i] != x
        {
          assert c[i + 1].0 != c[0].0;
        }
        assert x !in t;
      }
    }
  }

  lemma {:induction false} CountPositive(c: Counter, w: string)
    requires PositiveCounts(c)
    ensures CountOf(c, w) > 0 <==> exists i :: 0 <= i < |c| && c[i].0 == w
  {
    if c != [] {
      CountPositive(c[1..], w);
      assert forall i :: 1 <= i < |c| ==> c[i] == c[1..][i - 1];
      if exists i :: 0 <= i < |c[1..]| && c[1..][i].0 == w {
        var i :| 0 <= i < |c[1..]| && c[1..][i].0 == w;
        assert c[i + 1].0 == w;
      }
    }
  }

  /** How often `w` occurs in `ws`. */
  function Occurrences(ws: seq<string>, w: string): nat
  {
    if ws == [] then 0 else Occurrences(ws[..|ws| - 1], w) + (if ws[|ws| - 1] == w then 1 else 0)
  }

  /** The counter of a sequence of words, each bumped in turn. */
  function CountAll(ws: seq<string>): Counter
  {
    if ws == [] then [] else Bump(CountAll(ws[..|ws| - 1]), ws[|ws| - 1])
  }

  /** Counting one more word bumps it. */
  lemma CountAllSnoc(ws: seq<string>, w: string)
    ensures CountAll(ws + [w]) == Bump(CountAll(ws), w)
  {
    assert (ws + [w])[..|ws|] == ws;
  }

  /** Counting words gives each distinct word once, with the number of its
      occurrences; the counts add up to the number of words; the first
      entry is the first word; and only words that occur are counted. */
  lemma {:induction false} CountAllFacts(ws: seq<string>)
    ensures DistinctWords(CountAll(ws)) && PositiveCounts(CountAll(ws))
    ensures forall w :: CountOf(CountAll(ws), w) == Occurrences(ws, w)
    ensures CountTotal(CountAll(ws)) == |ws|
    ensures |ws| > 0 ==> |CountAll(ws)| > 0 && CountAll(ws)[0].0 == ws[0]
    ensures forall i :: 0 <= i < |CountAll(ws)| ==> CountAll(ws)[i].0 in ws
  {
    if ws != [] {
      var init := ws[..|ws| - 1];
      var w := ws[|ws| - 1];
      CountAllFacts(init);
      var c := CountAll(init);
      var b := CountAll(ws);
      assert b == Bump(c, w);
      BumpKeeps(c, w);
      BumpCounts(c, w);
      BumpTotal(c, w);
      forall v ensures CountOf(b, v) == Occurrences(ws, v) {
        assert Occurrences(ws, v) == Occurrences(init, v) + (if w == v then 1 else 0);
      }
      forall i | 0 <= i < |b| ensures b[i].0 in ws {
        if b[i].0 != w {
          var k :| 0 <= k < |init| && init[k] == c[i].0;
          assert ws[k] == init[k];
        }
      }
      if init != [] {
        assert ws[0] == init[0];
      }
    }
  }

  /** The position of the first `w` in `ws`; `|ws|` when there is none. */
  function FirstIndex(ws: seq<string>, w: string): (k: nat)
    ensures k <= |ws|
    ensures k < |ws| ==> ws[k] == w
    ensures forall i :: 0 <= i < k ==> ws[i] != w
  {
    if ws == [] then 0
    else if ws[0] == w then 0
    else
      var k := FirstIndex(ws[1..], w);
      assert forall i :: 1 <= i < 1 + k ==> ws[i] == ws[1..][i - 1];
      1 + k
  }

  /** Appending a word moves no first position, and gives a new word the
      last one. */
  lemma FirstIndexAppend(ws: seq<string>, y: string, w: string)
    ensures w in ws ==> FirstIndex(ws + [y], w) == FirstIndex(ws, w) < |ws|
    ensures w !in ws && w == y ==> FirstIndex(ws + [y], w) == |ws|
  {
    var k := FirstIndex(ws + [y], w);
    var k0 := FirstIndex(ws, w);
    assert forall i :: 0 <= i < |ws| ==> (ws + [y])[i] == ws[i];
    assert (ws + [y])[|ws|] == y;
    if w in ws {
      var i :| 0 <= i < |ws| && ws[i] == w;
      assert k0 <= i;
    }
  }

  /** A word occurs exactly when it is in the sequence. */
  lemma {:induction false} OccursIn(ws: seq<string>, w: string)
    ensures Occurrences(ws, w) > 0 <==> w in ws
  {
    if ws != [] {
      var init := ws[..|ws| - 1];
      OccursIn(init, w);
      assert ws == init + [ws[|ws| - 1]];
    }
  }

  /** The counter of a sequence of words lists them in the order of their
      first occurrences. */
  lemma {:induction false} CountAllOrder(ws: seq<string>)
    ensures forall i, j :: 0 <= i < j < |CountAll(ws)| ==>
      FirstIndex(ws, CountAll(ws)[i].0) < FirstIndex(ws, CountAll(ws)[j].0)
  {
    if ws != [] {
      var init := ws[..|ws| - 1];
      var w := ws[|ws| - 1];
      assert ws == init + [w];
      CountAllOrder(init);
      CountAllFacts(init);
      var c := CountAll(init);
      var b := CountAll(ws);
      assert b == Bump(c, w);
      forall i | 0 <= i < |c|
        ensures FirstIndex(ws, c[i].0) == FirstIndex(init, c[i].0) < |init|
      {
        FirstIndexAppend(init, w, c[i].0);
      }
      if forall i :: 0 <= i < |c| ==> c[i].0 != w {
        CountAbsent(c, w);
        OccursIn(init, w);
        FirstIndexAppend(init, w, w);
      }
      BumpKeepsOrder(c, ws, w);
    }
  }

  /** Bumping keeps a counter in the order of `ws` when a new word comes
      after every counted one. */
  lemma BumpKeepsOrder(c: Counter, ws: seq<string>, w: string)
    requires forall i, j :: 0 <= i < j < |c| ==> FirstIndex(ws, c[i].0) < FirstIndex(ws, c[j].0)
    requires (forall i :: 0 <= i < |c| ==> c[i].0 != w) ==>
      forall i :: 0 <= i < |c| ==> FirstIndex(ws, c[i].0) < FirstIndex(ws, w)
    ensures forall i, j :: 0 <= i < j < |Bump(c, w)| ==> FirstIndex(ws, Bump(c, w)[i].0) < FirstIndex(ws, Bump(c, w)[j].0)
  {
    var b := Bump(c, w);
    if forall i :: 0 <= i < |c| ==> c[i].0 != w {
      assert b == c + [(w, 1)];
    } else {
      assert |b| == |c|;
    }
  }

  predicate HasEntry(c: Counter, w: string)
  {
    exists i :: 0 <= i < |c| && c[i].0 == w
  }

  /** A word occurs exactly when it has an entry. */
  lemma CountedIffOccurs(ws: seq<string>, w: string)
    ensures Occurrences(ws, w) > 0 <==> HasEntry(CountAll(ws), w)
  {
    CountAllFacts(ws);
    CountPositive(CountAll(ws), w);
  }
}
