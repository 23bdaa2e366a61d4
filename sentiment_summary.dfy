/** The overall-sentiment aggregation shared by the sentiment routes
    (`determineOverallSentiment` in client/src/app/api/analyze/route.ts,
    client/src/app/api/sentiment/route.ts and
    frontend/src/app/api/sentiment/route.ts): the label tally, its
    percentages, the mean score and the two ways of picking the dominant
    label. */
module SentimentSummary {
  import opened Common
  import opened Counting

  /** One entry of `sentiment_distribution`. */
  datatype Share = Share(sentiment: string, percentage: real, count: nat)

  /** `(count / totalCount) * 100` for each counted label, in tally order. */
  function Shares(c: Counter, total: nat): (r: seq<Share>)
    requires total > 0
    ensures |r| == |c|
    ensures forall i :: 0 <= i < |c| ==>
      r[i].sentiment == c[i].0 && r[i].count == c[i].1 && r[i].percentage == c[i].1 as real / total as real * 100.0
  {
    if c == [] then []
    else
      var rest := Shares(c[1..], total);
      assert forall i :: 1 <= i < |c| ==> c[i] == c[1..][i - 1];
      [Share(c[0].0, c[0].1 as real / total as real * 100.0, c[0].1)] + rest
  }

  function PercentSum(s: seq<Share>): real
  {
    if s == [] then 0.0 else s[0].percentage + PercentSum(s[1..])
  }

  lemma {:induction false} SharesPercentSum(c: Counter, total: nat)
    requires total > 0
    ensures PercentSum(Shares(c, total)) == CountTotal(c) as real / total as real * 100.0
  {
    if c != [] {
      SharesPercentSum(c[1..], total);
      var k := 100.0 / total as real;
      assert c[0].1 as real / total as real * 100.0 == c[0].1 as real * k;
      assert CountTotal(c[1..]) as real / total as real * 100.0 == CountTotal(c[1..]) as real * k;
      assert CountTotal(c) as real / total as real * 100.0 == CountTotal(c) as real * k;
    }
  }

  /** The distribution of a non-empty list of labels. */
  function Distribution(labels: seq<string>): seq<Share>
    requires |labels| > 0
  {
    Shares(CountAll(labels), |labels|)
  }

  /** The distribution has one entry per distinct label, in order of first
      occurrence starting with the first label, and each entry counts that
      label's occurrences, which are positive. */
  lemma DistributionCounts(labels: seq<string>)
    requires |labels| > 0
    ensures var d := Distribution(labels);
      |d| > 0 && d[0].sentiment == labels[0] &&
      (forall i :: 0 <= i < |d| ==> d[i].count == Occurrences(labels, d[i].sentiment) && d[i].count > 0) &&
      (forall i, j :: 0 <= i < j < |d| ==> d[i].sentiment != d[j].sentiment)
  {
    CountAllFacts(labels);
    EntriesCountOccurrences(labels);
  }

  /** Every label has an entry. */
  lemma DistributionCovers(labels: seq<string>)
    requires |labels| > 0
    ensures forall k :: 0 <= k < |labels| ==>
      exists i :: 0 <= i < |Distribution(labels)| && Distribution(labels)[i].sentiment == labels[k]
  {
    EveryLabelCounted(labels);
    var c := CountAll(labels);
    var d := Distribution(labels);
    forall k | 0 <= k < |labels|
      ensures exists i :: 0 <= i < |d| && d[i].sentiment == labels[k]
    {
      assert HasEntry(c, labels[k]);
      var i :| 0 <= i < |c| && c[i].0 == labels[k];
      assert d[i].sentiment == labels[k];
    }
  }

  /** The percentages add up to 100. */
  lemma DistributionSum(labels: seq<string>)
    requires |labels| > 0
    ensures PercentSum(Distribution(labels)) == 100.0
  {
    var c := CountAll(labels);
    BumpTotalAll(labels);
    SharesPercentSum(c, |labels|);
    WholeIsHundred(CountTotal(c) as real, |labels| as real);
  }

  lemma WholeIsHundred(a: real, n: real)
    requires n > 0.0 && a == n
    ensures a / n * 100.0 == 100.0
  {
  }

  lemma {:induction false} BumpTotalAll(ws: seq<string>)
    ensures CountTotal(CountAll(ws)) == |ws|
  {
    if ws != [] {
      BumpTotalAll(ws[..|ws| - 1]);
      BumpTotal(CountAll(ws[..|ws| - 1]), ws[|ws| - 1]);
    }
  }

  lemma EntriesCountOccurrences(labels: seq<string>)
    ensures var c := CountAll(labels);
      forall i :: 0 <= i < |c| ==> c[i].1 == Occurrences(labels, c[i].0)
  {
    var c := CountAll(labels);
    CountAllFacts(labels);
    forall i | 0 <= i < |c|
      ensures c[i].1 == Occurrences(labels, c[i].0)
    {
      CountAt(c, i);
    }
  }

  lemma EveryLabelCounted(labels: seq<string>)
    ensures forall k :: 0 <= k < |labels| ==> HasEntry(CountAll(labels), labels[k])
  {
    forall k | 0 <= k < |labels|
      ensures HasEntry(CountAll(labels), labels[k])
    {
      OccursAt(labels, k);
      CountedIffOccurs(labels, labels[k]);
    }
  }

  lemma {:induction false} OccursAt(ws: seq<string>, k: nat)
    requires k < |ws|
    ensures Occurrences(ws, ws[k]) > 0
  {
    if k < |ws| - 1 {
      OccursAt(ws[..|ws| - 1], k);
    }
  }

  /** The `acc`-mutating reduce that tallies the labels. */
  method CountLabels(labels: seq<string>) returns (acc: Counter)
    ensures acc == CountAll(labels)
  {
    acc := [];
    for i := 0 to |labels|
      invariant acc == CountAll(labels[..i])
    {
      assert labels[..i + 1][..i] == labels[..i];
      acc := Bump(acc, labels[i]);
    }
    assert labels[..|labels|] == labels;
  }

  /** `reduce((sum, r) => sum + score, 0) / totalCount`. */
  function Mean(xs: seq<real>): real
    requires |xs| > 0
  {
    Sum(xs) / |xs| as real
  }

  lemma {:induction false} SumBounds(xs: seq<real>, lo: real, hi: real)
    requires forall i :: 0 <= i < |xs| ==> lo <= xs[i] <= hi
    ensures lo * |xs| as real <= Sum(xs) <= hi * |xs| as real
  {
    if xs != [] {
      SumBounds(xs[..|xs| - 1], lo, hi);
    }
  }

  /** The mean lies within any bounds every score respects. */
  lemma MeanBounds(xs: seq<real>, lo: real, hi: real)
    requires |xs| > 0
    requires forall i :: 0 <= i < |xs| ==> lo <= xs[i] <= hi
    ensures lo <= Mean(xs) <= hi
  {
    SumBounds(xs, lo, hi);
    var n := |xs| as real;
    assert Mean(xs) * n == Sum(xs);
  }

  // ----- the dominant label -----

  /** `parseFloat(share.percentage)`: the percentage as the reducers read
      it back from its `toFixed(2)` text. */
  function Shown(s: Share): real
  {
    Fixed(s.percentage, 2)
  }

  /** The reducer of the two client routes: a larger shown percentage
      replaces the accumulator's percentage only, keeping its label and
      count. */
  function KeepFirstLabel(max: Share, rest: seq<Share>): Share
    decreases |rest|
  {
    if rest == [] then max
    else KeepFirstLabel(if Shown(rest[0]) > Shown(max) then Share(max.sentiment, rest[0].percentage, max.count) else max,
                        rest[1..])
  }

  /** That reducer never changes the label: the dominant label it reports
      is the first entry's, whatever the percentages. */
  lemma {:induction false} KeepFirstLabelKeeps(max: Share, rest: seq<Share>)
    ensures KeepFirstLabel(max, rest).sentiment == max.sentiment
    ensures KeepFirstLabel(max, rest).count == max.count
    decreases |rest|
  {
    if rest != [] {
      var next := if Shown(rest[0]) > Shown(max) then Share(max.sentiment, rest[0].percentage, max.count) else max;
      KeepFirstLabelKeeps(next, rest[1..]);
    }
  }

  /** The reducer keeping the whole entry with the larger shown
      percentage: scanning from `i`, with `best` the first greatest entry
      before `i`. */
  function FirstMaxFrom(s: seq<Share>, best: nat, i: nat): (r: nat)
    requires best < i <= |s|
    requires forall j :: 0 <= j < best ==> Shown(s[j]) < Shown(s[best])
    requires forall j :: 0 <= j < i ==> Shown(s[j]) <= Shown(s[best])
    ensures r < |s|
    ensures forall j :: 0 <= j < |s| ==> Shown(s[j]) <= Shown(s[r])
    ensures forall j :: 0 <= j < r ==> Shown(s[j]) < Shown(s[r])
    decreases |s| - i
  {
    if i == |s| then best
    else if Shown(s[i]) > Shown(s[best]) then FirstMaxFrom(s, i, i + 1)
    else FirstMaxFrom(s, best, i + 1)
  }

  /** The index of the first entry with the greatest shown percentage. */
  function FirstMax(s: seq<Share>): (r: nat)
    requires |s| > 0
    ensures r < |s|
    ensures forall j :: 0 <= j < |s| ==> Shown(s[j]) <= Shown(s[r])
    ensures forall j :: 0 <= j < r ==> Shown(s[j]) < Shown(s[r])
  {
    FirstMaxFrom(s, 0, 1)
  }

  /** `d[m]` is the first entry of greatest shown percentage. */
  predicate FirstGreatestShown(d: seq<Share>, m: int)
  {
    0 <= m < |d| &&
    (forall j :: 0 <= j < |d| ==> Shown(d[j]) <= Shown(d[m])) &&
    (forall j :: 0 <= j < m ==> Shown(d[j]) < Shown(d[m]))
  }

  /** `d[m]` is the first entry of greatest count. */
  predicate FirstGreatestCount(d: seq<Share>, m: int)
  {
    0 <= m < |d| &&
    (forall j :: 0 <= j < |d| ==> d[j].count <= d[m].count) &&
    (forall j :: 0 <= j < m ==> d[j].count < d[m].count)
  }

  /** In a distribution of at most 10000 labels, where one more occurrence
      moves the percentage by at least 0.01, the first greatest shown
      percentage is also the first greatest count. */
  lemma FirstMaxCounts(labels: seq<string>)
    requires 0 < |labels| <= 10000
    ensures var d := Distribution(labels);
      var m := FirstMax(d);
      (forall j :: 0 <= j < |d| ==> d[j].count <= d[m].count) &&
      (forall j :: 0 <= j < m ==> d[j].count < d[m].count)
  {
    var d := Distribution(labels);
    var m := FirstMax(d);
    var n := |labels|;
    forall j | 0 <= j < |d|
      ensures d[j].count <= d[m].count
      ensures j < m ==> d[j].count < d[m].count
    {
      assert IsShareOf(d[j], n) && IsShareOf(d[m], n);
      assert Shown(d[j]) <= Shown(d[m]);
      assert j < m ==> Shown(d[j]) < Shown(d[m]);
      ShareOrder(d[j], d[m], n);
    }
  }

  /** `x` holds the percentage of its count out of `n`. */
  predicate IsShareOf(x: Share, n: nat)
  {
    n > 0 && x.percentage == x.count as real / n as real * 100.0
  }

  /** Shown percentages of two shares out of at most 10000 compare as their
      counts do. */
  lemma ShareOrder(x: Share, y: Share, n: nat)
    requires n <= 10000 && IsShareOf(x, n) && IsShareOf(y, n)
    ensures Shown(x) <= Shown(y) ==> x.count <= y.count
    ensures Shown(x) < Shown(y) ==> x.count < y.count
  {
    ShownOrder(x.count, y.count, n);
  }

  /** Shown percentages of counts out of at most 10000 compare as the
      counts do. */
  lemma ShownOrder(a: nat, b: nat, n: nat)
    requires 0 < n <= 10000
    ensures Fixed(a as real / n as real * 100.0, 2) <= Fixed(b as real / n as real * 100.0, 2) ==> a <= b
    ensures Fixed(a as real / n as real * 100.0, 2) < Fixed(b as real / n as real * 100.0, 2) ==> a < b
  {
    var t := n as real;
    var pa, pb := a as real / t * 100.0, b as real / t * 100.0;
    PercentOrder(a, b, t);
    if a > b {
      PercentStep(b, a, n);
      FixedSeparates(pb, pa, 2);
    }
    if a >= b {
      FixedMonotone(pb, pa, 2);
    }
  }

  /** One more occurrence out of at most 10000 adds at least 0.01 percent. */
  lemma PercentStep(a: nat, b: nat, n: nat)
    requires 0 < n <= 10000 && a < b
    ensures b as real / n as real * 100.0 - a as real / n as real * 100.0 >= 1.0 / Pow10(2) as real
  {
    var t := n as real;
    assert Pow10(2) == 100;
    assert b as real / t * 100.0 - a as real / t * 100.0 == (b - a) as real * 100.0 / t;
    DivLe(100.0, (b - a) as real * 100.0, t);
    DivShrinks(100.0, t, 10000.0);
  }

  /** Dividing by a larger number gives less. */
  lemma DivShrinks(c: real, t: real, u: real)
    requires c >= 0.0 && 0.0 < t <= u
    ensures c / u <= c / t
  {
    assert c / t * t == c;
    assert c / u * u == c;
    MulLe(c / u * t, c / u * u, 1.0);
    assert c / u * t <= c;
    DivLe(c / u * t, c, t);
    assert c / u * t / t == c / u;
  }

  lemma PercentOrder(a: nat, b: nat, t: real)
    requires t > 0.0
    ensures a as real / t * 100.0 <= b as real / t * 100.0 ==> a <= b
    ensures a as real / t * 100.0 < b as real / t * 100.0 ==> a < b
  {
    if a > b {
      assert a as real / t > b as real / t;
    }
    if a >= b {
      assert a as real / t >= b as real / t;
    }
  }

  /** With labels `a, b, b` the client reducer reports `a`, though `b`
      holds two thirds of the distribution and is what the scan for the
      greatest percentage picks. */
  lemma DominantMismatch(a: string, b: string)
    requires a != b
    ensures var d := Distribution([a, b, b]);
      KeepFirstLabel(d[0], d[1..]).sentiment == a && d[FirstMax(d)].sentiment == b &&
      d[FirstMax(d)].count == 2
  {
    CountABB(a, b);
    var d := Distribution([a, b, b]);
    assert |d| == 2 && d[0].sentiment == a && d[0].count == 1 && d[1].sentiment == b && d[1].count == 2;
    PercentStep(1, 2, 3);
    FixedSeparates(d[0].percentage, d[1].percentage, 2);
    KeepFirstLabelKeeps(d[0], d[1..]);
    assert FirstMaxFrom(d, 1, 2) == 1;
  }

  lemma CountABB(a: string, b: string)
    requires a != b
    ensures CountAll([a, b, b]) == [(a, 1), (b, 2)]
  {
    var ls := [a, b, b];
    assert ls[..2] == [a, b] && ls[..2][..1] == [a] && ls[..2][..1][..0] == [];
    assert CountAll([a]) == [(a, 1)];
    assert CountAll([a, b]) == [(a, 1), (b, 1)];
    assert [(a, 1), (b, 1)][1..] == [(b, 1)];
    assert Bump([(b, 1)], b) == [(b, 2)];
  }
}
