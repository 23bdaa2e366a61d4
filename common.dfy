/** Shared vocabulary: optional values, JavaScript numbers, real helpers,
    filters over sequences, ordered string-keyed records and string helpers. */
module Common {

  /** `undefined` / `null` versus a present value. */
  datatype Option<T> = None | Some(value: T)

  /** A JavaScript number: finite, NaN, or an infinity. */
  datatype JsNumber = Finite(value: real) | NaN | Infinity(negative: bool)

  /** A number decoded from JSON, which is always finite. */
  function AsJs(x: Option<real>): (r: Option<JsNumber>)
    ensures r.Some? <==> x.Some?
    ensures r.Some? ==> r.value == Finite(x.value)
  {
    if x.Some? then Some(Finite(x.value)) else None
  }

  /** A display string: `${(x * 100).toFixed(2)}%` for a fraction `x`, or
      a literal text. The decimal rendering itself is not modelled. */
  datatype Text = PercentText(fraction: real) | Literal(text: string)

  const NotAvailableText := Literal("n/a")

  function Abs(x: real): (r: real)
    ensures r >= 0.0 && (r == x || r == -x)
  {
    if x < 0.0 then -x else x
  }

  function Max(a: real, b: real): (r: real)
    ensures r >= a && r >= b && (r == a || r == b)
  {
    if a >= b then a else b
  }

  function Min(a: real, b: real): (r: real)
    ensures r <= a && r <= b && (r == a || r == b)
  {
    if a <= b then a else b
  }

  /** `Math.round`: the nearest integer, half-way values rounded towards +infinity. */
  function Round(x: real): (r: int)
    ensures r as real <= x + 0.5 < r as real + 1.0
  {
    (x + 0.5).Floor
  }

  function Pow10(n: nat): (p: nat)
    ensures p >= 1
  {
    if n == 0 then 1 else 10 * Pow10(n - 1)
  }

  /** `parseFloat(x.toFixed(places))` on the exact decimal value of `x`:
      the multiple of `10^-places` nearest to `x`, a half-way value rounded
      away from zero. */
  function Fixed(x: real, places: nat): real
  {
    RoundTo(x, Pow10(places) as real)
  }

  /** `x` rounded to the nearest multiple of `1 / p`, half-way values away
      from zero. */
  function RoundTo(x: real, p: real): real
    requires p > 0.0
  {
    if x < 0.0 then -(Round(-x * p) as real / p) else Round(x * p) as real / p
  }

  /** Rounding keeps order. */
  lemma RoundMonotone(a: real, b: real)
    requires a <= b
    ensures Round(a) <= Round(b)
  {
    assert Round(a) as real < Round(b) as real + 1.0;
  }

  /** Values a whole unit apart round to different integers. */
  lemma RoundSeparates(a: real, b: real)
    requires a + 1.0 <= b
    ensures Round(a) < Round(b)
  {
    assert Round(a) as real < Round(b) as real;
  }

  /** Rounding moves a value by at most half a unit of the last place. */
  lemma FixedNear(x: real, places: nat)
    ensures Abs(Fixed(x, places) - x) <= 0.5 / Pow10(places) as real
  {
    RoundToNear(x, Pow10(places) as real);
  }

  /** Two values rounded to two places add up to their sum within 0.01. */
  lemma FixedSum(x: real, y: real)
    ensures Abs(Fixed(x, 2) + Fixed(y, 2) - (x + y)) <= 0.01
  {
    FixedNear(x, 2);
    FixedNear(y, 2);
    assert Pow10(2) == 100;
  }

  lemma RoundToNear(x: real, p: real)
    requires p > 0.0
    ensures Abs(RoundTo(x, p) - x) <= 0.5 / p
  {
    var y := if x < 0.0 then -x else x;
    var v := y * p;
    var n := Round(v) as real;
    DivBounds(n, y, p);
  }

  /** `n / p` is within `0.5 / p` of `y` when `n` is within 0.5 of `y * p`. */
  lemma DivBounds(n: real, y: real, p: real)
    requires p > 0.0 && n <= y * p + 0.5 < n + 1.0
    ensures y - 0.5 / p < n / p <= y + 0.5 / p
  {
    DivLe(n, y * p + 0.5, p);
    DivLt(y * p - 0.5, n, p);
    assert (y * p + 0.5) / p == y + 0.5 / p;
    assert (y * p - 0.5) / p == y - 0.5 / p;
  }

  lemma DivLe(a: real, b: real, p: real)
    requires p > 0.0 && a <= b
    ensures a / p <= b / p
  {
    assert b / p - a / p == (b - a) / p;
  }

  lemma DivLt(a: real, b: real, p: real)
    requires p > 0.0 && a < b
    ensures a / p < b / p
  {
    assert b / p - a / p == (b - a) / p;
  }

  lemma MulLe(a: real, b: real, p: real)
    requires p > 0.0 && a <= b
    ensures a * p <= b * p
  {
    assert b * p - a * p == (b - a) * p;
  }

  /** Rounding a non-negative value is monotone. */
  lemma FixedMonotone(x: real, y: real, places: nat)
    requires 0.0 <= x <= y
    ensures Fixed(x, places) <= Fixed(y, places)
  {
    RoundToMonotone(x, y, Pow10(places) as real);
  }

  lemma RoundToMonotone(x: real, y: real, p: real)
    requires p > 0.0 && 0.0 <= x <= y
    ensures RoundTo(x, p) <= RoundTo(y, p)
  {
    var a, b := x * p, y * p;
    MulLe(x, y, p);
    RoundMonotone(a, b);
    DivLe(Round(a) as real, Round(b) as real, p);
  }

  /** Non-negative values at least a unit of the last place apart stay
      apart when rounded. */
  lemma FixedSeparates(x: real, y: real, places: nat)
    requires 0.0 <= x && y - x >= 1.0 / Pow10(places) as real
    ensures Fixed(x, places) < Fixed(y, places)
  {
    RoundToSeparates(x, y, Pow10(places) as real);
  }

  lemma RoundToSeparates(x: real, y: real, p: real)
    requires p > 0.0 && 0.0 <= x && y - x >= 1.0 / p
    ensures RoundTo(x, p) < RoundTo(y, p)
  {
    var a, b := x * p, y * p;
    MulLe(1.0 / p, y - x, p);
    assert 1.0 / p * p == 1.0;
    assert (y - x) * p == b - a;
    RoundSeparates(a, b);
    DivLt(Round(a) as real, Round(b) as real, p);
  }

  /** Left-to-right sum, as `reduce((s, x) => s + x, 0)`. */
  function Sum(s: seq<real>): real
  {
    if s == [] then 0.0 else Sum(s[..|s| - 1]) + s[|s| - 1]
  }

  lemma {:induction false} SumAppend(s: seq<real>, t: seq<real>)
    ensures Sum(s + t) == Sum(s) + Sum(t)
  {
    if t == [] {
      assert s + t == s;
    } else {
      assert (s + t)[..|s + t| - 1] == s + t[..|t| - 1];
      SumAppend(s, t[..|t| - 1]);
    }
  }

  /** `Array.prototype.filter`. */
  function Filter<T>(s: seq<T>, p: T -> bool): (r: seq<T>)
    ensures |r| <= |s|
    ensures forall i :: 0 <= i < |r| ==> r[i] in s && p(r[i])
    ensures forall i :: 0 <= i < |s| && p(s[i]) ==> s[i] in r
  {
    if s == [] then []
    else if p(s[0]) then [s[0]] + Filter(s[1..], p)
    else Filter(s[1..], p)
  }

  lemma {:induction false} FilterAppend<T>(s: seq<T>, t: seq<T>, p: T -> bool)
    ensures Filter(s + t, p) == Filter(s, p) + Filter(t, p)
  {
    if s == [] {
      assert s + t == t;
    } else {
      assert (s + t)[1..] == s[1..] + t;
      FilterAppend(s[1..], t, p);
    }
  }

  /** Filtering keeps everything when every element passes. */
  lemma {:induction false} FilterAll<T>(s: seq<T>, p: T -> bool)
    requires forall i :: 0 <= i < |s| ==> p(s[i])
    ensures Filter(s, p) == s
  {
    if s != [] {
      FilterAll(s[1..], p);
    }
  }

  /** Filtering keeps nothing when no element passes. */
  lemma {:induction false} FilterNone<T>(s: seq<T>, p: T -> bool)
    requires forall i :: 0 <= i < |s| ==> !p(s[i])
    ensures Filter(s, p) == []
  {
    if s != [] {
      FilterNone(s[1..], p);
    }
  }

  /** Number of elements satisfying `p`, as `filter(p).length`. */
  function Count<T>(s: seq<T>, p: T -> bool): nat
  {
    |Filter(s, p)|
  }

  /** `s.slice(-n)` for `n > 0`: the last `n` elements, or all of them. */
  function TakeLast<T>(s: seq<T>, n: nat): (r: seq<T>)
    ensures |r| == if n <= |s| then n else |s|
    ensures n <= |s| ==> r == s[|s| - n..]
  {
    if n <= |s| then s[|s| - n..] else s
  }

  /** The last element of a non-empty sequence (`s[s.length - 1]`). */
  function Last<T>(s: seq<T>): T
    requires |s| > 0
  {
    s[|s| - 1]
  }

  /** `s[s.length - 1] ?? null`, also `s.slice(-1)[0]`. */
  function LastOrNone<T>(s: seq<T>): (r: Option<T>)
    ensures r.Some? <==> |s| > 0
    ensures |s| > 0 ==> r.value == s[|s| - 1]
  {
    if |s| == 0 then None else Some(s[|s| - 1])
  }

  /** `o ?? d` for a plain default. */
  function ValueOr<T>(o: Option<T>, d: T): (r: T)
    ensures o.Some? ==> r == o.value
    ensures o.None? ==> r == d
  {
    if o.Some? then o.value else d
  }

  /** `a ?? b`. */
  function OrElse<T>(a: Option<T>, b: Option<T>): (r: Option<T>)
    ensures a.Some? ==> r == a
    ensures a.None? ==> r == b
  {
    if a.Some? then a else b
  }

  /** The last element satisfying `p`: what `s.filter(p)` ends with. */
  function LastWhere<T>(s: seq<T>, p: T -> bool): (r: Option<T>)
    ensures r.Some? ==> exists j :: (0 <= j < |s| && s[j] == r.value && p(s[j]) &&
      forall k :: j < k < |s| ==> !p(s[k]))
    ensures r.None? <==> forall k :: 0 <= k < |s| ==> !p(s[k])
  {
    if s == [] then None
    else if p(s[|s| - 1]) then Some(s[|s| - 1])
    else
      var r := LastWhere(s[..|s| - 1], p);
      assert forall k :: 0 <= k < |s| - 1 ==> s[..|s| - 1][k] == s[k];
      r
  }

  lemma {:induction false} LastOfFilter<T>(s: seq<T>, p: T -> bool)
    ensures LastOrNone(Filter(s, p)) == LastWhere(s, p)
  {
    if s != [] {
      var init := s[..|s| - 1];
      var x := s[|s| - 1];
      assert s == init + [x];
      FilterAppend(init, [x], p);
      LastOfFilter(init, p);
      var tail := Filter([x], p);
      assert tail == (if p(x) then [x] else []) by { assert [x][1..] == []; }
      assert LastWhere(s, p) == (if p(x) then Some(x) else LastWhere(init, p));
      LastOfAppend(Filter(init, p), tail);
    }
  }

  /** An element satisfying `p` with none after it is the last one. */
  lemma {:induction false} LastWhereAt<T>(s: seq<T>, p: T -> bool, i: nat)
    requires i < |s| && p(s[i]) && forall k :: i < k < |s| ==> !p(s[k])
    ensures LastWhere(s, p) == Some(s[i])
  {
    if i < |s| - 1 {
      var init := s[..|s| - 1];
      assert init[i] == s[i];
      LastWhereAt(init, p, i);
    }
  }


  /** The last element after appending at most one. */
  lemma LastOfAppend<T>(a: seq<T>, b: seq<T>)
    requires |b| <= 1
    ensures LastOrNone(a + b) == if b == [] then LastOrNone(a) else Some(b[0])
  {
    if b == [] {
      assert a + b == a;
    }
  }

  /** Two successive filters are one filter by the conjunction `pq`. */
  lemma {:induction false} FilterFilter<T>(s: seq<T>, p: T -> bool, q: T -> bool, pq: T -> bool)
    requires forall x :: pq(x) == (p(x) && q(x))
    ensures Filter(Filter(s, p), q) == Filter(s, pq)
  {
    if s != [] {
      FilterFilter(s[1..], p, q, pq);
    }
  }

  /** The position of the first non-empty sequence from `i` on, else the
      length. */
  function FirstNonEmptyIndex<T>(ss: seq<seq<T>>, i: nat): (k: nat)
    requires i <= |ss|
    ensures i <= k <= |ss|
    ensures k < |ss| ==> |ss[k]| > 0
    ensures forall j :: i <= j < k ==> |ss[j]| == 0
    decreases |ss| - i
  {
    if i == |ss| || |ss[i]| > 0 then i else FirstNonEmptyIndex(ss, i + 1)
  }

  /** The first non-empty sequence, else []. */
  function FirstNonEmpty<T>(ss: seq<seq<T>>): (r: seq<T>)
    ensures |r| == 0 <==> forall k :: 0 <= k < |ss| ==> |ss[k]| == 0
    ensures |r| > 0 ==> exists k :: (0 <= k < |ss| && r == ss[k] && forall j :: 0 <= j < k ==> |ss[j]| == 0)
  {
    var k := FirstNonEmptyIndex(ss, 0);
    if k < |ss| then ss[k] else []
  }

  /** The value of the first binding of `k` in an ordered record (a JSON
      object or a Map, whose keys are unique, so the first is the only one). */
  function Lookup<V>(kvs: seq<(string, V)>, k: string): (r: Option<V>)
    ensures r.Some? <==> exists i :: 0 <= i < |kvs| && kvs[i].0 == k
    ensures r.Some? ==> (k, r.value) in kvs
  {
    if kvs == [] then None
    else if kvs[0].0 == k then Some(kvs[0].1)
    else Lookup(kvs[1..], k)
  }

  function Keys<V>(kvs: seq<(string, V)>): (r: seq<string>)
    ensures |r| == |kvs| && forall i :: 0 <= i < |kvs| ==> r[i] == kvs[i].0
  {
    if kvs == [] then [] else [kvs[0].0] + Keys(kvs[1..])
  }

  // ----- strings -----

  /** `s.slice(0, 10)`. */
  function DatePart(s: string): (r: string)
    ensures |r| <= 10 && |r| <= |s| && r == s[..|r|]
    ensures |s| >= 10 ==> |r| == 10
  {
    if |s| <= 10 then s else s[..10]
  }

  predicate StartsWith(s: string, p: string)
  {
    |p| <= |s| && s[..|p|] == p
  }

  /** `s.replace(/\/$/, '')`: one trailing slash removed. */
  function DropTrailingSlash(s: string): (r: string)
    ensures r + (if |s| > 0 && s[|s| - 1] == '/' then "/" else "") == s
  {
    if |s| > 0 && s[|s| - 1] == '/' then s[..|s| - 1] else s
  }

  /** Substring test (`s.includes(sub)`, Python's `sub in s`). */
  predicate Contains(s: string, sub: string)
  {
    exists i :: 0 <= i <= |s| && StartsWith(s[i..], sub)
  }

  function LowerChar(c: char): char
  {
    if 'A' <= c <= 'Z' then (c as int + 32) as char else c
  }

  function UpperChar(c: char): char
  {
    if 'a' <= c <= 'z' then (c as int - 32) as char else c
  }

  function ToLower(s: string): (r: string)
    ensures |r| == |s| && forall i :: 0 <= i < |s| ==> r[i] == LowerChar(s[i])
  {
    if s == [] then [] else [LowerChar(s[0])] + ToLower(s[1..])
  }

  function ToUpper(s: string): (r: string)
    ensures |r| == |s| && forall i :: 0 <= i < |s| ==> r[i] == UpperChar(s[i])
  {
    if s == [] then [] else [UpperChar(s[0])] + ToUpper(s[1..])
  }

  predicate IsDigit(c: char)
  {
    '0' <= c <= '9'
  }

  function DigitChar(d: nat): char
    requires d < 10
  {
    ('0' as int + d) as char
  }

  function DigitValue(c: char): nat
    requires IsDigit(c)
  {
    c as int - '0' as int
  }

  /** Decimal notation of a natural number, most significant digit first. */
  function NatToString(n: nat): (r: string)
    ensures |r| > 0 && forall i :: 0 <= i < |r| ==> IsDigit(r[i])
    decreases n
  {
    if n < 10 then [DigitChar(n)] else NatToString(n / 10) + [DigitChar(n % 10)]
  }

  /** The value a string of decimal digits denotes. */
  function DecimalValue(s: string): nat
    requires forall i :: 0 <= i < |s| ==> IsDigit(s[i])
  {
    if s == [] then 0 else 10 * DecimalValue(s[..|s| - 1]) + DigitValue(s[|s| - 1])
  }

  lemma {:induction false} NatToStringValue(n: nat)
    ensures DecimalValue(NatToString(n)) == n
    decreases n
  {
    if n >= 10 {
      var s := NatToString(n / 10) + [DigitChar(n % 10)];
      assert s[..|s| - 1] == NatToString(n / 10);
      NatToStringValue(n / 10);
    }
  }

  /** Decimal notation is injective, so distinct numbers never read alike. */
  lemma NatToStringInjective(m: nat, n: nat)
    requires m != n
    ensures NatToString(m) != NatToString(n)
  {
    NatToStringValue(m);
    NatToStringValue(n);
  }

  /** Decimal notation of an integer (`String(n)` / template interpolation). */
  function IntToString(n: int): string
  {
    if n < 0 then "-" + NatToString(-n) else NatToString(n)
  }

  // ----- magnitude suffixes -----

  /** The suffix a money or share count is shown with: T, B, M, K or none. */
  datatype Scale = Tera | Giga | Mega | Kilo | One

  function Divisor(sc: Scale): (r: real)
    ensures r >= 1.0
  {
    match sc
    case Tera => 1000000000000.0
    case Giga => 1000000000.0
    case Mega => 1000000.0
    case Kilo => 1000.0
    case One => 1.0
  }

  function Suffix(sc: Scale): string
  {
    match sc
    case Tera => "T"
    case Giga => "B"
    case Mega => "M"
    case Kilo => "K"
    case One => ""
  }

  /** The largest of 1e12, 1e9, 1e6, 1e3 that `|x|` reaches. */
  function ScaleOf(x: real): Scale
  {
    var a := Abs(x);
    if a >= 1000000000000.0 then Tera
    else if a >= 1000000000.0 then Giga
    else if a >= 1000000.0 then Mega
    else if a >= 1000.0 then Kilo
    else One
  }

  /** Scaled by its suffix, a number shows between 1 and 1000 in magnitude
      (at least 1 for T, below 1000 when unscaled). */
  lemma ScaledMagnitude(x: real)
    ensures var sc := ScaleOf(x); var m := x / Divisor(sc);
      m * Divisor(sc) == x &&
      (sc != One ==> Abs(m) >= 1.0) &&
      (sc != Tera ==> Abs(m) < 1000.0)
  {
    var sc := ScaleOf(x);
    var d := Divisor(sc);
    var m := x / d;
    assert m * d == x;
    assert Abs(m) * d == Abs(x) by {
      if x < 0.0 { assert m < 0.0; } else { assert m >= 0.0; }
    }
  }
}
