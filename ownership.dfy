/** The ownership helpers (client/src/features/stock/utils/stock-ownership.ts):
    finiteness filter, clamping to [0, 1], percent normalisation, share
    rounding and the percent and share display choices. */
module Ownership {
  import opened Common

  /** `safeNum`: the value of a finite number, else `undefined`. */
  function SafeNum(x: Option<JsNumber>): (r: Option<real>)
    ensures r.Some? <==> x.Some? && x.value.Finite?
    ensures r.Some? ==> r.value == x.value.value
  {
    if x.Some? && x.value.Finite? then Some(x.value.value) else None
  }

  /** `clamp01`: `max(0, min(1, x))`. */
  function Clamp01(x: real): (r: real)
    ensures 0.0 <= r <= 1.0
    ensures 0.0 <= x <= 1.0 ==> r == x
    ensures x < 0.0 ==> r == 0.0
    ensures x > 1.0 ==> r == 1.0
  {
    Max(0.0, Min(1.0, x))
  }

  lemma Clamp01Idempotent(x: real)
    ensures Clamp01(Clamp01(x)) == Clamp01(x)
  {
  }

  /** `normalizePctMaybe`: a value above 1 is read as a percentage and
      divided by 100 (exactly 1 is kept as a fraction); a non-finite value
      is dropped; the fraction is clamped to [0, 1]. */
  function NormalizePctMaybe(p: Option<JsNumber>): (r: Option<real>)
    ensures r.Some? <==> p.Some? && p.value.Finite?
    ensures r.Some? ==> 0.0 <= r.value <= 1.0
    ensures r.Some? && p.value.value > 1.0 ==> r.value == Clamp01(p.value.value / 100.0)
    ensures r.Some? && p.value.value <= 1.0 ==> r.value == Clamp01(p.value.value)
  {
    match p
    case None => None
    case Some(NaN) => None
    case Some(Infinity(_)) => None
    case Some(Finite(x)) =>
      var v := if x > 1.0 then x / 100.0 else x;
      Some(Clamp01(v))
  }

  /** A fraction already in [0, 1] is kept, and so normalising twice is
      normalising once. */
  lemma NormalizePctIdempotent(p: Option<JsNumber>)
    ensures NormalizePctMaybe(AsJs(NormalizePctMaybe(p))) == NormalizePctMaybe(p)
  {
  }

  /** A percentage and its fraction normalise alike, up to 100%. */
  lemma NormalizePercentOrFraction(x: real)
    requires 0.01 < x <= 1.0
    ensures NormalizePctMaybe(Some(Finite(x * 100.0))) == NormalizePctMaybe(Some(Finite(x)))
  {
    assert x * 100.0 > 1.0;
    assert x * 100.0 / 100.0 == x;
  }

  /** `roundShares`: `Math.round`, the one integer in (x - 0.5, x + 0.5],
      so that a half rounds up. */
  function RoundShares(x: real): (r: int)
    ensures x - 0.5 < r as real <= x + 0.5
  {
    Round(x)
  }

  /** A half rounds toward +infinity, for negative numbers too. */
  lemma RoundSharesHalves(k: int)
    ensures RoundShares(k as real + 0.5) == k + 1
    ensures RoundShares(k as real - 0.5) == k
  {
  }

  /** `formatPct01`: 'n/a' for a missing or non-finite value, else the
      value as a percentage. */
  function FormatPct01(p: Option<JsNumber>): (r: Text)
    ensures r == NotAvailableText <==> SafeNum(p).None?
    ensures SafeNum(p).Some? ==> r == PercentText(SafeNum(p).value)
  {
    if p.None? || !p.value.Finite? then NotAvailableText else PercentText(p.value.value)
  }

  /** `formatShares` without its decimal rendering: 'n/a', a number scaled
      by a suffix, or a rounded whole number. */
  datatype SharesText = SharesNA | ScaledShares(scaled: real, scale: Scale) | WholeShares(n: int)

  function FormatShares(n: Option<JsNumber>): (r: SharesText)
    ensures r.SharesNA? <==> SafeNum(n).None?
    ensures r.ScaledShares? ==>
      r.scale != One && r.scale == ScaleOf(n.value.value) &&
      r.scaled * Divisor(r.scale) == n.value.value && Abs(r.scaled) >= 1.0 &&
      (r.scale != Tera ==> Abs(r.scaled) < 1000.0)
    ensures r.WholeShares? <==> SafeNum(n).Some? && Abs(n.value.value) < 1000.0
    ensures r.WholeShares? ==> r.n == RoundShares(n.value.value)
  {
    if n.None? || !n.value.Finite? then SharesNA
    else
      var v := n.value.value;
      var sc := ScaleOf(v);
      ScaledMagnitude(v);
      if sc == One then WholeShares(Round(v)) else ScaledShares(v / Divisor(sc), sc)
  }
}
