/**
 Deriving SunSpec percentages from watts and the device's rating.

 The arithmetic is done in 128 bits and saturates. The lemmas show that after the final clamp the
 answer is the exact one for every input, that it is never a "not implemented" sentinel, and that
 a derived limit is on the safe side.
 */
module PercentDerivation {
  import opened MachineInts
  import opened PowersOfTen
  import opened ScaledValues
  import opened Wrappers

  function SaturatingAbs(n: i128): (r: i128) {
    if n == -I128_MAX - 1 then I128_MAX else Abs(n)
  }

  function DivRoundHalfAwayFromZero(numerator: i128, denominator: i128): int
    requires denominator > 0
  {
    var absNumerator := SaturatingAbs(numerator);
    var quotient := absNumerator / denominator;
    var remainder := absNumerator % denominator;
    var threshold := denominator / 2 + denominator % 2;
    var rounded := if remainder >= threshold then quotient + 1 else quotient;
    if numerator < 0 then -rounded else rounded
  }

  function DivRound(numerator: i128, denominator: i128, roundTowardZero: bool): int
    requires denominator > 0
  {
    if roundTowardZero then Quot(numerator, denominator)
    else DivRoundHalfAwayFromZero(numerator, denominator)
  }

  function ScaledPercentRaw(
    value: i64, valueSf: i16, rating: i64, ratingSf: i16, pctSf: i16, roundTowardZero: bool): Option<int>
  {
    if rating <= 0 then None else
    var exponent: i32 := valueSf - ratingSf - pctSf;
    var baseNumerator: i128 := SaturatingMul(value, 100, I128_MAX);
    var factor: i128 := SaturatingPow10(UnsignedAbs(exponent), I128_MAX);
    if exponent >= 0 then
      Some(DivRound(SaturatingMul(baseNumerator, factor, I128_MAX), rating, roundTowardZero))
    else
      Ordered(1, rating, factor);
      Some(DivRound(baseNumerator, SaturatingMul(rating, factor, I128_MAX), roundTowardZero))
  }

  function WSetPctFromWSet(
    wSet: ScaledValue, wMaxRtg: ScaledValue, pctSf: i16, roundTowardZero: bool): Option<ScaledValue>
    requires I32.Holds(wSet.value) && U16.Holds(wMaxRtg.value)
  {
    if wMaxRtg.value == 0 then None else
    match ScaledPercentRaw(wSet.value, wSet.sf, wMaxRtg.value, wMaxRtg.sf, pctSf, roundTowardZero)
    case None => None
    case Some(pct) => Some(ScaledValue(Clamp(pct, I16.Min() + 1, I16.Max()), pctSf))
  }

  function WMaxLimPctFromWMaxLim(
    wMaxLim: ScaledValue, wMaxRtg: ScaledValue, pctSf: i16): Option<ScaledValue>
    requires U32.Holds(wMaxLim.value) && U16.Holds(wMaxRtg.value)
  {
    if wMaxRtg.value == 0 then None else
    match ScaledPercentRaw(wMaxLim.value, wMaxLim.sf, wMaxRtg.value, wMaxRtg.sf, pctSf, true)
    case None => None
    case Some(pct) => Some(ScaledValue(Clamp(pct, 0, U16.Max() - 1), pctSf))
  }

  // The exact answers.

  ghost function Rounded(n: int, d: int, roundTowardZero: bool): int
    requires d > 0
  {
    if roundTowardZero then Quot(n, d) else Nearest(n, d)
  }

  /** `100 * value / rating` in steps of the percentage's scale, as a fraction of whole numbers. */
  ghost function Numerator(value: ScaledValue, ratingSf: i16, pctSf: i16): int {
    var e := value.sf - ratingSf - pctSf;
    if e >= 0 then 100 * value.value * Pow10(e) else 100 * value.value
  }

  ghost function Denominator(valueSf: i16, rating: ScaledValue, pctSf: i16): (d: int)
    requires rating.value > 0
    ensures d > 0
  {
    var e := valueSf - rating.sf - pctSf;
    if e >= 0 then rating.value else
    Ordered(0, rating.value, Pow10(-e));
    rating.value * Pow10(-e)
  }

  ghost function ExactPercent(value: ScaledValue, rating: ScaledValue, pctSf: i16, roundTowardZero: bool): int
    requires rating.value > 0
  {
    Rounded(Numerator(value, rating.sf, pctSf), Denominator(value.sf, rating, pctSf), roundTowardZero)
  }

  /** Set points: exact, and None exactly when the rating is zero. */
  lemma WSetPctExact(wSet: ScaledValue, wMaxRtg: ScaledValue, pctSf: i16, roundTowardZero: bool)
    requires I32.Holds(wSet.value) && U16.Holds(wMaxRtg.value)
    ensures var r := WSetPctFromWSet(wSet, wMaxRtg, pctSf, roundTowardZero);
            && (r.None? <==> wMaxRtg.value == 0)
            && (r.Some? ==> && r.value.sf == pctSf
                            && r.value.value == Clamp(ExactPercent(wSet, wMaxRtg, pctSf, roundTowardZero), -0x7fff,
                                                      0x7fff)
                            && I16.Implemented(r.value.value))
  {
    if wMaxRtg.value > 0 {
      RawPercentExact(wSet, wMaxRtg, pctSf, roundTowardZero, 0x7fff);
    }
  }

  /** Export limits: exact, and None exactly when the rating is zero. */
  lemma WMaxLimPctExact(wMaxLim: ScaledValue, wMaxRtg: ScaledValue, pctSf: i16)
    requires U32.Holds(wMaxLim.value) && U16.Holds(wMaxRtg.value)
    ensures var r := WMaxLimPctFromWMaxLim(wMaxLim, wMaxRtg, pctSf);
            && (r.None? <==> wMaxRtg.value == 0)
            && (r.Some? ==> && r.value.sf == pctSf
                            && r.value.value == Clamp(ExactPercent(wMaxLim, wMaxRtg, pctSf, true), 0, 0xfffe)
                            && U16.Implemented(r.value.value))
  {
    if wMaxRtg.value > 0 {
      RawPercentExact(wMaxLim, wMaxRtg, pctSf, true, 0xfffe);
    }
  }

  /** Saturation is invisible within any bound that fits 16 bits, for every i64 value and rating. */
  lemma RawPercentExact(value: ScaledValue, rating: ScaledValue, pctSf: i16, roundTowardZero: bool, bound: int)
    requires -I64_MAX - 1 <= value.value <= I64_MAX && 0 < rating.value <= I64_MAX
    requires 0 <= bound <= 0xffff
    ensures var r := ScaledPercentRaw(value.value, value.sf, rating.value, rating.sf, pctSf, roundTowardZero);
            && r.Some?
            && Clamp(r.value, -bound, bound)
               == Clamp(ExactPercent(value, rating, pctSf, roundTowardZero), -bound, bound)
  {
    var e := value.sf - rating.sf - pctSf;
    if e >= 0 {
      ScaledUpExact(value.value, rating.value, e, roundTowardZero, bound);
    } else {
      ScaledDownExact(value.value, rating.value, -e, roundTowardZero);
    }
  }

  lemma ScaledUpExact(v: i64, d: i64, n: nat, roundTowardZero: bool, bound: int)
    requires d > 0 && 0 <= bound <= 0xffff
    ensures Clamp(DivRound(SaturatingMul(SaturatingMul(v, 100, I128_MAX), SaturatingPow10(n, I128_MAX), I128_MAX), d,
                           roundTowardZero), -bound, bound)
         == Clamp(Rounded(100 * v * Pow10(n), d, roundTowardZero), -bound, bound)
  {
    var f, p := SaturatingPow10(n, I128_MAX), Pow10(n);
    var exact, computed := 100 * v * p, SaturatingMul(100 * v, f, I128_MAX);
    if v == 0 {
      DivRoundExact(0, d, roundTowardZero);
    } else if f == p && -I128_MAX <= exact <= I128_MAX {
      DivRoundExact(exact, d, roundTowardZero);
    } else if v > 0 {
      Ordered(0, 100 * v, f);
      Ordered(0, 100 * v, p);
      BeyondBound(exact, d, roundTowardZero, bound);
      SaturatedQuotient(computed, d, roundTowardZero, bound);
    } else {
      Ordered(100 * v, 0, f);
      Ordered(100 * v, 0, p);
      BeyondBound(exact, d, roundTowardZero, bound);
      SaturatedQuotient(computed, d, roundTowardZero, bound);
    }
  }

  lemma ScaledDownExact(v: i64, d: i64, n: nat, roundTowardZero: bool)
    requires d > 0
    requires d * SaturatingPow10(n, I128_MAX) > 0 && d * Pow10(n) > 0
    ensures DivRound(100 * v, SaturatingMul(d, SaturatingPow10(n, I128_MAX), I128_MAX), roundTowardZero)
         == Rounded(100 * v, d * Pow10(n), roundTowardZero)
  {
    var f, p := SaturatingPow10(n, I128_MAX), Pow10(n);
    if f == p && d * p <= I128_MAX {
      DivRoundExact(100 * v, d * p, roundTowardZero);
    } else {
      Ordered(1, d, f);
      Ordered(1, d, p);
      DivRoundExact(100 * v, SaturatingMul(d, f, I128_MAX), roundTowardZero);
      NegligibleQuotient(100 * v, SaturatingMul(d, f, I128_MAX), roundTowardZero);
      NegligibleQuotient(100 * v, d * p, roundTowardZero);
    }
  }

  /** The 128-bit division rounds as specified, except at the one value without a negation. */
  lemma DivRoundExact(n: i128, d: i128, roundTowardZero: bool)
    requires d > 0 && n >= -I128_MAX
    ensures DivRound(n, d, roundTowardZero) == Rounded(n, d, roundTowardZero)
  {
    if !roundTowardZero {
      var q := DivRoundHalfAwayFromZero(n, d);
      DivMod(Abs(n), d);
      Negated(Abs(n) / d, d);
      Negated(Abs(n) / d + 1, d);
      Distribute(Abs(n) / d, d);
      NonNegativeQuotient(Abs(n), d);
      Ordered(0, Abs(n) / d, d);
      assert IsNearest(n, d, q);
      NearestUnique(n, d, q, Nearest(n, d));
    }
  }

  lemma NonNegativeQuotient(n: nat, d: int)
    requires d > 0
    ensures n / d >= 0
  {
  }

  lemma Distribute(q: int, d: int)
    ensures (q + 1) * d == q * d + d
  {
  }

  lemma NegligibleQuotient(n: int, d: int, roundTowardZero: bool)
    requires 2 * Abs(n) < d
    ensures Rounded(n, d, roundTowardZero) == 0
  {
    SmallQuotient(Abs(n), d);
    Nearer(n, d);
  }

  /** A numerator beyond 128 bits has a quotient beyond 16 bits. */
  lemma BeyondBound(n: int, d: i64, roundTowardZero: bool, bound: int)
    requires d > 0 && 0 <= bound <= 0xffff && Abs(n) >= I128_MAX
    ensures n > 0 ==> Rounded(n, d, roundTowardZero) > bound
    ensures n < 0 ==> Rounded(n, d, roundTowardZero) < -bound
  {
    LargeQuotient(Abs(n), d);
    LargeNearest(n, d);
  }

  lemma SaturatedQuotient(n: i128, d: i64, roundTowardZero: bool, bound: int)
    requires d > 0 && 0 <= bound <= 0xffff && Abs(n) >= I128_MAX
    ensures n > 0 ==> DivRound(n, d, roundTowardZero) > bound
    ensures n < 0 ==> DivRound(n, d, roundTowardZero) < -bound
  {
    LargeQuotient(Abs(n), d);
    LargeQuotient(I128_MAX, d);
  }

  lemma LargeQuotient(n: nat, d: i64)
    requires d > 0 && n >= I128_MAX
    ensures n / d > 0xffff
  {
    DivMod(n, d);
    Ordered(n / d, 0xffff, d);
  }

  lemma LargeNearest(n: int, d: i64)
    requires d > 0 && Abs(n) >= I128_MAX
    ensures n > 0 ==> Nearest(n, d) > 0xffff
    ensures n < 0 ==> Nearest(n, d) < -0xffff
  {
    var q := Nearest(n, d);
    Ordered(q, 0xffff, d);
    Ordered(-0xffff, q, d);
  }

  // The physical meaning of a derived limit.

  /** `pct` percent of the rating is at most `limit`, as physical quantities. */
  ghost predicate AtMost(pct: ScaledValue, rating: ScaledValue, limit: ScaledValue) {
    AtScale((pct.value * rating.value) as real, pct.sf + rating.sf) <= AtScale((100 * limit.value) as real, limit.sf)
  }

  /**
   An export percentage never allows more than the limit in watts. One step more would, unless
   the percentage is already the largest one that can be written.
   */
  lemma ExportLimitIsConservative(wMaxLim: ScaledValue, wMaxRtg: ScaledValue, pctSf: i16)
    requires U32.Holds(wMaxLim.value) && U16.Holds(wMaxRtg.value) && wMaxRtg.value > 0
    ensures var r := WMaxLimPctFromWMaxLim(wMaxLim, wMaxRtg, pctSf);
            && r.Some?
            && AtMost(r.value, wMaxRtg, wMaxLim)
            && (r.value.value < 0xfffe ==> !AtMost(r.value.(value := r.value.value + 1), wMaxRtg, wMaxLim))
  {
    WMaxLimPctExact(wMaxLim, wMaxRtg, pctSf);
    var exact := ExactPercent(wMaxLim, wMaxRtg, pctSf, true);
    var r := WMaxLimPctFromWMaxLim(wMaxLim, wMaxRtg, pctSf).value;
    PercentIsFloor(exact, wMaxLim, wMaxRtg, pctSf);
    AtMostIsFraction(r, wMaxRtg, wMaxLim);
    AtMostIsFraction(r.(value := r.value + 1), wMaxRtg, wMaxLim);
    var d := Denominator(wMaxLim.sf, wMaxRtg, pctSf);
    Ordered(r.value, exact, d);
    Ordered(exact, r.value, d);
    Distribute(r.value, d);
  }

  /** An import percentage never asks for more than the limit in watts, in magnitude. */
  lemma ImportLimitIsConservative(wSet: ScaledValue, wMaxRtg: ScaledValue, pctSf: i16)
    requires I32.Holds(wSet.value) && wSet.value <= 0
    requires U16.Holds(wMaxRtg.value) && wMaxRtg.value > 0
    ensures var r := WSetPctFromWSet(wSet, wMaxRtg, pctSf, true);
            && r.Some? && r.value.value <= 0
            && AtMost(r.value.(value := -r.value.value), wMaxRtg, wSet.(value := -wSet.value))
  {
    WSetPctExact(wSet, wMaxRtg, pctSf, true);
    var limit := wSet.(value := -wSet.value);
    var exact := ExactPercent(limit, wMaxRtg, pctSf, true);
    var r := WSetPctFromWSet(wSet, wMaxRtg, pctSf, true).value;
    NumeratorNegates(wSet, wMaxRtg.sf, pctSf);
    PercentIsFloor(exact, limit, wMaxRtg, pctSf);
    AtMostIsFraction(r.(value := -r.value), wMaxRtg, limit);
    Ordered(-r.value, exact, Denominator(wSet.sf, wMaxRtg, pctSf));
  }

  lemma NumeratorNegates(v: ScaledValue, ratingSf: i16, pctSf: i16)
    requires v.value <= 0
    ensures Numerator(v.(value := -v.value), ratingSf, pctSf) == -Numerator(v, ratingSf, pctSf)
    ensures Numerator(v, ratingSf, pctSf) <= 0
  {
    var e := v.sf - ratingSf - pctSf;
    if e >= 0 {
      Negated(100 * v.value, Pow10(e));
      Ordered(100 * v.value, 0, Pow10(e));
      assert -(100 * v.value) == 100 * -v.value;
    }
  }

  lemma PercentIsFloor(q: int, value: ScaledValue, rating: ScaledValue, pctSf: i16)
    requires rating.value > 0 && value.value >= 0
    requires q == ExactPercent(value, rating, pctSf, true)
    ensures var n, d := Numerator(value, rating.sf, pctSf), Denominator(value.sf, rating, pctSf);
            && q >= 0 && q * d <= n < q * d + d
  {
    var n, d := Numerator(value, rating.sf, pctSf), Denominator(value.sf, rating, pctSf);
    var e := value.sf - rating.sf - pctSf;
    if e >= 0 {
      Ordered(0, 100 * value.value, Pow10(e));
    }
    DivMod(n, d);
    NonNegativeQuotient(n, d);
  }

  /** Comparing physical quantities is comparing whole numbers. */
  lemma AtMostIsFraction(pct: ScaledValue, rating: ScaledValue, limit: ScaledValue)
    requires rating.value > 0
    ensures AtMost(pct, rating, limit)
       <==> pct.value * Denominator(limit.sf, rating, pct.sf) <= Numerator(limit, rating.sf, pct.sf)
  {
    var e := limit.sf - rating.sf - pct.sf;
    var s := pct.sf + rating.sf;
    var share, whole := pct.value * rating.value, 100 * limit.value;
    if e >= 0 {
      AtScaleAdd(whole as real, e, s);
      AtScaleUp(whole, e);
      AtScaleOrder(share as real, (whole * Pow10(e)) as real, s);
    } else {
      AtScaleAdd(share as real, -e, limit.sf);
      AtScaleUp(share, -e);
      AtScaleOrder((share * Pow10(-e)) as real, whole as real, limit.sf);
      Associate(pct.value, rating.value, Pow10(-e));
    }
  }

  lemma Associate(x: int, y: int, z: int)
    ensures (x * y) * z == x * (y * z)
  {
  }
}
