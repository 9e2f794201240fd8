/**
 Values with a power-of-ten scale factor and the change of scale between them.

 `Rescale` computes in 64 bits with a saturating power of ten, as the source does. The lemmas
 show that the answer is nevertheless the exact one for every value and every pair of scale factors.
 */
module ScaledValues {
  import opened MachineInts
  import opened PowersOfTen

  datatype ScaledValue = ScaledValue(value: int, sf: i16)

  /** The nearest value that the type holds. */
  function SaturatingFromI64(t: IntType, x: i64): (r: int)
    ensures t.Holds(r)
  {
    if t.Holds(x) then x
    else if x > 0 then t.Max()
    else t.Min()
  }

  function Rescale(t: IntType, v: ScaledValue, targetSf: i16): (r: ScaledValue)
    requires t.Holds(v.value)
    ensures t.Holds(r.value) && r.sf == targetSf
  {
    var sfDifference: i32 := v.sf - targetSf;
    if sfDifference == 0 then v else
    var value: i64 := v.value;
    var factor: i64 := SaturatingPow10(UnsignedAbs(sfDifference), I64_MAX);
    var scaled: i64 :=
      if sfDifference > 0 then SaturatingMul(value, factor, I64_MAX) else DivideRounded(value, factor);
    ScaledValue(SaturatingFromI64(t, scaled), targetSf)
  }

  /** Rounds rather than truncates: a half-step nudge before the division. */
  function DivideRounded(value: i64, factor: i64): (r: i64)
    requires factor > 0 && Abs(value) < 0x1_0000_0000
  {
    var halfStep: i64 := factor / 2;
    var nudge: i64 := if value < 0 then -halfStep else halfStep;
    var nudged: i64 := value + nudge;
    QuotShrinks(nudged, factor);
    Quot(nudged, factor)
  }

  lemma QuotShrinks(n: int, d: int)
    requires d > 0
    ensures Abs(Quot(n, d)) <= Abs(n)
    ensures n >= 0 ==> Quot(n, d) >= 0
    ensures n <= 0 ==> Quot(n, d) <= 0
  {
    var q := Abs(n) / d;
    DivMod(Abs(n), d);
    if q < 0 {
      Ordered(q, 0, d);
    } else {
      Ordered(1, d, q + 1);
      assert d * (q + 1) == q * d + d;
    }
  }

  /** The value in steps of the target scale, rounded exactly and not yet bounded. */
  ghost function ExactlyRescaled(v: ScaledValue, targetSf: i16): int {
    if v.sf >= targetSf then v.value * Pow10(v.sf - targetSf)
    else Nearest(v.value, Pow10(targetSf - v.sf))
  }

  /** Saturation of the power of ten or of the product never shows in the result. */
  lemma RescaleExact(t: IntType, v: ScaledValue, targetSf: i16)
    requires t.Holds(v.value)
    ensures Rescale(t, v, targetSf).value == Clamp(ExactlyRescaled(v, targetSf), t.Min(), t.Max())
  {
    if v.sf > targetSf {
      ScaleUpExact(t, v.value, v.sf - targetSf);
    } else if v.sf < targetSf {
      ScaleDownExact(v.value, targetSf - v.sf);
      NearestWithin(t, v.value, Pow10(targetSf - v.sf));
    }
  }

  /** Short of the bound that stands for "not implemented". */
  predicate ShortOfSentinel(t: IntType, x: int) {
    if t.Unsigned() then x < t.NotImplemented() else x > t.NotImplemented()
  }

  /** A rescaled value reads as implemented exactly if the unbounded result is short of the sentinel. */
  lemma RescaleImplemented(t: IntType, v: ScaledValue, targetSf: i16)
    requires t.Holds(v.value)
    ensures t.Implemented(Rescale(t, v, targetSf).value) <==> ShortOfSentinel(t, ExactlyRescaled(v, targetSf))
  {
    RescaleExact(t, v, targetSf);
  }

  lemma ScaleUpExact(t: IntType, x: int, n: nat)
    requires t.Holds(x) && n > 0
    ensures SaturatingFromI64(t, SaturatingMul(x, SaturatingPow10(n, I64_MAX), I64_MAX))
         == Clamp(x * Pow10(n), t.Min(), t.Max())
  {
    var p, f := Pow10(n), SaturatingPow10(n, I64_MAX);
    if x > 0 {
      Ordered(0, x, f);
      Ordered(0, x, p);
    } else if x < 0 {
      Ordered(x, 0, f);
      Ordered(x, 0, p);
    }
  }

  /** Adding half a step and truncating is rounding to nearest, also when the power of ten saturates. */
  lemma ScaleDownExact(x: int, n: nat)
    requires -0x1_0000_0000 < x < 0x1_0000_0000 && n > 0
    ensures DivideRounded(x, SaturatingPow10(n, I64_MAX)) == Nearest(x, Pow10(n))
  {
    Pow10Even(n);
    if Pow10(n) <= I64_MAX {
      RoundsExactly(x, Pow10(n));
    } else {
      RoundsToZero(x, Pow10(n));
    }
  }

  lemma Pow10Even(n: nat)
    requires n > 0
    ensures Pow10(n) % 2 == 0
  {
    assert Pow10(n) == 10 * Pow10(n - 1);
  }

  lemma RoundsToZero(x: int, p: int)
    requires Abs(x) < 0x1_0000_0000 && p > I64_MAX
    ensures DivideRounded(x, I64_MAX) == 0 == Nearest(x, p)
  {
    SmallQuotient(Abs(x) + I64_MAX / 2, I64_MAX);
    Nearer(x, p);
  }

  lemma Nearer(x: int, p: int)
    requires 2 * Abs(x) < p
    ensures Nearest(x, p) == 0
  {
    assert IsNearest(x, p, 0);
    NearestUnique(x, p, 0, Nearest(x, p));
  }

  lemma RoundsExactly(x: int, p: i64)
    requires Abs(x) < 0x1_0000_0000 && p > 0 && p % 2 == 0
    ensures DivideRounded(x, p) == Nearest(x, p)
  {
    HalvesAgree(Abs(x), p);
    QuotShrinks(if x < 0 then x - p / 2 else x + p / 2, p);
  }

  lemma HalvesAgree(a: nat, p: int)
    requires p > 0 && p % 2 == 0
    ensures (a + p / 2) / p == (2 * a + p) / (2 * p)
  {
    var q, r := (a + p / 2) / p, (a + p / 2) % p;
    DivMod(a + p / 2, p);
    Doubled(q, p);
    QuotientIs(2 * a + p, 2 * p, q, 2 * r);
  }

  lemma SmallQuotient(a: nat, d: int)
    requires a < d
    ensures a / d == 0
  {
  }

  lemma NearestWithin(t: IntType, x: int, d: int)
    requires t.Holds(x) && d > 0
    ensures t.Holds(Nearest(x, d))
  {
    if x >= 0 {
      NearestMonotone(0, x, d);
    } else {
      NearestMonotone(x, 0, d);
    }
    assert IsNearest(0, d, 0);
    NearestUnique(0, d, 0, Nearest(0, d));
    var q := Nearest(x, d);
    if q > x && x >= 0 {
      Ordered(x, q, d);
      AtLeastFactor(x, d);
    } else if q < x && x <= 0 {
      Ordered(q, x, d);
      AtLeastFactor(-x, d);
      Negated(x, d);
    }
  }

  lemma AtLeastFactor(x: nat, d: int)
    requires d > 0
    ensures x * d >= x
  {
    if x > 0 {
      Ordered(1, d, x);
    }
  }

  /** A larger value never rescales to a smaller one. */
  lemma RescaleMonotone(t: IntType, v: ScaledValue, w: ScaledValue, targetSf: i16)
    requires t.Holds(v.value) && t.Holds(w.value)
    requires v.sf == w.sf && v.value <= w.value
    ensures Rescale(t, v, targetSf).value <= Rescale(t, w, targetSf).value
  {
    RescaleExact(t, v, targetSf);
    RescaleExact(t, w, targetSf);
    if v.sf >= targetSf {
      var p := Pow10(v.sf - targetSf);
      Ordered(v.value, w.value, p);
    } else {
      NearestMonotone(v.value, w.value, Pow10(targetSf - v.sf));
    }
  }

  /** The real number a scaled value stands for, counted in steps of another scale. */
  ghost function InSteps(v: ScaledValue, targetSf: i16): real {
    AtScale(v.value as real, v.sf - targetSf)
  }

  /**
   The result is within half a step of the true value. When it is not, it is the bound of the
   type that the true value lies beyond.
   */
  lemma RescaleWithinHalfStep(t: IntType, v: ScaledValue, targetSf: i16)
    requires t.Holds(v.value)
    ensures var r, x := Rescale(t, v, targetSf).value, InSteps(v, targetSf);
            || x - 0.5 <= r as real <= x + 0.5
            || (r == t.Max() && r as real < x)
            || (r == t.Min() && x < r as real)
  {
    RescaleExact(t, v, targetSf);
    var x := InSteps(v, targetSf);
    if v.sf >= targetSf {
      AtScaleUp(v.value, v.sf - targetSf);
    } else {
      BetweenHalfSteps(v, targetSf);
      NearestWithin(t, v.value, Pow10(targetSf - v.sf));
    }
  }

  lemma BetweenHalfSteps(v: ScaledValue, targetSf: i16)
    requires v.sf < targetSf
    ensures var x, q := InSteps(v, targetSf), Nearest(v.value, Pow10(targetSf - v.sf));
            x - 0.5 <= q as real <= x + 0.5
  {
    var n := targetSf - v.sf;
    var p := Pow10(n);
    var x, q := InSteps(v, targetSf), Nearest(v.value, p);
    AtScaleAdd(v.value as real, -n, n);
    AtScaleDouble(x, n);
    AtScaleUp(2 * q - 1, n);
    AtScaleUp(2 * q + 1, n);
    OddSteps(q, p);
    AtScaleOrder((2 * q - 1) as real, 2.0 * x, n);
    AtScaleOrder(2.0 * x, (2 * q + 1) as real, n);
  }

  lemma OddSteps(q: int, p: int)
    ensures (2 * q - 1) * p == 2 * (q * p) - p
    ensures (2 * q + 1) * p == 2 * (q * p) + p
  {
  }

  lemma {:induction false} AtScaleDouble(x: real, n: nat)
    ensures AtScale(2.0 * x, n) == 2.0 * AtScale(x, n)
  {
    if n > 0 {
      AtScaleDouble(x, n - 1);
    }
  }

  /** Moving to a finer scale and back loses nothing, as long as the finer value fits its type. */
  lemma RescaleRoundTrip(t: IntType, v: ScaledValue, finerSf: i16)
    requires t.Holds(v.value)
    requires finerSf <= v.sf && t.Holds(v.value * Pow10(v.sf - finerSf))
    ensures Rescale(t, Rescale(t, v, finerSf), v.sf) == v
  {
    var p := Pow10(v.sf - finerSf);
    RescaleExact(t, v, finerSf);
    var finer := Rescale(t, v, finerSf);
    assert finer.value == v.value * p;
    RescaleExact(t, finer, v.sf);
    if finerSf < v.sf {
      assert IsNearest(v.value * p, p, v.value);
      NearestUnique(v.value * p, p, v.value, Nearest(v.value * p, p));
    }
  }
}
