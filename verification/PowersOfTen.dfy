/** Powers of ten, over the naturals and (for negative exponents) over the reals. */
module PowersOfTen {

  function Pow10(n: nat): (r: int)
    ensures r >= 1
  {
    if n == 0 then 1 else 10 * Pow10(n - 1)
  }

  lemma {:induction false} Pow10Add(a: nat, b: nat)
    ensures Pow10(a + b) == Pow10(a) * Pow10(b)
  {
    if a == 0 {
    } else {
      Pow10Add(a - 1, b);
      assert Pow10(a + b) == 10 * Pow10(a + b - 1);
      assert 10 * (Pow10(a - 1) * Pow10(b)) == (10 * Pow10(a - 1)) * Pow10(b);
    }
  }

  lemma {:induction false} Pow10Monotone(a: nat, b: nat)
    requires a <= b
    ensures Pow10(a) <= Pow10(b)
    decreases b
  {
    if a < b {
      Pow10Monotone(a, b - 1);
    }
  }

  /** The real number `x * 10^e`, for any integer exponent. */
  ghost function AtScale(x: real, e: int): real
    decreases if e < 0 then -e else e
  {
    if e == 0 then x
    else if e > 0 then 10.0 * AtScale(x, e - 1)
    else AtScale(x, e + 1) / 10.0
  }

  lemma AtScaleSucc(x: real, e: int)
    ensures AtScale(x, e + 1) == 10.0 * AtScale(x, e)
  {
  }

  lemma {:induction false} AtScaleAdd(x: real, a: int, b: int)
    ensures AtScale(AtScale(x, a), b) == AtScale(x, a + b)
    decreases if b < 0 then -b else b
  {
    if b > 0 {
      AtScaleAdd(x, a, b - 1);
      AtScaleSucc(x, a + b - 1);
    } else if b < 0 {
      AtScaleAdd(x, a, b + 1);
      AtScaleSucc(x, a + b);
    }
  }

  /** Scaling keeps order, strictly. */
  lemma {:induction false} AtScaleOrder(x: real, y: real, e: int)
    ensures x <= y <==> AtScale(x, e) <= AtScale(y, e)
    decreases if e < 0 then -e else e
  {
    if e > 0 {
      AtScaleOrder(x, y, e - 1);
    } else if e < 0 {
      AtScaleOrder(x, y, e + 1);
    }
  }

  /** Scaling a whole number up multiplies it by the power of ten. */
  lemma {:induction false} AtScaleUp(x: int, n: nat)
    ensures AtScale(x as real, n) == (x * Pow10(n)) as real
  {
    if n > 0 {
      AtScaleUp(x, n - 1);
      assert x * Pow10(n) == 10 * (x * Pow10(n - 1));
    }
  }
}
