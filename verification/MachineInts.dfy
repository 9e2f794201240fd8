/**
 Fixed-width integer arithmetic. The subset types make every intermediate result carry a
 range check, so a member that computes with them cannot overflow.
 */
module MachineInts {
  import opened PowersOfTen

  const I64_MAX: int := 0x7fff_ffff_ffff_ffff
  const I128_MAX: int := 0x7fff_ffff_ffff_ffff_ffff_ffff_ffff_ffff

  type i16 = x: int | -0x8000 <= x < 0x8000
  type i32 = x: int | -0x8000_0000 <= x < 0x8000_0000
  type u16 = x: int | 0 <= x < 0x1_0000
  type u32 = x: int | 0 <= x < 0x1_0000_0000
  type i64 = x: int | -I64_MAX - 1 <= x <= I64_MAX
  type i128 = x: int | -I128_MAX - 1 <= x <= I128_MAX

  /** The register types that scaled values come in. */
  datatype IntType = U16 | I16 | U32 | I32 {

    function Min(): int {
      match this
      case U16 => 0
      case I16 => -0x8000
      case U32 => 0
      case I32 => -0x8000_0000
    }

    function Max(): int {
      match this
      case U16 => 0xffff
      case I16 => 0x7fff
      case U32 => 0xffff_ffff
      case I32 => 0x7fff_ffff
    }

    predicate Holds(x: int) {
      Min() <= x <= Max()
    }

    predicate Unsigned() {
      this == U16 || this == U32
    }

    /** The value with which a SunSpec device marks an optional point as not implemented. */
    function NotImplemented(): int {
      if Unsigned() then Max() else Min()
    }

    predicate Implemented(x: int) {
      x != NotImplemented()
    }
  }

  function Abs(x: int): (r: nat) {
    if x < 0 then -x else x
  }

  function Clamp(x: int, lo: int, hi: int): int
    requires lo <= hi
  {
    if x < lo then lo else if x > hi then hi else x
  }

  /** `unsigned_abs` of an i32. */
  function UnsignedAbs(x: i32): (r: nat) {
    Abs(x)
  }

  /** Rust's `/`: the quotient truncated toward zero. */
  function Quot(n: int, d: int): (q: int)
    requires d > 0
  {
    if n >= 0 then n / d else -((-n) / d)
  }

  /** `saturating_mul` of the type whose largest value is `max`. */
  function SaturatingMul(x: int, y: int, max: int): (r: int)
    requires max >= 0
    ensures -max - 1 <= r <= max
  {
    Clamp(x * y, -max - 1, max)
  }

  /** `10.saturating_pow(n)` of the type whose largest value is `max`. */
  function SaturatingPow10(n: nat, max: int): (r: int)
    requires max >= 1
    ensures 1 <= r <= max
  {
    if Pow10(n) <= max then Pow10(n) else max
  }

  /** Rounding to the nearest whole number, halves away from zero, as a property of the result. */
  ghost predicate IsNearest(n: int, d: int, q: int)
    requires d > 0
  {
    var distance := Abs(n - q * d);
    && 2 * distance <= d
    && (2 * distance == d ==> Abs(q * d) > Abs(n))
  }

  /** The nearest whole number to n / d, halves away from zero. */
  function Nearest(n: int, d: int): (q: int)
    requires d > 0
    ensures IsNearest(n, d, q)
  {
    HalfUp(Abs(n), d);
    if n >= 0 then (2 * n + d) / (2 * d) else -((2 * -n + d) / (2 * d))
  }

  lemma HalfUp(n: nat, d: int)
    requires d > 0
    ensures IsNearest(n, d, (2 * n + d) / (2 * d))
    ensures IsNearest(0 - n, d, -((2 * n + d) / (2 * d)))
  {
    var q := (2 * n + d) / (2 * d);
    DivMod(2 * n + d, 2 * d);
    Doubled(q, d);
    Negated(q, d);
    Ordered(0, q, d);
  }

  /** No other whole number is the nearest one. */
  lemma NearestUnique(n: int, d: int, p: int, q: int)
    requires d > 0
    requires IsNearest(n, d, p) && IsNearest(n, d, q)
    ensures p == q
  {
    if p < q {
      NoTwoNearest(n, d, p, q);
    } else if q < p {
      NoTwoNearest(n, d, q, p);
    }
  }

  lemma NoTwoNearest(n: int, d: int, p: int, q: int)
    requires d > 0 && p < q
    ensures !(IsNearest(n, d, p) && IsNearest(n, d, q))
  {
    Ordered(p, q, d);
    if p >= 0 {
      Ordered(0, p, d);
    } else {
      Ordered(p, 0, d);
    }
  }

  /** A larger number has no smaller nearest whole number. */
  lemma NearestMonotone(m: int, n: int, d: int)
    requires d > 0 && m <= n
    ensures Nearest(m, d) <= Nearest(n, d)
  {
    var p, q := Nearest(m, d), Nearest(n, d);
    if p > q {
      Ordered(q, p, d);
      assert m == n;
    }
  }

  // Products, one fact at a time.

  lemma DivMod(n: int, d: int)
    requires d > 0
    ensures n == (n / d) * d + n % d && 0 <= n % d < d
  {
  }

  /** Multiplying by a positive number keeps order, and keeps distinct numbers a factor apart. */
  lemma Ordered(x: int, y: int, d: int)
    requires d > 0
    ensures x <= y ==> x * d <= y * d
    ensures x < y ==> x * d + d <= y * d
  {
    if x < y {
      var gap := y - x - 1;
      assert y * d == x * d + gap * d + d;
      assert gap * d >= 0;
    }
  }

  lemma Doubled(x: int, d: int)
    ensures x * (2 * d) == 2 * (x * d)
  {
  }

  lemma Negated(x: int, d: int)
    ensures (-x) * d == -(x * d)
  {
  }

  /** Quotient and remainder are determined by the equation between them. */
  lemma QuotientIs(n: int, d: int, q: int, r: int)
    requires d > 0 && n == q * d + r && 0 <= r < d
    ensures n / d == q
  {
    DivMod(n, d);
    Ordered(n / d, q, d);
    Ordered(q, n / d, d);
  }
}
