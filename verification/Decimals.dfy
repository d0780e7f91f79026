/** The chain library's fixed-point decimals: a natural number of atoms, 10^18 of which make one. */
module Decimals {
  import opened Outcomes
  import opened Arithmetic

  type Decimal = nat

  const ONE: Decimal := 1_000_000_000_000_000_000
  const MAX_U128: nat := 0xFFFF_FFFF_FFFF_FFFF_FFFF_FFFF_FFFF_FFFF

  function CeilDiv(x: nat, d: nat): (q: nat)
    requires d > 0
  {
    x / d + if x % d == 0 then 0 else 1
  }

  /** `Decimal::from_ratio`: truncates, and panics on a zero denominator. */
  function FromRatio(n: nat, d: nat): Outcome<Decimal> {
    if d == 0 then Panic else Ok(n * ONE / d)
  }

  function MulFloor(x: nat, r: Decimal): nat {
    x * r / ONE
  }

  function MulCeil(x: nat, r: Decimal): nat {
    CeilDiv(x * r, ONE)
  }

  /** `Uint128::div_ceil` by a decimal. */
  function DivCeil(x: nat, r: Decimal): nat
    requires r > 0
  {
    CeilDiv(x * ONE, r)
  }

  function Bps(x: nat): Decimal {
    x * 100_000_000_000_000
  }

  function Percent(x: nat): Decimal {
    x * 10_000_000_000_000_000
  }

  function SaturatingAdd(a: Decimal, b: Decimal): Decimal {
    Min(a + b, MAX_U128)
  }

  function SaturatingSub(a: Decimal, b: Decimal): Decimal {
    if a >= b then a - b else 0
  }

  function SaturatingMul(a: Decimal, b: Decimal): Decimal {
    Min(a * b / ONE, MAX_U128)
  }

  function AbsDiff(a: Decimal, b: Decimal): Decimal {
    if a >= b then a - b else b - a
  }

  // ---- Rounding ----

  lemma {:induction false} DivBounds(x: nat, d: nat)
    requires d > 0
    ensures x / d * d <= x < x / d * d + d
  {
    DivMod(x, d);
  }

  lemma {:induction false} CeilBounds(x: nat, d: nat)
    requires d > 0
    ensures CeilDiv(x, d) * d >= x && (CeilDiv(x, d) > 0 ==> (CeilDiv(x, d) - 1) * d < x)
  {
    DivMod(x, d);
    if x % d != 0 {
      assert (x / d + 1) * d == x / d * d + d;
    } else if x / d > 0 {
      assert (x / d - 1) * d == x / d * d - d;
    }
  }

  /** A ceiling is the least number of divisors that reach `x`. */
  lemma {:induction false} CeilAtMost(x: nat, d: nat, n: nat)
    requires d > 0
    ensures CeilDiv(x, d) <= n <==> x <= n * d
  {
    CeilBounds(x, d);
    var q := CeilDiv(x, d);
    if q <= n {
      MulMonotone(q, n, d);
    } else {
      MulMonotone(n, q - 1, d);
    }
  }

  /** Taking at most all of something takes at most what is there. */
  lemma {:induction false} MulFloorAtMost(x: nat, r: Decimal)
    requires r <= ONE
    ensures MulFloor(x, r) <= x
  {
    MulMonotone(r, ONE, x);
    assert x * r <= x * ONE;
    DivMonotone(x * r, x * ONE, ONE);
    MultipleMod(x, ONE);
  }

  /** `n / d` of `x`: two truncations, ratio first. */
  function Cut(x: nat, n: nat, d: nat): nat
    requires d > 0
  {
    MulFloor(x, n * ONE / d)
  }

  /** A cut is at most the exact part `x * n / d`, and short of it by less than `1 + x / 10^18`. */
  lemma {:induction false} CutBounds(x: nat, n: nat, d: nat)
    requires d > 0
    ensures var a := Cut(x, n, d);
      a * d <= x * n && (x * n - a * d) * ONE < d * (ONE + x)
  {
    var ratio := n * ONE / d;
    DivBounds(n * ONE, d);
    DivBounds(x * ratio, ONE);
    CutUpper(x, n, d, ratio, Cut(x, n, d));
    CutLower(x, n, d, ratio, Cut(x, n, d));
  }

  lemma {:induction false} CutUpper(x: nat, n: nat, d: nat, ratio: nat, a: nat)
    requires ratio * d <= n * ONE && a * ONE <= x * ratio
    ensures a * d <= x * n
  {
    MulMonotone(a * ONE, x * ratio, d);
    MulMonotone(ratio * d, n * ONE, x);
    assert (a * d) * ONE == (a * ONE) * d;
    assert (x * ratio) * d == (ratio * d) * x;
    assert (n * ONE) * x == (x * n) * ONE;
  }

  lemma {:induction false} CutLower(x: nat, n: nat, d: nat, ratio: nat, a: nat)
    requires d > 0 && n * ONE < ratio * d + d && x * ratio < a * ONE + ONE
    ensures (x * n - a * d) * ONE < d * (ONE + x)
  {
    MulMonotone(n * ONE, ratio * d + d, x);
    MulMonotone(x * ratio + 1, a * ONE + ONE, d);
    calc {
      (x * n) * ONE;
      == (n * ONE) * x;
      <= (ratio * d + d) * x;
      == (x * ratio) * d + d * x;
      < (a * ONE + ONE) * d + d * x;
      == (a * d) * ONE + d * (ONE + x);
    }
  }
}
