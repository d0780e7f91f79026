/** Small facts about products, quotients and remainders that the solver does not find on its own. */
module Arithmetic {

  lemma {:induction false} MulMonotone(a: int, b: int, d: int)
    requires a <= b && d >= 0
    ensures a * d <= b * d
  {
    assert (b - a) * d >= 0;
  }

  lemma {:induction false} DivModUnique(x: int, d: int, q: int, r: int)
    requires d > 0 && 0 <= r < d && x == q * d + r
    ensures x / d == q && x % d == r
  {
    var q', r' := x / d, x % d;
    assert x == q' * d + r';
    if q' < q {
      MulMonotone(q' + 1, q, d);
    } else if q < q' {
      MulMonotone(q + 1, q', d);
    }
  }

  lemma {:induction false} DivMod(x: int, d: int)
    requires d > 0
    ensures x == (x / d) * d + x % d && 0 <= x % d < d
    ensures x >= 0 ==> x / d >= 0
  {
  }

  /** `n` is at most the quotient exactly when `n` divisors fit. */
  lemma {:induction false} DivAtLeast(x: int, d: int, n: int)
    requires d > 0
    ensures n <= x / d <==> n * d <= x
  {
    DivMod(x, d);
    var q := x / d;
    if n <= q {
      MulMonotone(n, q, d);
    } else {
      MulMonotone(q + 1, n, d);
    }
  }

  lemma {:induction false} DivMonotone(x: int, y: int, d: int)
    requires d > 0 && x <= y
    ensures x / d <= y / d
  {
    DivMod(x, d);
    DivAtLeast(y, d, x / d);
  }

  lemma {:induction false} MultipleMod(q: int, d: int)
    requires d > 0
    ensures (q * d) % d == 0 && (q * d) / d == q
  {
    DivModUnique(q * d, d, q, 0);
  }

  lemma {:induction false} SumOfMultiples(x: int, y: int, d: int)
    requires d > 0 && x % d == 0 && y % d == 0
    ensures (x + y) % d == 0
  {
    DivMod(x, d);
    DivMod(y, d);
    assert x + y == (x / d + y / d) * d;
    MultipleMod(x / d + y / d, d);
  }

  lemma {:induction false} PositiveMultiple(x: int, d: int)
    requires d > 0 && x > 0 && x % d == 0
    ensures x >= d
  {
    DivMod(x, d);
    if x / d <= 0 {
      MulMonotone(x / d, 0, d);
    } else {
      MulMonotone(1, x / d, d);
    }
  }
}
