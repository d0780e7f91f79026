/** The swap action: resizing the amount to the price, accepting a quote, and choosing among routes. */
module Swaps {
  import opened Outcomes
  import opened Arithmetic
  import opened Decimals
  import opened Money
  import opened Runs

  datatype Adjustment = Fixed | LinearScalar(baseReceive: nat, minimum: Option<nat>, scalar: Decimal)

  /** A Thorchain route caches the streaming swap it was last quoted for. */
  datatype Route = Fin(pair: Address) | Thorchain(settings: string, latestSwap: Option<string>)

  /** The amounts of a swap; denoms play no part below. */
  datatype Quote = Quote(swap: nat, minimumReceive: nat, maxSlippageBps: nat, adjustment: Adjustment)

  datatype Adjusted = Adjusted(swap: nat, minimumReceive: nat)

  // ---- Resizing ----

  /** `Decimal / Decimal`: truncates, and panics on zero. */
  function DivDecimal(a: Decimal, b: Decimal): Outcome<Decimal> {
    FromRatio(a, b)
  }

  /** The price's relative distance from the base price, times the scalar. */
  function Steer(gap: Decimal, base: Decimal, scalar: Decimal): Decimal
    requires base > 0
  {
    gap * ONE / base * scalar / ONE
  }

  /** A better price than the base price scales the amount up, a worse one down. */
  function Factor(current: Decimal, base: Decimal, scalar: Decimal): Decimal
    requires base > 0
  {
    var scaled := Steer(AbsDiff(base, current), base, scalar);
    if current < base then SaturatingAdd(ONE, scaled) else SaturatingSub(ONE, scaled)
  }

  function Scaled(swap: nat, current: Decimal, base: Decimal, scalar: Decimal): nat
    requires base > 0
  {
    MulFloor(swap, Factor(current, base, scalar))
  }

  function Clamp(balance: nat, amount: nat, minimum: Option<nat>): nat {
    Min(balance, Max(amount, if minimum.Some? then minimum.value else 0))
  }

  /** The size a linear scalar gives a swap quoted at `expected` out. */
  function NewSize(balance: nat, q: Quote, expected: nat): nat
    requires q.adjustment.LinearScalar? && expected > 0 && q.adjustment.baseReceive > 0
    requires q.swap * ONE / q.adjustment.baseReceive > 0
  {
    var swap := Min(balance, q.swap);
    var base := q.swap * ONE / q.adjustment.baseReceive;
    Clamp(balance, Scaled(swap, swap * ONE / expected, base, q.adjustment.scalar), q.adjustment.minimum)
  }

  /** `SwapQuote<New>::adjust`; `expected` is the route's answer for the full amount. */
  function Adjust(q: Quote, balance: Outcome<nat>, expected: Outcome<nat>): Outcome<Adjusted> {
    var b :- balance;
    var swap := Min(b, q.swap);
    if swap == 0 then Err
    else
      match q.adjustment
      case Fixed =>
        var ratio :- FromRatio(swap, q.swap);
        Ok(Adjusted(swap, MulFloor(q.minimumReceive, ratio)))
      case LinearScalar(baseReceive, minimum, scalar) =>
        var out :- expected;
        if out == 0 then Err
        else
          var base :- FromRatio(q.swap, baseReceive);
          var current :- FromRatio(swap, out);
          var delta :- DivDecimal(AbsDiff(base, current), base);
          var size := NewSize(b, q, out);
          if size == 0 then Err
          else
            var ratio :- FromRatio(size, q.swap);
            Ok(Adjusted(size, MulCeil(q.minimumReceive, ratio)))
  }

  lemma {:induction false} FactorMonotone(current: Decimal, current': Decimal, base: Decimal, scalar: Decimal)
    requires base > 0 && current' <= current
    ensures Factor(current, base, scalar) <= Factor(current', base, scalar)
  {
    if current < base {
      SteerMonotone(base - current, base - current', base, scalar);
    } else if base <= current' {
      SteerMonotone(current' - base, current - base, base, scalar);
    }
  }

  lemma {:induction false} SteerMonotone(a: nat, b: nat, base: nat, scalar: nat)
    requires base > 0 && a <= b
    ensures Steer(a, base, scalar) <= Steer(b, base, scalar)
  {
    MulMonotone(a, b, ONE);
    DivMonotone(a * ONE, b * ONE, base);
    var x, y := a * ONE / base, b * ONE / base;
    MulMonotone(x, y, scalar);
    DivMonotone(x * scalar, y * scalar, ONE);
  }

  lemma {:induction false} MulFloorMonotone(x: nat, r: Decimal, r': Decimal)
    requires r <= r'
    ensures MulFloor(x, r) <= MulFloor(x, r')
  {
    MulMonotone(r, r', x);
    DivMonotone(x * r, x * r', ONE);
  }

  lemma {:induction false} QuotientAntitone(x: nat, d: nat, d': nat)
    requires 0 < d <= d'
    ensures x / d' <= x / d
  {
    DivMod(x, d');
    MulMonotone(d, d', x / d');
    DivAtLeast(x, d, x / d');
  }

  /** With balance and settings fixed, a larger quoted output never gives a smaller size, through every truncation. */
  lemma {:induction false} ResizingIsMonotone(balance: nat, q: Quote, expected: nat, expected': nat)
    requires q.adjustment.LinearScalar? && q.adjustment.baseReceive > 0 && 0 < expected <= expected'
    requires q.swap * ONE / q.adjustment.baseReceive > 0
    ensures NewSize(balance, q, expected) <= NewSize(balance, q, expected')
  {
    var swap := Min(balance, q.swap);
    QuotientAntitone(swap * ONE, expected, expected');
    var base, scalar := q.swap * ONE / q.adjustment.baseReceive, q.adjustment.scalar;
    FactorMonotone(swap * ONE / expected, swap * ONE / expected', base, scalar);
    MulFloorMonotone(swap, Factor(swap * ONE / expected, base, scalar), Factor(swap * ONE / expected', base, scalar));
  }

  /** So does the whole adjustment: where it goes through, it does for every larger output, to no less. */
  lemma {:induction false} AdjustIsMonotone(q: Quote, balance: nat, expected: nat, expected': nat)
    requires q.adjustment.LinearScalar? && expected <= expected' && Adjust(q, Ok(balance), Ok(expected)).Ok?
    ensures Adjust(q, Ok(balance), Ok(expected')).Ok?
    ensures var r, r' := Adjust(q, Ok(balance), Ok(expected)).value, Adjust(q, Ok(balance), Ok(expected')).value;
      r.swap <= r'.swap && r.minimumReceive <= r'.minimumReceive
  {
    ResizingIsMonotone(balance, q, expected, expected');
    var size, size' := NewSize(balance, q, expected), NewSize(balance, q, expected');
    MulMonotone(size, size', ONE);
    DivMonotone(size * ONE, size' * ONE, q.swap);
    MulCeilMonotone(q.minimumReceive, size * ONE / q.swap, size' * ONE / q.swap);
  }

  /**
   * A resized swap asks for the proportional minimum, rounded: less than one above the exact part, and short of it by
   * at most `minimum / 10^18`.
   */
  lemma {:induction false} ResizedKeepsPrice(q: Quote, balance: nat, expected: nat)
    requires q.adjustment.LinearScalar? && Adjust(q, Ok(balance), Ok(expected)).Ok?
    ensures var r, minimum := Adjust(q, Ok(balance), Ok(expected)).value, q.minimumReceive;
      && r.minimumReceive * q.swap < minimum * r.swap + q.swap
      && (minimum * r.swap - r.minimumReceive * q.swap) * ONE <= q.swap * minimum
  {
    var size := Adjust(q, Ok(balance), Ok(expected)).value.swap;
    CeilCutBounds(q.minimumReceive, size, q.swap);
  }

  lemma {:induction false} CeilCutBounds(x: nat, n: nat, d: nat)
    requires d > 0
    ensures var m := MulCeil(x, n * ONE / d);
      m * d < x * n + d && (x * n - m * d) * ONE <= d * x
  {
    var ratio := n * ONE / d;
    var m := MulCeil(x, ratio);
    DivBounds(n * ONE, d);
    CeilBounds(x * ratio, ONE);
    if m == 0 {
      assert m * d == 0;
    } else {
      CeilCutUpper(x, n, d, ratio, m);
    }
    CeilCutLower(x, n, d, ratio, m);
  }

  lemma {:induction false} CeilCutUpper(x: nat, n: nat, d: nat, ratio: nat, m: nat)
    requires d > 0 && ratio * d <= n * ONE && (m - 1) * ONE < x * ratio
    ensures m * d < x * n + d
  {
    MulMonotone((m - 1) * ONE + 1, x * ratio, d);
    MulMonotone(ratio * d, n * ONE, x);
    assert ((m - 1) * ONE) * d == (m * d - d) * ONE;
    assert (x * ratio) * d == (ratio * d) * x;
    assert (n * ONE) * x == (x * n) * ONE;
  }

  lemma {:induction false} CeilCutLower(x: nat, n: nat, d: nat, ratio: nat, m: nat)
    requires n * ONE < ratio * d + d && m * ONE >= x * ratio
    ensures (x * n - m * d) * ONE <= d * x
  {
    MulMonotone(x * ratio, m * ONE, d);
    MulMonotone(n * ONE, ratio * d + d, x);
    assert (x * ratio) * d == (ratio * d) * x;
    assert (m * ONE) * d == (m * d) * ONE;
    assert (n * ONE) * x == (x * n) * ONE;
    assert (ratio * d + d) * x == (ratio * d) * x + d * x;
  }

  lemma {:induction false} MulCeilMonotone(x: nat, r: Decimal, r': Decimal)
    requires r <= r'
    ensures MulCeil(x, r) <= MulCeil(x, r')
  {
    MulMonotone(r, r', x);
    CeilAtMost(x * r', ONE, MulCeil(x, r'));
    CeilAtMost(x * r, ONE, MulCeil(x, r'));
  }

  /**
   * The new size is within the balance, and reaches the configured minimum if the balance does. It is the size asked
   * for, no more than it, or no less, as the price is at, above or below the base price.
   */
  lemma {:induction false} ResizingIsBounded(balance: nat, q: Quote, expected: nat)
    requires q.adjustment.LinearScalar? && q.adjustment.baseReceive > 0 && expected > 0
    requires q.swap * ONE / q.adjustment.baseReceive > 0
    ensures var size, swap := NewSize(balance, q, expected), Min(balance, q.swap);
      var base, current := q.swap * ONE / q.adjustment.baseReceive, swap * ONE / expected;
      var minimum := if q.adjustment.minimum.Some? then q.adjustment.minimum.value else 0;
      && size <= balance && size >= Min(balance, minimum)
      && (current == base ==> size == Clamp(balance, swap, q.adjustment.minimum))
      && (current > base ==> size <= Max(swap, minimum))
      && (current < base ==> size >= swap)
  {
    var swap := Min(balance, q.swap);
    ScaledSide(swap, swap * ONE / expected, q.swap * ONE / q.adjustment.baseReceive, q.adjustment.scalar);
  }

  lemma {:induction false} ScaledSide(swap: nat, current: Decimal, base: Decimal, scalar: Decimal)
    requires base > 0
    ensures current == base ==> Scaled(swap, current, base, scalar) == swap
    ensures current > base ==> Scaled(swap, current, base, scalar) <= swap
    ensures current < base ==> Scaled(swap, current, base, scalar) >= swap
  {
    MultipleMod(swap, ONE);
    assert MulFloor(swap, ONE) == swap;
    if current == base {
      ZeroSteer(base, scalar);
    } else if current > base {
      MulFloorMonotone(swap, Factor(current, base, scalar), ONE);
    } else {
      MulFloorMonotone(swap, ONE, Factor(current, base, scalar));
    }
  }

  lemma {:induction false} ZeroSteer(base: nat, scalar: nat)
    requires base > 0
    ensures Steer(0, base, scalar) == 0
  {
    DivModUnique(0, base, 0, 0);
    assert 0 * scalar == 0;
  }

  /**
   * `size` comes of `steer`, which is the price's relative distance from the base price times the scalar, truncated:
   * the funded part grows by `steer` when the price is better than the base price, and shrinks by it when worse.
   */
  predicate SizedBy(q: Quote, balance: nat, expected: nat, steer: Decimal, size: nat)
    requires q.adjustment.LinearScalar? && q.adjustment.baseReceive > 0 && expected > 0
  {
    var LinearScalar(baseReceive, minimum, scalar) := q.adjustment;
    var swap, base := Min(balance, q.swap), q.swap * ONE / baseReceive;
    var current := swap * ONE / expected;
    var gap := if current < base then base - current else current - base;
    var factor := if current < base then Min(ONE + steer, MAX_U128) else if steer <= ONE then ONE - steer else 0;
    && steer * base <= gap * scalar && (gap * scalar - steer * base) * ONE < base * (ONE + scalar)
    && var scaled := swap * factor / ONE;
    && var least := if minimum.Some? && minimum.value > scaled then minimum.value else scaled;
    && size == if balance <= least then balance else least
  }

  /** With something to swap and a quote for it, a linear scalar goes through exactly when its size is not zero. */
  lemma {:induction false} AdjustsExactly(q: Quote, balance: nat, expected: nat) returns (steer: Decimal, size: nat)
    requires q.adjustment.LinearScalar? && Min(balance, q.swap) > 0 && expected > 0
    ensures var r := Adjust(q, Ok(balance), Ok(expected));
      && (r.Panic? <==> q.adjustment.baseReceive == 0 || q.swap * ONE / q.adjustment.baseReceive == 0)
      && (!r.Panic? ==>
            && SizedBy(q, balance, expected, steer, size)
            && (r.Ok? <==> size > 0)
            && (r.Ok? ==> r.value.swap == size))
  {
    steer, size := 0, 0;
    var LinearScalar(baseReceive, _, scalar) := q.adjustment;
    if baseReceive > 0 && q.swap * ONE / baseReceive > 0 {
      var base, current := q.swap * ONE / baseReceive, Min(balance, q.swap) * ONE / expected;
      var gap := AbsDiff(base, current);
      steer, size := Steer(gap, base, scalar), NewSize(balance, q, expected);
      assert steer == Cut(scalar, gap, base);
      CutBounds(scalar, gap, base);
    }
  }

  /** Nothing is adjusted without a balance and something to swap, nor, by a scalar, without a quote for something. */
  lemma {:induction false} AdjustNeeds(q: Quote, balance: Outcome<nat>, expected: Outcome<nat>)
    ensures balance.Err? || (balance.Ok? && Min(balance.value, q.swap) == 0) ==> Adjust(q, balance, expected) == Err
    ensures balance.Ok? && q.adjustment.LinearScalar? && (expected.Err? || expected == Ok(0)) ==>
              Adjust(q, balance, expected) == Err
  {
  }

  /**
   * A partly funded fixed swap keeps its price: the minimum shrinks in proportion to the swap, and is short of the
   * exact part by less than `1 + minimum / 10^18`; a fully funded one keeps its minimum.
   */
  lemma {:induction false} FixedKeepsPrice(q: Quote, balance: nat)
    requires q.adjustment.Fixed? && Min(balance, q.swap) > 0
    ensures var r, minimum := Adjust(q, Ok(balance), Err), q.minimumReceive;
      && r.Ok? && r.value.swap == Min(balance, q.swap)
      && r.value.minimumReceive * q.swap <= minimum * r.value.swap
      && (minimum * r.value.swap - r.value.minimumReceive * q.swap) * ONE < q.swap * (ONE + minimum)
      && (q.swap <= balance ==> r.value == Adjusted(q.swap, minimum))
  {
    CutBounds(q.minimumReceive, Min(balance, q.swap), q.swap);
    if q.swap <= balance {
      MultipleMod(ONE, q.swap);
      MultipleMod(q.minimumReceive, ONE);
    }
  }

  // ---- Accepting a FIN quote ----

  /** `FinRoute::validate_adjusted`, from the simulated output and the pair's mid price. */
  function ValidateFin(a: Adjusted, maxSlippageBps: nat, simulated: Outcome<nat>, midPrice: Outcome<Decimal>,
                       sellsBase: bool): Outcome<nat>
  {
    if a.swap == 0 then Err
    else
      var expected :- simulated;
      if expected < a.minimumReceive then Err
      else
        var mid :- midPrice;
        var spot :- if sellsBase then DivDecimal(ONE, mid) else Ok(mid);
        var rate :- DivDecimal(ONE, spot);
        var optimal := Optimal(a, expected, rate);
        var ratio :- FromRatio(expected, optimal);
        if Slippage(ratio) > maxSlippageBps then Err else Ok(expected)
  }

  function Optimal(a: Adjusted, expected: nat, rate: Decimal): nat {
    Max(expected, MulFloor(a.swap, rate))
  }

  function Slippage(ratio: Decimal): nat {
    MulCeil(10_000, if ratio <= ONE then ONE - ratio else ONE)
  }

  lemma {:induction false} RatioAtMostOne(expected: nat, optimal: nat)
    requires 0 < optimal && expected <= optimal
    ensures expected * ONE / optimal <= ONE
  {
    MulMonotone(expected, optimal, ONE);
    DivMonotone(expected * ONE, optimal * ONE, optimal);
    MultipleMod(ONE, optimal);
  }

  lemma {:induction false} SlippageLimit(ratio: Decimal, maxSlippageBps: nat)
    requires ratio <= ONE
    ensures Slippage(ratio) <= maxSlippageBps <==> ONE / 10_000 * (10_000 - maxSlippageBps) <= ratio
  {
    CeilAtMost(10_000 * (ONE - ratio), ONE, maxSlippageBps);
  }

  lemma {:induction false} ScaleBoth(a: int, b: int, unit: int)
    requires unit > 0
    ensures unit * a <= unit * b <==> a <= b
  {
    if a <= b {
      MulMonotone(a, b, unit);
    } else {
      MulMonotone(b + 1, a, unit);
    }
  }

  /** Rounding notwithstanding, the slippage test is exact. */
  lemma {:induction false} SlippageIsExact(expected: nat, optimal: nat, maxSlippageBps: nat)
    requires 0 < optimal && expected <= optimal
    ensures Slippage(expected * ONE / optimal) <= maxSlippageBps <==>
            optimal * (10_000 - maxSlippageBps) <= expected * 10_000
  {
    RatioAtMostOne(expected, optimal);
    SlippageLimit(expected * ONE / optimal, maxSlippageBps);
    RatioReaches(expected, optimal, 10_000 - maxSlippageBps, ONE / 10_000, 10_000, ONE);
  }

  lemma {:induction false} RatioReaches(expected: nat, optimal: nat, m: int, unit: nat, parts: nat, one: nat)
    requires optimal > 0 && unit > 0 && one == unit * parts
    ensures unit * m <= expected * one / optimal <==> optimal * m <= expected * parts
  {
    DivAtLeast(expected * one, optimal, unit * m);
    assert (unit * m) * optimal == unit * (optimal * m);
    assert expected * one == unit * (expected * parts);
    ScaleBoth(optimal * m, expected * parts, unit);
  }

  predicate Invertible(mid: Decimal, sellsBase: bool) {
    mid > 0 && (sellsBase ==> ONE * ONE / mid > 0)
  }

  /** The output at the mid price, which is in quote for base: inverted once to sell the quote side, twice for base. */
  function AtMid(swap: nat, mid: Decimal, sellsBase: bool): nat
    requires Invertible(mid, sellsBase)
  {
    if sellsBase then Cut(swap, ONE, ONE * ONE / mid) else Cut(swap, ONE, mid)
  }

  /**
   * How far the truncations take that output from `swap / mid`, or from `swap * mid` for the base side: the single
   * inversion only lowers it, by less than `1 + swap / 10^18`; the double one also raises it, by `mid / 10^36` of it.
   */
  lemma {:induction false} AtMidBounds(swap: nat, mid: Decimal, sellsBase: bool)
    requires Invertible(mid, sellsBase)
    ensures var x := AtMid(swap, mid, sellsBase);
      && (!sellsBase ==> x * mid <= swap * ONE && (swap * ONE - x * mid) * ONE < mid * (ONE + swap))
      && (sellsBase ==> swap * mid < x * ONE + ONE + swap && x * (ONE * ONE - mid) <= swap * mid * ONE)
  {
    if sellsBase {
      var spot := ONE * ONE / mid;
      CutBounds(swap, ONE, spot);
      DivBounds(ONE * ONE, mid);
      TwiceInvertedLower(swap, mid, spot, AtMid(swap, mid, true), ONE);
      TwiceInvertedUpper(swap, mid, spot, AtMid(swap, mid, true), ONE);
    } else {
      CutBounds(swap, ONE, mid);
    }
  }

  lemma {:induction false} TwiceInvertedLower(swap: nat, mid: nat, spot: nat, x: nat, one: nat)
    requires mid > 0 && one > 0 && spot * mid <= one * one
    requires (swap * one - x * spot) * one < spot * (one + swap)
    ensures swap * mid < x * one + one + swap
  {
    var a, b := swap * one - x * spot, one + swap;
    MulMonotone(a * one + 1, spot * b, mid);
    assert (spot * b) * mid == (spot * mid) * b;
    InOnes(swap, mid, spot, x, one);
    LessThanSum((a * one) * mid, spot * mid, one * one, swap * mid, b, x * one);
  }

  lemma {:induction false} LessThanSum(p: int, s: nat, t: nat, m: int, b: nat, c: nat)
    requires p < s * b && p == t * m - s * c && s <= t
    ensures m < c + b
  {
    assert s * (c + b) == s * c + s * b;
    MulMonotone(s, t, c + b);
    if m >= c + b {
      MulMonotone(c + b, m, t);
    }
  }

  lemma {:induction false} InOnes(swap: int, mid: int, spot: int, x: int, one: int)
    ensures ((swap * one - x * spot) * one) * mid == (one * one) * (swap * mid) - (spot * mid) * (x * one)
  {
    calc {
      ((swap * one - x * spot) * one) * mid;
      == (swap * one - x * spot) * (one * mid);
      == (swap * one) * (one * mid) - (x * spot) * (one * mid);
      == (one * one) * (swap * mid) - (spot * mid) * (x * one);
    }
  }

  lemma {:induction false} TwiceInvertedUpper(swap: nat, mid: nat, spot: nat, x: nat, one: nat)
    requires x * spot <= swap * one && one * one < spot * mid + mid
    ensures x * (one * one - mid) <= swap * mid * one
  {
    MulMonotone(x * spot, swap * one, mid);
    MulMonotone(one * one - mid, spot * mid, x);
    assert (swap * one) * mid == swap * mid * one;
    assert (x * spot) * mid == (spot * mid) * x;
  }

  /**
   * A quote that meets its minimum aborts, and with it the choice among all routes, exactly when the mid price cannot
   * be inverted, or nothing comes out and the mid price gives nothing either.
   */
  predicate AbortsFin(a: Adjusted, expected: nat, mid: Decimal, sellsBase: bool) {
    && expected >= a.minimumReceive
    && (Invertible(mid, sellsBase) ==> expected == 0 && AtMid(a.swap, mid, sellsBase) == 0)
  }

  /**
   * A quote is accepted exactly when it does not abort, meets its minimum, and gives at least the output at the mid
   * price less the slippage limit; it aborts exactly as said, and is rejected otherwise.
   */
  lemma {:induction false} FinAcceptsExactly(a: Adjusted, maxSlippageBps: nat, expected: nat, mid: Decimal,
                                             sellsBase: bool)
    requires a.swap > 0
    ensures var r := ValidateFin(a, maxSlippageBps, Ok(expected), Ok(mid), sellsBase);
      && (r.Panic? <==> AbortsFin(a, expected, mid, sellsBase))
      && (r.Ok? ==> r.value == expected)
      && (r.Ok? <==>
          && !AbortsFin(a, expected, mid, sellsBase)
          && expected >= a.minimumReceive
          && AtMid(a.swap, mid, sellsBase) * (10_000 - maxSlippageBps) <= expected * 10_000)
  {
    if Invertible(mid, sellsBase) {
      var atMid := AtMid(a.swap, mid, sellsBase);
      var optimal := Max(expected, atMid);
      if optimal > 0 {
        SlippageIsExact(expected, optimal, maxSlippageBps);
        SlippageOfMore(expected, atMid, maxSlippageBps);
      }
    }
  }

  /** Without something to swap or an answer from the pair the quote is rejected, and so it is below its minimum. */
  lemma {:induction false} FinNeeds(a: Adjusted, maxSlippageBps: nat, simulated: Outcome<nat>,
                                    midPrice: Outcome<Decimal>, sellsBase: bool)
    ensures a.swap == 0 || simulated.Err? || (simulated.Ok? && simulated.value < a.minimumReceive) ==>
              ValidateFin(a, maxSlippageBps, simulated, midPrice, sellsBase) == Err
    ensures simulated.Ok? && midPrice.Err? ==> ValidateFin(a, maxSlippageBps, simulated, midPrice, sellsBase) == Err
  {
  }

  /** An output is always within any limit of itself, so the larger of the two asks for no more. */
  lemma {:induction false} SlippageOfMore(expected: nat, atMid: nat, maxSlippageBps: nat)
    ensures Max(expected, atMid) * (10_000 - maxSlippageBps) <= expected * 10_000 <==>
            atMid * (10_000 - maxSlippageBps) <= expected * 10_000
  {
    var keep := 10_000 - maxSlippageBps;
    MulMonotone(keep, 10_000, expected);
    if atMid < expected {
      if keep >= 0 {
        MulMonotone(atMid, expected, keep);
      } else {
        MulMonotone(keep, 0, atMid);
      }
    }
  }

  // ---- Choosing among routes ----

  /** A route's quote, adjusted and validated: its expected output, or why it is no use. */
  type Quoter = Route -> Outcome<nat>

  predicate Valid(route: Route, quote: Quoter) {
    quote(route).Ok? && quote(route).value > 0
  }

  /** Index `i` is the first route with the largest positive output. */
  predicate IsBest(routes: seq<Route>, quote: Quoter, i: nat) {
    && i < |routes| && Valid(routes[i], quote)
    && (forall j :: 0 <= j < |routes| && quote(routes[j]).Ok? ==> quote(routes[j]).value <= quote(routes[i]).value)
    && (forall j :: 0 <= j < i && quote(routes[j]).Ok? ==> quote(routes[j]).value < quote(routes[i]).value)
  }

  lemma {:induction false} BestIsUnique(routes: seq<Route>, quote: Quoter, i: nat, j: nat)
    requires IsBest(routes, quote, i) && IsBest(routes, quote, j)
    ensures i == j
  {
  }

  predicate Aborts(routes: seq<Route>, quote: Quoter) {
    exists j :: 0 <= j < |routes| && quote(routes[j]).Panic?
  }

  /** The route chosen: none if no output is positive. A route that aborts aborts the call. */
  ghost function Best(routes: seq<Route>, quote: Quoter): (r: Outcome<nat>)
    ensures r.Ok? ==> IsBest(routes, quote, r.value)
  {
    if Aborts(routes, quote) then Panic
    else if exists i :: IsBest(routes, quote, i) then
      var i :| IsBest(routes, quote, i);
      Ok(i)
    else Err
  }

  lemma {:induction false} BestIs(routes: seq<Route>, quote: Quoter, i: nat)
    requires IsBest(routes, quote, i) && !Aborts(routes, quote)
    ensures Best(routes, quote) == Ok(i)
  {
    BestIsUnique(routes, quote, i, Best(routes, quote).value);
  }

  /**
   * Picks the first route whose expected output is the largest, and fails exactly when no route validates with a
   * positive output.
   */
  method BestQuote(routes: seq<Route>, quote: Quoter) returns (r: Outcome<nat>)
    ensures r == Best(routes, quote)
    ensures r.Panic? <==> exists j :: 0 <= j < |routes| && quote(routes[j]).Panic?
    ensures r.Ok? ==> IsBest(routes, quote, r.value)
    ensures r.Err? ==> forall j :: 0 <= j < |routes| ==> !Valid(routes[j], quote)
  {
    var best: Option<nat> := None;
    var bestAmount := 0;
    for i := 0 to |routes|
      invariant forall j :: 0 <= j < i ==> !quote(routes[j]).Panic?
      invariant best.None? ==> bestAmount == 0 && forall j :: 0 <= j < i ==> !Valid(routes[j], quote)
      invariant best.Some? ==> IsBest(routes[..i], quote, best.value) && quote(routes[best.value]) == Ok(bestAmount)
    {
      var q := quote(routes[i]);
      match q {
        case Panic => return Panic;
        case Err =>
        case Ok(amount) =>
          if amount > bestAmount {
            bestAmount := amount;
            best := Some(i);
          }
      }
    }
    assert routes[..|routes|] == routes;
    if best.Some? {
      BestIs(routes, quote, best.value);
    }
    r := if best.Some? then Ok(best.value) else Err;
  }

  /**
   * An input for aborting: one unit left of a fixed swap, for which the pair gives nothing at a price of two. No other
   * route is chosen then, however good.
   */
  lemma {:induction false} DustAborts(pair: Route, other: Route, quote: Quoter)
    requires quote(pair) == ValidateFin(Adjusted(1, 0), 100, Ok(0), Ok(2 * ONE), false) && quote(other) == Ok(5)
    ensures Adjust(Quote.Quote(1000, 500, 100, Fixed), Ok(1), Err) == Ok(Adjusted(1, 0))
    ensures quote(pair) == Panic && Best([pair, other], quote) == Panic && Best([other], quote) == Ok(0)
  {
    FinAcceptsExactly(Adjusted(1, 0), 100, 0, 2 * ONE, false);
    assert [pair, other][0] == pair;
    BestIs([other], quote, 0);
  }

  // ---- What a swap does to the list of routes ----

  datatype Kind = OnFin | OnThorchain

  function KindOf(r: Route): Kind {
    if r.Fin? then OnFin else OnThorchain
  }

  /** A route without what it cached. */
  function Terms(r: Route): Route {
    if r.Fin? then r else r.(latestSwap := None)
  }

  /**
   * What one swap is told: the output of each route, the streaming swap a Thorchain quote comes with, and whether
   * the message can be built. Quotes do not look at what a route has cached.
   */
  datatype Answers = Answers(
    output: Route -> Outcome<nat>,
    streaming: Route -> string,
    message: Route -> Outcome<Message>)

  function QuoterOf(a: Answers): Quoter {
    (r: Route) => a.output(Terms(r))
  }

  /** The route as it comes back from its quote. */
  function AsQuoted(r: Route, a: Answers): Route {
    if r.Fin? then r else r.(latestSwap := Some(a.streaming(Terms(r))))
  }

  /** Every route of the winner's kind is replaced by the winner. */
  function UpdatedRoutes(routes: seq<Route>, winner: Route): (updated: seq<Route>)
    ensures |updated| == |routes|
  {
    seq(|routes|, i requires 0 <= i < |routes| => if KindOf(routes[i]) == KindOf(winner) then winner else routes[i])
  }

  /** `execute_unsafe`: the message, and the routes it leaves. */
  ghost function Execute(routes: seq<Route>, a: Answers): Outcome<(Message, seq<Route>)> {
    var i :- Best(routes, QuoterOf(a));
    var winner := AsQuoted(routes[i], a);
    var message :- a.message(winner);
    Ok((message, UpdatedRoutes(routes, winner)))
  }

  method ExecuteUnsafe(routes: seq<Route>, a: Answers) returns (r: Outcome<(Message, seq<Route>)>)
    ensures r == Execute(routes, a)
  {
    var best := BestQuote(routes, QuoterOf(a));
    if best.IsFailure() {
      return best.PropagateFailure();
    }
    var winner := AsQuoted(routes[best.value], a);
    var message := a.message(winner);
    if message.IsFailure() {
      return message.PropagateFailure();
    }
    r := Ok((message.value, UpdatedRoutes(routes, winner)));
  }

  /**
   * When route `b` quotes the most, the first to do so, the swap is that route's: it sends the message of the route as
   * it was quoted, and that is what every route of its kind becomes; it fails if that message does.
   */
  lemma {:induction false} SwapsWithTheBest(routes: seq<Route>, a: Answers, b: nat)
    requires IsBest(routes, QuoterOf(a), b) && !Aborts(routes, QuoterOf(a))
    ensures var r, best := Execute(routes, a), routes[b];
      var winner := if best.Fin? then best
                    else Thorchain(best.settings, Some(a.streaming(Thorchain(best.settings, None))));
      var message := a.message(winner);
      && (r.Ok? <==> message.Ok?) && (r.Panic? <==> message.Panic?)
      && (r.Ok? ==>
            && r.value.0 == message.value && |r.value.1| == |routes|
            && forall i :: 0 <= i < |routes| ==>
                 r.value.1[i] == if routes[i].Fin? == best.Fin? then winner else routes[i])
  {
    BestIs(routes, QuoterOf(a), b);
  }

  /** With no best route, the swap fails: by aborting if a quote aborts, and with an error otherwise. */
  lemma {:induction false} SwapNeedsTheBest(routes: seq<Route>, a: Answers)
    ensures var quote, r := QuoterOf(a), Execute(routes, a);
      && (Aborts(routes, quote) ==> r.Panic?)
      && (!Aborts(routes, quote) ==>
            ((exists b :: IsBest(routes, quote, b)) <==> exists j :: 0 <= j < |routes| && Valid(routes[j], quote)))
      && (!Aborts(routes, quote) && !(exists j :: 0 <= j < |routes| && Valid(routes[j], quote)) ==> r.Err?)
  {
    var quote := QuoterOf(a);
    if j :| 0 <= j < |routes| && Valid(routes[j], quote) {
      BestOutputBounds(routes, quote);
      var b := FirstBest(routes, quote);
    }
  }

  // ---- Over all swaps ----

  /** The routes now, the kinds that have won a swap so far, and the streaming swap Thorchain last won with. */
  datatype Swapping = Swapping(routes: seq<Route>, won: set<Kind>, streaming: Option<string>)

  /** The list after a swap that `winner`, quoted as route `r`, has won. */
  function WonBy(s: Swapping, r: Route, winner: Route, a: Answers): Swapping {
    Swapping(UpdatedRoutes(s.routes, winner), s.won + {KindOf(r)},
             if r.Thorchain? then Some(a.streaming(Terms(r))) else s.streaming)
  }

  /** One swap; a failed one leaves the action as it was. Counts the swaps that go through. */
  ghost function SwapStep(): (Swapping, Answers) -> Outcome<(Swapping, bool)> {
    (s: Swapping, a: Answers) =>
      if Execute(s.routes, a).Ok? then
        var r := s.routes[Best(s.routes, QuoterOf(a)).value];
        Ok((WonBy(s, r, AsQuoted(r, a), a).(routes := Execute(s.routes, a).value.1), true))
      else Ok((s, false))
  }

  /** All routes of one kind are the same route. */
  ghost predicate OneRoute(routes: seq<Route>, k: Kind) {
    forall i, j :: 0 <= i < |routes| && 0 <= j < |routes| && KindOf(routes[i]) == k == KindOf(routes[j]) ==>
      routes[i] == routes[j]
  }

  /** A route of the list from the start, but for what it has cached. */
  ghost predicate From(original: seq<Route>, r: Route) {
    exists j :: 0 <= j < |original| && Terms(original[j]) == Terms(r)
  }

  /**
   * Position `i` keeps its kind, holds a route from the start, and its own if its kind has not won; a Thorchain route
   * that has won holds the streaming swap it last won with.
   */
  ghost predicate InPlace(original: seq<Route>, s: Swapping, i: nat)
    requires i < |s.routes| == |original|
  {
    && KindOf(s.routes[i]) == KindOf(original[i])
    && From(original, s.routes[i])
    && (KindOf(original[i]) !in s.won ==> s.routes[i] == original[i])
    && (s.routes[i].Thorchain? && OnThorchain in s.won ==> s.streaming.Some? && s.routes[i].latestSwap == s.streaming)
  }

  /** Positions keep their kind; a kind that has won is down to one route. */
  ghost predicate Narrowed(original: seq<Route>, s: Swapping) {
    && |s.routes| == |original|
    && (forall i :: 0 <= i < |original| ==> InPlace(original, s, i))
    && (forall k :: k in s.won ==> OneRoute(s.routes, k))
  }

  /** `winner` is route `b` of the list as its quote returned it. */
  predicate Won(routes: seq<Route>, b: nat, winner: Route, a: Answers) {
    && b < |routes|
    && Terms(winner) == Terms(routes[b]) && KindOf(winner) == KindOf(routes[b])
    && (winner.Thorchain? ==> winner.latestSwap == Some(a.streaming(Terms(winner))))
  }

  lemma {:induction false} WinnerInPlace(original: seq<Route>, s: Swapping, b: nat, winner: Route, a: Answers, i: nat)
    requires |s.routes| == |original| && i < |s.routes| && Won(s.routes, b, winner, a)
    requires InPlace(original, s, b) && InPlace(original, s, i)
    ensures InPlace(original, WonBy(s, s.routes[b], winner, a), i)
  {
    var j :| 0 <= j < |original| && Terms(original[j]) == Terms(s.routes[b]);
    assert From(original, winner);
  }

  /** What a winner does to a narrowed list: it came from the list, so the list only narrows further. */
  lemma {:induction false} WinnerNarrows(original: seq<Route>, s: Swapping, b: nat, winner: Route, a: Answers)
    requires Narrowed(original, s) && Won(s.routes, b, winner, a)
    ensures Narrowed(original, WonBy(s, s.routes[b], winner, a))
  {
    var s' := WonBy(s, s.routes[b], winner, a);
    forall i | 0 <= i < |original| ensures InPlace(original, s', i) {
      WinnerInPlace(original, s, b, winner, a, i);
    }
    forall k | k in s'.won ensures OneRoute(s'.routes, k) {
      WinnerIsAlone(s.routes, winner, k, s.won);
    }
  }

  lemma {:induction false} WinnerIsAlone(routes: seq<Route>, winner: Route, k: Kind, won: set<Kind>)
    requires k in won + {KindOf(winner)} && (k in won ==> OneRoute(routes, k))
    ensures OneRoute(UpdatedRoutes(routes, winner), k)
  {
  }

  /** A step that goes through replaces the winner's kind by a winner taken from the list. */
  lemma {:induction false} StepHasWinner(s: Swapping, a: Answers) returns (b: nat, winner: Route)
    requires Execute(s.routes, a).Ok?
    ensures Won(s.routes, b, winner, a) && SwapStep()(s, a) == Ok((WonBy(s, s.routes[b], winner, a), true))
  {
    b := Best(s.routes, QuoterOf(a)).value;
    winner := AsQuoted(s.routes[b], a);
  }

  lemma {:induction false} StepNarrows(original: seq<Route>, s: Swapping, a: Answers)
    requires Narrowed(original, s)
    ensures Narrowed(original, SwapStep()(s, a).value.0)
  {
    if Execute(s.routes, a).Ok? {
      var b, winner := StepHasWinner(s, a);
      WinnerNarrows(original, s, b, winner, a);
    }
  }

  lemma {:induction false} SwapsGoOn(s: Swapping, answers: seq<Answers>)
    ensures Repeat(SwapStep(), s, answers).Ok?
  {
    if answers != [] {
      SwapsGoOn(s, answers[..|answers| - 1]);
    }
  }

  /**
   * Over every sequence of swaps, each kind that has won has one distinct route left, with what it was last
   * quoted, and the others have all theirs.
   */
  lemma {:induction false} RoutesNarrow(original: seq<Route>, answers: seq<Answers>)
    ensures Repeat(SwapStep(), Swapping(original, {}, None), answers).Ok?
    ensures var (s, n) := Repeat(SwapStep(), Swapping(original, {}, None), answers).value;
      Narrowed(original, s) && (s.won == {} <==> n == 0)
  {
    var start := Swapping(original, {}, None);
    SwapsGoOn(start, answers);
    assert forall i :: 0 <= i < |original| ==> From(original, original[i]) && InPlace(original, start, i);
    var inv := (s: Swapping, n: nat) => Narrowed(original, s) && (s.won == {} <==> n == 0);
    forall k, s, n | 0 <= k < |answers| ensures StepKeeps(SwapStep(), answers[k], inv, s, n) {
      if inv(s, n) {
        StepNarrows(original, s, answers[k]);
      }
    }
    RepeatKeeps(SwapStep(), start, answers, inv);
  }

  /** The kinds won in `s` still hold the route they won with. */
  ghost predicate Holds(s: Swapping, s': Swapping) {
    && |s'.routes| == |s.routes| && s.won <= s'.won
    && forall i :: 0 <= i < |s.routes| && KindOf(s.routes[i]) in s.won ==> Terms(s'.routes[i]) == Terms(s.routes[i])
  }

  lemma {:induction false} WinnerHolds(s: Swapping, s': Swapping, b: nat, winner: Route, a: Answers)
    requires Holds(s, s') && Won(s'.routes, b, winner, a) && forall k :: k in s'.won ==> OneRoute(s'.routes, k)
    ensures Holds(s, WonBy(s', s'.routes[b], winner, a))
  {
    var k := KindOf(winner);
    forall i | 0 <= i < |s.routes| && KindOf(s.routes[i]) in s.won
      ensures Terms(UpdatedRoutes(s'.routes, winner)[i]) == Terms(s.routes[i])
    {
      assert KindOf(s'.routes[i]) == KindOf(Terms(s'.routes[i])) == KindOf(Terms(s.routes[i])) == KindOf(s.routes[i]);
      if KindOf(s'.routes[i]) == k {
        assert OneRoute(s'.routes, k);
        assert s'.routes[i] == s'.routes[b];
      }
    }
  }

  lemma {:induction false} StepHolds(s: Swapping, s': Swapping, a: Answers)
    requires Holds(s, s') && forall k :: k in s'.won ==> OneRoute(s'.routes, k)
    ensures Holds(s, SwapStep()(s', a).value.0)
  {
    if Execute(s'.routes, a).Ok? {
      var b, winner := StepHasWinner(s', a);
      WinnerHolds(s, s', b, winner, a);
    }
  }

  /** The first route of a kind to win a swap is that kind's route for ever after, whatever later swaps are told. */
  lemma {:induction false} FirstWinnerStays(original: seq<Route>, s: Swapping, answers: seq<Answers>)
    requires Narrowed(original, s)
    ensures Repeat(SwapStep(), s, answers).Ok? && Holds(s, Repeat(SwapStep(), s, answers).value.0)
  {
    SwapsGoOn(s, answers);
    var inv := (s': Swapping, n: nat) => Narrowed(original, s') && Holds(s, s');
    forall k, s', n | 0 <= k < |answers| ensures StepKeeps(SwapStep(), answers[k], inv, s', n) {
      if inv(s', n) {
        StepNarrows(original, s', answers[k]);
        StepHolds(s, s', answers[k]);
      }
    }
    RepeatKeeps(SwapStep(), s, answers, inv);
  }

  /** The output of the route that would be chosen, zero if there is none. */
  function BestOutput(routes: seq<Route>, quote: Quoter): nat {
    if routes == [] then 0
    else
      var last := quote(routes[|routes| - 1]);
      Max(BestOutput(routes[..|routes| - 1], quote), if last.Ok? then last.value else 0)
  }

  lemma {:induction false} BestOutputBounds(routes: seq<Route>, quote: Quoter)
    ensures forall j :: 0 <= j < |routes| && quote(routes[j]).Ok? ==>
        quote(routes[j]).value <= BestOutput(routes, quote)
    ensures BestOutput(routes, quote) > 0 ==>
              exists j :: 0 <= j < |routes| && quote(routes[j]) == Ok(BestOutput(routes, quote))
  {
    if routes != [] {
      var rest, last := routes[..|routes| - 1], |routes| - 1;
      BestOutputBounds(rest, quote);
      if BestOutput(routes, quote) > 0 && quote(routes[last]) != Ok(BestOutput(routes, quote)) {
        var j :| 0 <= j < |rest| && quote(rest[j]) == Ok(BestOutput(rest, quote));
        assert quote(routes[j]) == Ok(BestOutput(routes, quote));
      }
    }
  }

  lemma {:induction false} BestGivesBestOutput(routes: seq<Route>, quote: Quoter)
    ensures Best(routes, quote).Ok? ==> quote(routes[Best(routes, quote).value]) == Ok(BestOutput(routes, quote))
    ensures Best(routes, quote).Err? ==> BestOutput(routes, quote) == 0
  {
    BestOutputBounds(routes, quote);
    if Best(routes, quote).Err? && BestOutput(routes, quote) > 0 {
      var i := FirstBest(routes, quote);
      assert false;
    }
  }

  lemma {:induction false} FirstBest(routes: seq<Route>, quote: Quoter) returns (i: nat)
    requires BestOutput(routes, quote) > 0
    ensures IsBest(routes, quote, i)
  {
    BestOutputBounds(routes, quote);
    var rest := routes[..|routes| - 1];
    BestOutputBounds(rest, quote);
    if BestOutput(rest, quote) == BestOutput(routes, quote) {
      i := FirstBest(rest, quote);
    } else {
      i := |rest|;
    }
  }

  // ---- What forgetting costs ----

  /** Routes of one kind are on the same terms. */
  predicate OneTermsPerKind(routes: seq<Route>) {
    forall i, j :: 0 <= i < |routes| && 0 <= j < |routes| && KindOf(routes[i]) == KindOf(routes[j]) ==>
      Terms(routes[i]) == Terms(routes[j])
  }

  lemma {:induction false} BestOutputAtMost(routes: seq<Route>, quote: Quoter, x: nat)
    requires forall j :: 0 <= j < |routes| && quote(routes[j]).Ok? ==> quote(routes[j]).value <= x
    ensures BestOutput(routes, quote) <= x
  {
    if routes != [] {
      BestOutputAtMost(routes[..|routes| - 1], quote, x);
    }
  }

  lemma {:induction false} SameTermsSameOutput(a: Answers, r: Route, r': Route)
    requires Terms(r) == Terms(r')
    ensures QuoterOf(a)(r) == QuoterOf(a)(r')
  {
  }

  /** A narrowed list never does better than the original one. */
  lemma {:induction false} SurvivorsComeSecond(original: seq<Route>, s: Swapping, a: Answers)
    requires Narrowed(original, s)
    ensures BestOutput(s.routes, QuoterOf(a)) <= BestOutput(original, QuoterOf(a))
  {
    var q := QuoterOf(a);
    BestOutputBounds(original, q);
    forall j | 0 <= j < |s.routes| && q(s.routes[j]).Ok? ensures q(s.routes[j]).value <= BestOutput(original, q) {
      assert InPlace(original, s, j);
      var i :| 0 <= i < |original| && Terms(original[i]) == Terms(s.routes[j]);
      SameTermsSameOutput(a, original[i], s.routes[j]);
    }
    BestOutputAtMost(s.routes, q, BestOutput(original, q));
  }

  lemma {:induction false} NothingIsLost(original: seq<Route>, s: Swapping, a: Answers)
    requires Narrowed(original, s) && OneTermsPerKind(original)
    ensures BestOutput(s.routes, QuoterOf(a)) == BestOutput(original, QuoterOf(a))
  {
    var q := QuoterOf(a);
    SurvivorsComeSecond(original, s, a);
    BestOutputBounds(s.routes, q);
    forall i | 0 <= i < |original| && q(original[i]).Ok? ensures q(original[i]).value <= BestOutput(s.routes, q) {
      assert InPlace(original, s, i);
      var j :| 0 <= j < |original| && Terms(original[j]) == Terms(s.routes[i]);
      assert KindOf(original[j]) == KindOf(original[i]);
      SameTermsSameOutput(a, original[i], s.routes[i]);
    }
    BestOutputAtMost(original, q, BestOutput(s.routes, q));
  }

  /** The route on terms `r` is the only one with an output, and its message can be built. */
  function OnlyOn(r: Route): Answers {
    Answers((x: Route) => if x == r then Ok(1) else Err, (x: Route) => "", (x: Route) => Ok(Send("", map[])))
  }

  lemma {:induction false} OnlyOneWins(routes: seq<Route>, i: nat)
    requires i < |routes|
    ensures Execute(routes, OnlyOn(Terms(routes[i]))).Ok?
    ensures var q := QuoterOf(OnlyOn(Terms(routes[i])));
      Terms(routes[Best(routes, q).value]) == Terms(routes[i])
  {
    var q := QuoterOf(OnlyOn(Terms(routes[i])));
    assert q(routes[i]) == Ok(1);
    assert forall j :: 0 <= j < |routes| ==> !q(routes[j]).Panic?;
    BestGivesBestOutput(routes, q);
    BestOutputBounds(routes, q);
  }

  /** Some swaps, after which a later one does worse than it would have over the original routes. */
  ghost predicate Costs(original: seq<Route>, answers: seq<Answers>, later: Answers) {
    && Repeat(SwapStep(), Swapping(original, {}, None), answers).Ok?
    && var s := Repeat(SwapStep(), Swapping(original, {}, None), answers).value.0;
    BestOutput(s.routes, QuoterOf(later)) < BestOutput(original, QuoterOf(later))
  }

  lemma {:induction false} LoserIsMissed(original: seq<Route>, i: nat, j: nat)
    requires i < |original| && j < |original| && KindOf(original[i]) == KindOf(original[j])
    requires Terms(original[i]) != Terms(original[j])
    ensures Costs(original, [OnlyOn(Terms(original[i]))], OnlyOn(Terms(original[j])))
  {
    var now, later, start := OnlyOn(Terms(original[i])), OnlyOn(Terms(original[j])), Swapping(original, {}, None);
    OnlyOneWins(original, i);
    assert [now][..0] == [];
    assert Repeat(SwapStep(), start, [now][..0]) == Ok((start, 0));
    var b, winner := StepHasWinner(start, now);
    var q, left := QuoterOf(later), UpdatedRoutes(original, winner);
    assert Repeat(SwapStep(), start, [now]).value.0.routes == left;
    forall k | 0 <= k < |left| ensures q(left[k]) == Err {
      assert Terms(left[k]) != Terms(original[j]);
    }
    BestOutputAtMost(left, q, 0);
    BestOutputBounds(original, q);
    assert q(original[j]) == Ok(1);
  }

  /**
   * What forgetting costs: whatever swaps came before, a later one never does better than over the original routes;
   * and some swaps make a later one do worse exactly when two routes of one kind differ in their terms.
   */
  lemma {:induction false} ForgettingCostsExactly(original: seq<Route>)
    ensures (exists answers, later :: Costs(original, answers, later)) <==> !OneTermsPerKind(original)
    ensures forall answers, later :: Repeat(SwapStep(), Swapping(original, {}, None), answers).Ok? ==>
              var s := Repeat(SwapStep(), Swapping(original, {}, None), answers).value.0;
              BestOutput(s.routes, QuoterOf(later)) <= BestOutput(original, QuoterOf(later))
  {
    forall answers, later
      ensures OneTermsPerKind(original) ==> !Costs(original, answers, later)
      ensures Repeat(SwapStep(), Swapping(original, {}, None), answers).Ok? ==>
                var s := Repeat(SwapStep(), Swapping(original, {}, None), answers).value.0;
                BestOutput(s.routes, QuoterOf(later)) <= BestOutput(original, QuoterOf(later))
    {
      RoutesNarrow(original, answers);
      var s := Repeat(SwapStep(), Swapping(original, {}, None), answers).value.0;
      SurvivorsComeSecond(original, s, later);
      if OneTermsPerKind(original) {
        NothingIsLost(original, s, later);
      }
    }
    if !OneTermsPerKind(original) {
      var i, j :| 0 <= i < |original| && 0 <= j < |original| && KindOf(original[i]) == KindOf(original[j]) &&
          Terms(original[i]) != Terms(original[j]);
      LoserIsMissed(original, i, j);
    }
  }

  /** Two FIN pairs, of which the first wins: the second is gone, and missed when it would have given five for one. */
  lemma {:induction false} SecondPairIsMissed(first: Answers, later: Answers, message: Message)
    requires var p, q := Fin("p"), Fin("q");
      && first.output(p) == Ok(2) && first.output(q) == Ok(1) && first.message(p) == Ok(message)
      && later.output(p) == Ok(1) && later.output(q) == Ok(5)
    ensures var p, q := Fin("p"), Fin("q");
      && Execute([p, q], first) == Ok((message, [p, p]))
      && BestOutput([p, p], QuoterOf(later)) == 1 && BestOutput([p, q], QuoterOf(later)) == 5
  {
    var p, q, now, soon := Fin("p"), Fin("q"), QuoterOf(first), QuoterOf(later);
    assert Terms(p) == p && Terms(q) == q;
    assert now(p) == Ok(2) && now(q) == Ok(1) && soon(p) == Ok(1) && soon(q) == Ok(5);
    assert forall j :: 0 <= j < 2 ==> [p, q][j] == p || [p, q][j] == q;
    BestIs([p, q], now, 0);
    assert UpdatedRoutes([p, q], p) == [p, p];
    assert [p, p][..1] == [p] && [p, q][..1] == [p] && [p][..0] == [];
    assert BestOutput([p], soon) == 1;
  }
}
