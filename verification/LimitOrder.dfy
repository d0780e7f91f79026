/** The limit-order action: withdraw, then set, both decided from one snapshot of the market. */
module LimitOrders {
  import opened Outcomes
  import opened Arithmetic
  import opened Decimals
  import opened Money

  datatype Amount = FixedAmount(amount: nat) | Fraction(ratio: Decimal)

  datatype Direction = Above | Below

  datatype Offset = Exact(value: Decimal) | PercentOff(percent: nat)

  datatype PriceStrategy =
    | FixedPrice(price: Decimal)
    | Follow(side: Side, direction: Direction, offset: Offset, tolerance: Option<Offset>)

  /** An order as the book reports it. */
  datatype BookOrder = BookOrder(side: Side, offer: nat, remaining: nat, filled: nat)

  /** The answers one call gets: balances, the price of a side, one of our orders, all of our orders on a pair. */
  datatype Market = Market(
    balance: Denom -> Outcome<nat>,
    sidePrice: (Address, Side) -> Outcome<Decimal>,
    order: (Address, Side, Decimal) -> Outcome<BookOrder>,
    orders: Address -> Outcome<seq<BookOrder>>)

  datatype LimitOrder = LimitOrder(
    pair: Address,
    denom: Denom,
    amount: Amount,
    side: Side,
    strategy: PriceStrategy,
    minFillRatio: Option<Decimal>,
    current: Option<Decimal>)

  /** What `init` lets through. */
  predicate Initialised(o: LimitOrder) {
    && (o.amount.FixedAmount? ==> o.amount.amount >= 100)
    && (o.amount.Fraction? ==> 0 < o.amount.ratio <= ONE)
    && (o.minFillRatio.Some? ==> o.minFillRatio.value <= ONE)
  }

  function ShouldReset(s: PriceStrategy, current: Decimal, price: Decimal): bool {
    match s
    case Follow(_, _, _, Some(Exact(value))) => AbsDiff(current, price) > value
    case Follow(_, _, _, Some(PercentOff(percent))) =>
      SaturatingMul(current, Percent(percent)) < AbsDiff(current, price)
    case _ => current != price
  }

  function NewPrice(o: LimitOrder, m: Market): Outcome<Decimal> {
    match o.strategy
    case FixedPrice(price) => Ok(price)
    case Follow(side, direction, offset, _) =>
      var price :- m.sidePrice(o.pair, side);
      match (offset, direction)
      case (Exact(x), Above) => Ok(SaturatingAdd(price, x))
      case (Exact(x), Below) => Ok(SaturatingSub(price, x))
      case (PercentOff(x), Above) => Ok(SaturatingMul(price, Percent(Min(100 + x, MAX_U64))))
      case (PercentOff(x), Below) => Ok(SaturatingMul(price, Percent(SaturatingSub(100, x))))
  }

  function WithdrawMessage(o: LimitOrder, price: Decimal): Message {
    Order(o.pair, o.side, price, 0, o.denom, 0)
  }

  /** The order once withdrawn or left alone: what is being withdrawn, and the message if any. */
  datatype Withdrawing = Withdrawing(withdrawing: nat, remaining: nat, messages: seq<Message>)

  function SaturatingWithdraw(o: LimitOrder, price: Decimal, order: BookOrder, m: Market): Outcome<Withdrawing> {
    var newPrice :- NewPrice(o, m);
    var left :- FromRatio(order.remaining, order.offer);
    var filledRatio := SaturatingSub(ONE, left);
    var minimum := if o.minFillRatio.Some? then o.minFillRatio.value else 0;
    if order.remaining == 0 || (order.filled > 0 && filledRatio >= minimum) || ShouldReset(o.strategy, price, newPrice)
    then
      Ok(Withdrawing(order.remaining, 0, [WithdrawMessage(o, price)]))
    else
      Ok(Withdrawing(0, order.remaining, []))
  }

  function Unclaimed(orders: seq<BookOrder>, side: Side): nat {
    if orders == [] then 0
    else
      var last := orders[|orders| - 1];
      Unclaimed(orders[..|orders| - 1], side) + if last.side == side then last.remaining else last.filled
  }

  function FinalOffer(amount: Amount, available: nat): nat {
    match amount
    case FixedAmount(x) => Min(available, x)
    case Fraction(r) => MulFloor(available, r)
  }

  datatype Setting = Setting(price: Decimal, messages: seq<Message>)

  function SetOrder(o: LimitOrder, withdrawing: nat, m: Market): Outcome<Setting> {
    var newPrice :- NewPrice(o, m);
    var reset := o.current.None? || ShouldReset(o.strategy, o.current.value, newPrice);
    var price := if reset then newPrice else o.current.value;
    var balance :- m.balance(o.denom);
    var orders :- m.orders(o.pair);
    var offer := FinalOffer(o.amount, balance + Unclaimed(orders, o.side));
    var funding := Min(balance + withdrawing, offer);
    if funding == 0 && !reset then Ok(Setting(price, []))
    else Ok(Setting(price, [Order(o.pair, o.side, price, offer, o.denom, funding)]))
  }

  /** `execute_unsafe`. */
  function Execute(o: LimitOrder, m: Market): Outcome<(seq<Message>, LimitOrder)> {
    match o.current
    case None =>
      var s :- SetOrder(o, 0, m);
      Ok((s.messages, o.(current := Some(s.price))))
    case Some(price) =>
      var order :- m.order(o.pair, o.side, price);
      var w :- SaturatingWithdraw(o, price, order, m);
      var s :- SetOrder(o, w.withdrawing, m);
      Ok((w.messages + s.messages, o.(current := Some(s.price))))
  }

  function Cancel(o: LimitOrder, m: Market): Outcome<(seq<Message>, LimitOrder)> {
    match o.current
    case None => Ok(([], o))
    case Some(price) =>
      var _ :- m.order(o.pair, o.side, price);
      Ok(([WithdrawMessage(o, price)], o))
  }

  /** Forgets the cached order when the book no longer has it; a panic in a query is not an answer. */
  function Commit(o: LimitOrder, m: Market): Outcome<LimitOrder> {
    match o.current
    case None => Ok(o)
    case Some(price) =>
      match m.order(o.pair, o.side, price)
      case Ok(_) => Ok(o)
      case Err => Ok(o.(current := None))
      case Panic => Panic
  }

  // ---- The two stages agree ----

  predicate IsSet(o: LimitOrder, m: Message, price: Decimal) {
    m.Order? && m.pair == o.pair && m.side == o.side && m.price == price && m.denom == o.denom
  }

  /**
   * The withdraw and set stages choose the same price from one snapshot. There are at most two messages. A price
   * other than the cached one is only ever set, and cached, after the cached one has been withdrawn; and whatever
   * price is set is the one cached.
   */
  lemma {:induction false} StagesAgree(o: LimitOrder, m: Market)
    requires Execute(o, m).Ok?
    ensures var (ms, o') := Execute(o, m).value;
      && o'.current.Some? && o' == o.(current := o'.current)
      && |ms| <= 2
      && (o.current.None? ==> |ms| == 1 && IsSet(o, ms[0], o'.current.value) && NewPrice(o, m) == Ok(o'.current.value))
      && (o.current.Some? ==>
            && (o'.current != o.current ==>
                  && NewPrice(o, m) == Ok(o'.current.value)
                  && ShouldReset(o.strategy, o.current.value, o'.current.value)
                  && |ms| == 2)
            && (|ms| == 2 ==> ms[0] == WithdrawMessage(o, o.current.value) && IsSet(o, ms[1], o'.current.value))
            && (|ms| == 1 ==> ms[0] == WithdrawMessage(o, o.current.value) || IsSet(o, ms[0], o.current.value)))
  {
  }

  // ---- The order's money ----

  /** What an execute that goes through finds resting on the book: nothing before the first set. */
  ghost function Found(o: LimitOrder, m: Market): nat
    requires Execute(o, m).Ok?
  {
    if o.current.None? then 0 else m.order(o.pair, o.side, o.current.value).value.remaining
  }

  /** How much of that it leaves on the book. */
  ghost function Staying(o: LimitOrder, m: Market): nat
    requires Execute(o, m).Ok?
  {
    if o.current.None? then 0
    else SaturatingWithdraw(o, o.current.value, m.order(o.pair, o.side, o.current.value).value, m).value.remaining
  }

  ghost predicate IsWithdraw(o: LimitOrder, m: Message) {
    o.current.Some? && m == WithdrawMessage(o, o.current.value)
  }

  /** The book lists exactly this order for the pair, and reports it the same way in both queries. */
  ghost predicate OnlyOrder(o: LimitOrder, m: Market) {
    && o.current.Some?
    && m.order(o.pair, o.side, o.current.value).Ok?
    && m.order(o.pair, o.side, o.current.value).value.side == o.side
    && m.orders(o.pair) == Ok([m.order(o.pair, o.side, o.current.value).value])
  }

  /**
   * When a set message goes out, the first one included: the funds attached never exceed the balance plus what is
   * being withdrawn, and with what stays on the book they cover the new offer exactly when the configured amount of
   * everything the strategy has on the pair is within the balance and this order.
   */
  lemma {:induction false} FundingCovers(o: LimitOrder, m: Market)
    requires Execute(o, m).Ok?
    ensures var ms, b, found := Execute(o, m).value.0, m.balance(o.denom).value, Found(o, m);
      forall k :: 0 <= k < |ms| && !IsWithdraw(o, ms[k]) ==>
        && ms[k].Order?
        && ms[k].funding <= b + (found - Staying(o, m))
        && ms[k].funding <= ms[k].offer
        && (ms[k].funding + Staying(o, m) >= ms[k].offer <==>
            FinalOffer(o.amount, b + Unclaimed(m.orders(o.pair).value, o.side)) <= b + found)
  {
  }

  /** An input for falling short: another order of the strategy counts as available, but its funds are not there. */
  lemma {:induction false} OtherOrderIsNotThere(o: LimitOrder, m: Market, p: Decimal, q: Decimal)
    requires o.strategy == FixedPrice(q) && p != q && o.current == Some(p) && o.amount == FixedAmount(200)
    requires var b := BookOrder(o.side, 100, 100, 0);
      && m.order(o.pair, o.side, p) == Ok(b) && m.orders(o.pair) == Ok([b, b]) && m.balance(o.denom) == Ok(0)
    ensures Execute(o, m) ==
            Ok(([WithdrawMessage(o, p), Order(o.pair, o.side, q, 200, o.denom, 100)], o.(current := Some(q))))
    ensures Staying(o, m) == 0
  {
    var b := BookOrder(o.side, 100, 100, 0);
    assert [b, b][..1] == [b] && [b][..0] == [];
    assert Unclaimed([b], o.side) == 100;
    assert [WithdrawMessage(o, p)] + [Order(o.pair, o.side, q, 200, o.denom, 100)] ==
           [WithdrawMessage(o, p), Order(o.pair, o.side, q, 200, o.denom, 100)];
  }

  /** For the strategy's only order on the pair they always do. */
  lemma {:induction false} OnlyOrderIsCovered(o: LimitOrder, m: Market)
    requires OnlyOrder(o, m) && Initialised(o) && Execute(o, m).Ok?
    ensures var ms, b := Execute(o, m).value.0, m.balance(o.denom).value;
      forall k :: 0 <= k < |ms| && !IsWithdraw(o, ms[k]) ==>
        && ms[k].Order?
        && ms[k].funding + Staying(o, m) >= ms[k].offer
        && ms[k].funding <= b + (Found(o, m) - Staying(o, m))
  {
    FundingCovers(o, m);
    var order := m.order(o.pair, o.side, o.current.value).value;
    assert [order][..0] == [];
    assert Unclaimed([order], o.side) == order.remaining;
    var available := m.balance(o.denom).value + order.remaining;
    if o.amount.Fraction? {
      MulFloorAtMost(available, o.amount.ratio);
    }
    assert FinalOffer(o.amount, available) <= available;
  }

  /** Nothing filled, no reset and nothing to add: no message, and the action stays as it was. */
  lemma {:induction false} IdleOrderStaysPut(o: LimitOrder, m: Market)
    requires o.current.Some? && m.balance(o.denom) == Ok(0) && NewPrice(o, m).Ok? && m.orders(o.pair).Ok?
    requires m.order(o.pair, o.side, o.current.value).Ok?
    requires var b := m.order(o.pair, o.side, o.current.value).value; b.filled == 0 && 0 < b.remaining && b.offer > 0
    requires !ShouldReset(o.strategy, o.current.value, NewPrice(o, m).value)
    ensures Execute(o, m) == Ok(([], o))
  {
    var none: seq<Message> := [];
    assert none + none == none;
    assert SetOrder(o, 0, m) == Ok(Setting(o.current.value, none));
  }

  // ---- What an execute sends, from the order's own settings ----

  /** `p` is `f` hundredths of `s`, truncated, up to the largest decimal. */
  predicate Hundredths(s: Decimal, f: nat, p: Decimal) {
    if s * f < 100 * (MAX_U128 + 1) then 100 * p <= s * f < 100 * p + 100 else p == MAX_U128
  }

  /** The price a strategy asks for, given the price of the side it follows. */
  predicate PriceFits(s: PriceStrategy, sidePrice: Decimal, p: Decimal) {
    match s
    case FixedPrice(price) => p == price
    case Follow(_, Above, Exact(x), _) => p == if sidePrice + x <= MAX_U128 then sidePrice + x else MAX_U128
    case Follow(_, Below, Exact(x), _) => p == if x <= sidePrice then sidePrice - x else 0
    case Follow(_, Above, PercentOff(x), _) => Hundredths(sidePrice, if 100 + x <= MAX_U64 then 100 + x else MAX_U64, p)
    case Follow(_, Below, PercentOff(x), _) => Hundredths(sidePrice, if x <= 100 then 100 - x else 0, p)
  }

  /** The cached price is further from the new one than the strategy tolerates. */
  predicate TooFar(s: PriceStrategy, current: Decimal, price: Decimal) {
    match s
    case Follow(_, _, _, Some(Exact(x))) => price > current + x || current > price + x
    case Follow(_, _, _, Some(PercentOff(x))) =>
      100 * price > 100 * current + current * x || 100 * current > 100 * price + current * x
    case _ => price != current
  }

  /** The side price the strategy asks the book for; a fixed price asks for none. */
  function Followed(o: LimitOrder, m: Market): Outcome<Decimal> {
    if o.strategy.Follow? then m.sidePrice(o.pair, o.strategy.side) else Ok(0)
  }

  lemma {:induction false} HundredthsOf(s: Decimal, f: nat)
    ensures Hundredths(s, f, SaturatingMul(s, Percent(f)))
  {
    var unit := ONE / 100;
    assert s * Percent(f) == (s * f) * unit;
    DivBounds(s * Percent(f), ONE);
    var q := s * Percent(f) / ONE;
    assert q * ONE == (100 * q) * unit && q * ONE + ONE == (100 * q + 100) * unit;
    ScaledDown(100 * q, s * f, unit);
    ScaledDown(s * f + 1, 100 * q + 100, unit);
  }

  lemma {:induction false} ScaledDown(a: int, b: int, unit: int)
    requires unit > 0 && a * unit < b * unit + unit
    ensures a <= b
  {
    if a > b {
      MulMonotone(b + 1, a, unit);
    }
  }

  lemma {:induction false} NewPriceFits(o: LimitOrder, m: Market)
    ensures NewPrice(o, m).Ok? <==> Followed(o, m).Ok?
    ensures NewPrice(o, m).Ok? ==> PriceFits(o.strategy, Followed(o, m).value, NewPrice(o, m).value)
  {
    if Followed(o, m).Ok? && o.strategy.Follow? && o.strategy.offset.PercentOff? {
      var s, x := Followed(o, m).value, o.strategy.offset.percent;
      HundredthsOf(s, Min(100 + x, MAX_U64));
      HundredthsOf(s, SaturatingSub(100, x));
    }
  }

  /** `Above` is never below the side price, and `Below` never above it. */
  lemma {:induction false} PriceIsOnItsSide(s: PriceStrategy, sidePrice: Decimal, p: Decimal)
    requires s.Follow? && sidePrice <= MAX_U128 && PriceFits(s, sidePrice, p)
    ensures s.direction.Above? ==> p >= sidePrice
    ensures s.direction.Below? ==> p <= sidePrice
  {
    if s.offset.PercentOff? {
      var f := if s.direction.Below? then (if s.offset.percent <= 100 then 100 - s.offset.percent else 0)
               else if 100 + s.offset.percent <= MAX_U64 then 100 + s.offset.percent else MAX_U64;
      if s.direction.Above? {
        MulMonotone(100, f, sidePrice);
      } else {
        MulMonotone(f, 100, sidePrice);
      }
    }
  }

  lemma {:induction false} ResetIsTooFar(s: PriceStrategy, current: Decimal, price: Decimal)
    requires current <= MAX_U128 && price <= MAX_U128
    ensures ShouldReset(s, current, price) <==> TooFar(s, current, price)
  {
    if s.Follow? && s.tolerance.Some? && s.tolerance.value.PercentOff? {
      HundredthsOf(current, s.tolerance.value.percent);
    }
  }

  /** At least the minimum part is filled: what is left is less than one atom of the offer over what may be left. */
  predicate FilledEnough(o: LimitOrder, b: BookOrder) {
    var minimum := if o.minFillRatio.Some? then o.minFillRatio.value else 0;
    b.filled > 0 && b.remaining * ONE < (ONE - minimum + 1) * b.offer
  }

  lemma {:induction false} FilledExactly(remaining: nat, offer: nat, minimum: nat)
    requires remaining <= offer && offer > 0 && minimum <= ONE
    ensures SaturatingSub(ONE, remaining * ONE / offer) >= minimum <==> remaining * ONE < (ONE - minimum + 1) * offer
  {
    DivAtLeast(remaining * ONE, offer, ONE - minimum + 1);
    MulMonotone(remaining, offer, ONE);
    DivMonotone(remaining * ONE, offer * ONE, offer);
    MultipleMod(ONE, offer);
  }

  /** The order is withdrawn: it is used up, filled enough, or its price has to move. */
  predicate Withdraws(o: LimitOrder, b: BookOrder, price: Decimal)
    requires o.current.Some?
  {
    b.remaining == 0 || FilledEnough(o, b) || TooFar(o.strategy, o.current.value, price)
  }

  predicate OfferFits(amount: Amount, available: nat, offer: nat) {
    match amount
    case FixedAmount(x) => offer == if available <= x then available else x
    case Fraction(r) => offer * ONE <= available * r < offer * ONE + ONE
  }

  /** All of our orders on a pair count: what is left of those on our side, what the others have been filled. */
  lemma {:induction false} UnclaimedAdds(a: seq<BookOrder>, b: seq<BookOrder>, x: BookOrder, side: Side)
    ensures Unclaimed([], side) == 0 && Unclaimed([x], side) == if x.side == side then x.remaining else x.filled
    ensures Unclaimed(a + b, side) == Unclaimed(a, side) + Unclaimed(b, side)
  {
    assert [x][..0] == [];
    if b == [] {
      assert a + b == a;
    } else {
      UnclaimedAdds(a, b[..|b| - 1], x, side);
      assert (a + b)[..|a + b| - 1] == a + b[..|b| - 1];
    }
  }

  /** Prices are 128-bit decimals, and no order has more left than it offered. */
  predicate Sane(o: LimitOrder, m: Market) {
    && (o.strategy.FixedPrice? ==> o.strategy.price <= MAX_U128)
    && (Followed(o, m).Ok? ==> Followed(o, m).value <= MAX_U128)
    && (o.current.Some? ==>
          && o.current.value <= MAX_U128
          && (m.order(o.pair, o.side, o.current.value).Ok? ==>
                var b := m.order(o.pair, o.side, o.current.value).value; b.remaining <= b.offer))
  }

  /** Every query goes through, and the order that is cached offers something. */
  predicate Answered(o: LimitOrder, m: Market) {
    && Followed(o, m).Ok? && m.balance(o.denom).Ok? && m.orders(o.pair).Ok?
    && (o.current.Some? ==>
          && m.order(o.pair, o.side, o.current.value).Ok?
          && m.order(o.pair, o.side, o.current.value).value.offer > 0)
  }

  /** An execute goes through exactly then; an order that the book reports with nothing offered aborts it. */
  lemma {:induction false} ExecutesWhen(o: LimitOrder, m: Market)
    ensures Execute(o, m).Ok? <==> Answered(o, m)
    ensures (&& Followed(o, m).Ok? && o.current.Some? && m.order(o.pair, o.side, o.current.value).Ok?
             && m.order(o.pair, o.side, o.current.value).value.offer == 0) ==> Execute(o, m).Panic?
  {
    NewPriceFits(o, m);
  }

  /**
   * The messages of an execute, in full, and the action it leaves. First the withdraw of the cached order, exactly
   * when it is used up, filled enough or priced wrong. Then the set, unless the price stays and there is nothing to
   * attach: at the cached price, or at the strategy's new one, `wanted`, if that is the first or too far; for the
   * `offer` that is the configured amount of the balance and of all our orders; and with as much attached as the
   * balance and the withdrawn rest allow.
   */
  predicate Executed(o: LimitOrder, m: Market, wanted: Decimal, offer: nat, ms: seq<Message>, o': LimitOrder)
    requires Answered(o, m)
  {
    && PriceFits(o.strategy, Followed(o, m).value, wanted)
    && var balance := m.balance(o.denom).value;
    && OfferFits(o.amount, balance + Unclaimed(m.orders(o.pair).value, o.side), offer)
    && var w := o.current.Some? && Withdraws(o, m.order(o.pair, o.side, o.current.value).value, wanted);
    && var price := if o.current.Some? && !TooFar(o.strategy, o.current.value, wanted) then o.current.value else wanted;
    && var free := balance + if w then m.order(o.pair, o.side, o.current.value).value.remaining else 0;
    && var funding := if free <= offer then free else offer;
    && o' == o.(current := Some(price))
    && ms == (if w then [Order(o.pair, o.side, o.current.value, 0, o.denom, 0)] else []) +
             (if o.current != Some(price) || funding > 0 then [Order(o.pair, o.side, price, offer, o.denom, funding)]
              else [])
  }

  /** An execute that goes through sends exactly those messages, and leaves that action. */
  lemma {:induction false} ExecutesExactly(o: LimitOrder, m: Market) returns (wanted: Decimal, offer: nat)
    requires Initialised(o) && Sane(o, m) && Answered(o, m)
    ensures Execute(o, m).Ok? && Executed(o, m, wanted, offer, Execute(o, m).value.0, Execute(o, m).value.1)
  {
    ExecutesWhen(o, m);
    wanted := NewPrice(o, m).value;
    NewPriceFits(o, m);
    var available := m.balance(o.denom).value + Unclaimed(m.orders(o.pair).value, o.side);
    offer := FinalOffer(o.amount, available);
    if o.amount.Fraction? {
      DivBounds(available * o.amount.ratio, ONE);
    }
    ExecutesAs(o, m, wanted, offer);
  }

  lemma {:induction false} ExecutesAs(o: LimitOrder, m: Market, wanted: Decimal, offer: nat)
    requires Initialised(o) && Sane(o, m) && Answered(o, m) && Execute(o, m).Ok?
    requires NewPrice(o, m) == Ok(wanted) && PriceFits(o.strategy, Followed(o, m).value, wanted)
    requires var available := m.balance(o.denom).value + Unclaimed(m.orders(o.pair).value, o.side);
      offer == FinalOffer(o.amount, available) && OfferFits(o.amount, available, offer)
    ensures Executed(o, m, wanted, offer, Execute(o, m).value.0, Execute(o, m).value.1)
  {
    if o.current.None? {
      assert [] + Execute(o, m).value.0 == Execute(o, m).value.0;
    } else {
      var b := m.order(o.pair, o.side, o.current.value).value;
      NewPriceSmall(o, m);
      ResetIsTooFar(o.strategy, o.current.value, wanted);
      FilledExactly(b.remaining, b.offer, if o.minFillRatio.Some? then o.minFillRatio.value else 0);
    }
  }

  lemma {:induction false} NewPriceSmall(o: LimitOrder, m: Market)
    requires Sane(o, m) && NewPrice(o, m).Ok?
    ensures NewPrice(o, m).value <= MAX_U128
  {
  }

  // ---- One order at a time ----

  /**
   * One visit: the snapshot it decides on, which set messages the book accepts, and the orders that leave the book on
   * their own.
   */
  datatype Visit = Visit(cancel: bool, market: Market, accepted: bool, withdrawn: bool, gone: set<Decimal>)

  /** The prices at which this action's orders rest on its side of the pair. */
  type Resting = set<Decimal>

  function Deliver(resting: Resting, m: Message, v: Visit): Resting {
    if !m.Order? then resting
    else if m.offer == 0 then if v.withdrawn then resting - {m.price} else resting
    else if v.accepted then resting + {m.price} else resting
  }

  function DeliverAll(resting: Resting, ms: seq<Message>, v: Visit): Resting {
    if ms == [] then resting else Deliver(DeliverAll(resting, ms[..|ms| - 1], v), ms[|ms| - 1], v)
  }

  /** The market answers for exactly the orders of `o` that rest, and no query aborts. */
  ghost predicate Reports(m: Market, o: LimitOrder, resting: Resting) {
    forall price ::
        (if price in resting then m.order(o.pair, o.side, price).Ok? else m.order(o.pair, o.side, price).Err?)
  }

  /** The market that commit sees answers for exactly the resting orders. */
  function Truthful(m: Market, resting: Resting): Market {
    m.(order := (pair: Address, side: Side, price: Decimal) =>
                  if price in resting then Ok(BookOrder(side, 1, 1, 0)) else Err)
  }

  /**
   * Execute or cancel, deliver the messages, commit; a panic reverts the visit. An error saves the action unchanged.
   */
  function Step(s: (LimitOrder, Resting), v: Visit): Outcome<((LimitOrder, Resting), bool)> {
    var (o, resting) := s;
    var onBook := resting - v.gone;
    var r := if v.cancel then Cancel(o, v.market) else Execute(o, v.market);
    if r.Panic? then Panic
    else
      var (ms, saved) := if r.Ok? then r.value else ([], o);
      var after := DeliverAll(onBook, ms, v);
      if ms == [] && r.Ok? then Ok(((saved, after), false))
      else
        var committed :- Commit(saved, Truthful(v.market, after));
        Ok(((committed, after), ms != []))
  }

  predicate OneOrder(o: LimitOrder, resting: Resting) {
    resting == {} || (o.current.Some? && resting == {o.current.value})
  }

  lemma {:induction false} TwoDeliveries(resting: Resting, a: Message, b: Message, v: Visit)
    ensures DeliverAll(resting, [], v) == resting
    ensures DeliverAll(resting, [a], v) == Deliver(resting, a, v)
    ensures DeliverAll(resting, [a, b], v) == Deliver(Deliver(resting, a, v), b, v)
  {
    assert [a][..0] == [] && [a, b][..1] == [a];
  }

  /** An execute resets an order that rests, and its withdraw fails. */
  predicate LosesTrack(o: LimitOrder, resting: Resting, v: Visit) {
    && !v.cancel && !v.withdrawn
    && o.current.Some? && o.current.value in resting - v.gone
    && Execute(o, v.market).Ok?
    && NewPrice(o, v.market).Ok? && ShouldReset(o.strategy, o.current.value, NewPrice(o, v.market).value)
  }

  /** A cancel whose withdraw succeeds, told the truth by the book, leaves no order and nothing cached. */
  lemma {:induction false} CancelClears(o: LimitOrder, resting: Resting, v: Visit)
    requires OneOrder(o, resting) && v.cancel && v.withdrawn && Reports(v.market, o, resting - v.gone)
    ensures Step((o, resting), v).Ok?
    ensures var (o', resting') := Step((o, resting), v).value.0; o'.current.None? && resting' == {}
  {
    if o.current.None? {
      TwoDeliveries(resting - v.gone, WithdrawMessage(o, 0), WithdrawMessage(o, 0), v);
    } else {
      var w := WithdrawMessage(o, o.current.value);
      TwoDeliveries(resting - v.gone, w, w, v);
      assert v.market.order(o.pair, o.side, o.current.value).Ok? <==> o.current.value in resting - v.gone;
      CommitTracks(o, v.market, AfterVisit(o, resting, v));
    }
  }

  /** What commit makes of an action whose orders rest at `after`. */
  function Tracked(o: LimitOrder, after: Resting): LimitOrder {
    if o.current.Some? && o.current.value !in after then o.(current := None) else o
  }

  lemma {:induction false} CommitTracks(o: LimitOrder, m: Market, after: Resting)
    ensures Commit(o, Truthful(m, after)) == Ok(Tracked(o, after))
  {
  }

  /** Where orders rest once a visit's messages are delivered. */
  function AfterVisit(o: LimitOrder, resting: Resting, v: Visit): Resting {
    var r := if v.cancel then Cancel(o, v.market) else Execute(o, v.market);
    DeliverAll(resting - v.gone, if r.Ok? then r.value.0 else [], v)
  }

  /** A visit that emits messages, or fails, leaves what was delivered, and what commit makes of it. */
  lemma {:induction false} StepTracks(o: LimitOrder, resting: Resting, v: Visit)
    requires Step((o, resting), v).Ok?
    ensures var r := if v.cancel then Cancel(o, v.market) else Execute(o, v.market);
      var (ms, saved) := if r.Ok? then r.value else ([], o);
      var after := AfterVisit(o, resting, v);
      && after == DeliverAll(resting - v.gone, ms, v)
      && Step((o, resting), v).value.0 == if ms == [] && r.Ok? then (saved, after) else (Tracked(saved, after), after)
  {
    var r := if v.cancel then Cancel(o, v.market) else Execute(o, v.market);
    var (_, saved) := if r.Ok? then r.value else ([], o);
    CommitTracks(saved, v.market, AfterVisit(o, resting, v));
  }

  lemma {:induction false} CancelKeepsOneOrder(o: LimitOrder, resting: Resting, v: Visit)
    requires OneOrder(o, resting) && v.cancel && Step((o, resting), v).Ok?
    ensures var (o', resting') := Step((o, resting), v).value.0; OneOrder(o', resting')
  {
    StepTracks(o, resting, v);
    if o.current.Some? {
      var w := WithdrawMessage(o, o.current.value);
      TwoDeliveries(resting - v.gone, w, w, v);
    } else {
      TwoDeliveries(resting - v.gone, WithdrawMessage(o, 0), WithdrawMessage(o, 0), v);
    }
  }

  lemma {:induction false} FirstSetKeepsOneOrder(o: LimitOrder, resting: Resting, v: Visit)
    requires OneOrder(o, resting) && !v.cancel && o.current.None? && Step((o, resting), v).Ok?
    ensures var (o', resting') := Step((o, resting), v).value.0; OneOrder(o', resting')
  {
    StepTracks(o, resting, v);
    if Execute(o, v.market).Ok? {
      StagesAgree(o, v.market);
      var ms := Execute(o, v.market).value.0;
      assert ms == [ms[0]];
      TwoDeliveries(resting - v.gone, ms[0], ms[0], v);
    }
  }

  /** Keeping the cached price: whatever is withdrawn and set, it is at that price. */
  lemma {:induction false} SamePriceKeepsOneOrder(o: LimitOrder, resting: Resting, v: Visit)
    requires OneOrder(o, resting) && !v.cancel && o.current.Some? && Execute(o, v.market).Ok?
    requires Step((o, resting), v).Ok? && Execute(o, v.market).value.1 == o
    ensures var (o', resting') := Step((o, resting), v).value.0; OneOrder(o', resting')
  {
    StepTracks(o, resting, v);
    StagesAgree(o, v.market);
    var ms := Execute(o, v.market).value.0;
    var m0 := if |ms| > 0 then ms[0] else WithdrawMessage(o, 0);
    var m1 := if |ms| > 1 then ms[1] else WithdrawMessage(o, 0);
    assert ms == [] || ms == [m0] || ms == [m0, m1];
    TwoDeliveries(resting - v.gone, m0, m1, v);
  }

  lemma {:induction false} ResetKeepsOneOrder(o: LimitOrder, resting: Resting, v: Visit)
    requires OneOrder(o, resting) && !v.cancel && o.current.Some? && Execute(o, v.market).Ok?
    requires Step((o, resting), v).Ok? && Execute(o, v.market).value.1.current != o.current
    ensures var (o', resting') := Step((o, resting), v).value.0;
      OneOrder(o', resting') <==> v.withdrawn || o.current.value !in resting - v.gone
  {
    StepTracks(o, resting, v);
    StagesAgree(o, v.market);
    var ms, onBook := Execute(o, v.market).value.0, resting - v.gone;
    assert ms == [ms[0], ms[1]];
    TwoDeliveries(onBook, ms[0], ms[1], v);
    var middle := Deliver(onBook, ms[0], v);
    assert middle == if v.withdrawn then {} else onBook;
  }

  /** The price is reset exactly when the new one is too far from the cached one. */
  lemma {:induction false} ResetExactly(o: LimitOrder, m: Market)
    requires o.current.Some? && Execute(o, m).Ok?
    ensures NewPrice(o, m).Ok?
    ensures ShouldReset(o.strategy, o.current.value, NewPrice(o, m).value) <==>
        Execute(o, m).value.1.current != o.current
    ensures !ShouldReset(o.strategy, o.current.value, NewPrice(o, m).value) ==> Execute(o, m).value.1 == o
  {
    var price := NewPrice(o, m).value;
    if price == o.current.value {
      SamePriceStays(o.strategy, price);
    }
  }

  lemma {:induction false} SamePriceStays(s: PriceStrategy, price: Decimal)
    ensures !ShouldReset(s, price, price)
  {
  }

  /** One order at the cached price stays one order at the cached price, except exactly in that case. */
  lemma {:induction false} VisitKeepsOneOrder(o: LimitOrder, resting: Resting, v: Visit)
    requires OneOrder(o, resting) && Step((o, resting), v).Ok?
    ensures var (o', resting') := Step((o, resting), v).value.0;
      OneOrder(o', resting') <==> !LosesTrack(o, resting, v)
  {
    if v.cancel {
      CancelKeepsOneOrder(o, resting, v);
    } else if o.current.None? {
      FirstSetKeepsOneOrder(o, resting, v);
    } else if !Execute(o, v.market).Ok? {
      StepTracks(o, resting, v);
      TwoDeliveries(resting - v.gone, WithdrawMessage(o, 0), WithdrawMessage(o, 0), v);
    } else {
      ResetExactly(o, v.market);
      if Execute(o, v.market).value.1 == o {
        SamePriceKeepsOneOrder(o, resting, v);
      } else {
        ResetKeepsOneOrder(o, resting, v);
      }
    }
  }

  /**
   * An input each for losing track: with the withdraw failed, a set that succeeds leaves two orders resting, and one
   * that is refused leaves the old order with nothing to say where it is.
   */
  lemma {:induction false} FailedWithdrawLosesTrack(o: LimitOrder, p: Decimal, q: Decimal, v: Visit)
    requires o.strategy == FixedPrice(q) && p != q && o.current == Some(p)
    requires !v.cancel && !v.withdrawn && v.gone == {}
    requires v.market.order(o.pair, o.side, p) == Ok(BookOrder(o.side, 100, 100, 0))
    requires v.market.balance(o.denom) == Ok(100) && v.market.orders(o.pair) == Ok([]) && o.amount == FixedAmount(100)
    ensures Step((o, {p}), v) ==
            Ok((if v.accepted then (o.(current := Some(q)), {p, q}) else (o.(current := None), {p}), true))
  {
    var w, s := WithdrawMessage(o, p), Order(o.pair, o.side, q, 100, o.denom, 100);
    assert Execute(o, v.market) == Ok(([w] + [s], o.(current := Some(q))));
    assert [w] + [s] == [w, s];
    TwoDeliveries({p} - v.gone, w, s, v);
    assert {p} - v.gone == {p} && {p} + {q} == {p, q};
  }
}
