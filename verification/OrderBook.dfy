/** The price of one side of an order book: a volume-weighted average over a prefix, read in pages. */
module OrderBook {
  import opened Outcomes
  import opened Arithmetic
  import opened Decimals
  import opened Money

  const MIN_ORDERS: nat := 4
  const MIN_VALUE: nat := 10_000
  const LIMIT: nat := 4
  const MAX_ITERATIONS: nat := 2

  datatype Item = Item(price: Decimal, total: nat)

  type Book = seq<Item>

  /** Book totals are in base on the base side, in quote on the quote side. */
  function QuoteValue(x: Item, side: Side): nat {
    if side.Base? then MulFloor(x.total, x.price) else x.total
  }

  function BaseDepth(x: Item, side: Side): nat {
    if side.Base? then x.total else if x.price == 0 then 0 else DivCeil(x.total, x.price)
  }

  /**
   * One order in the pair's two denoms: its total is exact in the denom it rests in, and the other side of it is
   * rounded, the quote it is worth down and the base it takes up.
   */
  lemma {:induction false} OrderIsWorth(x: Item, side: Side)
    ensures var v, d := QuoteValue(x, side), BaseDepth(x, side);
      && (side.Base? ==> d == x.total && v * ONE <= x.total * x.price < v * ONE + ONE)
      && (side.Quote? ==> v == x.total)
      && (side.Quote? && x.price > 0 ==> d * x.price >= x.total * ONE && (d > 0 ==> (d - 1) * x.price < x.total * ONE))
  {
    if side.Base? {
      DivBounds(x.total * x.price, ONE);
    } else if x.price > 0 {
      CeilBounds(x.total * ONE, x.price);
    }
  }

  function Value(book: Book, side: Side, n: nat): nat
    requires n <= |book|
  {
    if n == 0 then 0 else Value(book, side, n - 1) + QuoteValue(book[n - 1], side)
  }

  function Depth(book: Book, side: Side, n: nat): nat
    requires n <= |book|
  {
    if n == 0 then 0 else Depth(book, side, n - 1) + BaseDepth(book[n - 1], side)
  }

  /** The first `n` orders are enough to price the side. */
  predicate Enough(book: Book, side: Side, n: nat)
    requires n <= |book|
  {
    n >= 4 && Value(book, side, n) >= 10_000
  }

  /** Enough, and no shorter prefix is. */
  predicate Shortest(book: Book, side: Side, n: nat)
    requires n <= |book|
  {
    Enough(book, side, n) && forall m :: 0 <= m < n ==> !Enough(book, side, m)
  }

  predicate Priced(book: Book, n: nat)
    requires n <= |book|
  {
    forall i :: 0 <= i < n ==> book[i].price > 0
  }

  function Page(book: Book, offset: nat): Book {
    if offset >= |book| then [] else book[offset..Min(offset + LIMIT, |book|)]
  }

  type Query = nat -> Outcome<Book>

  /** A query that fails or answers with its page of one book. */
  ghost predicate Pages(query: Query, book: Book) {
    forall offset: nat :: query(offset) == Err || query(offset) == Ok(Page(book, offset))
  }

  /** The pages a price over the first `n` orders needs can be read. */
  predicate Readable(query: Query, n: nat) {
    query(0).Ok? && (n > 4 ==> query(4).Ok?)
  }

  /** The pair's tick, which the book library applies: upwards on the base side, downwards on the quote side. */
  datatype Tick = Tick(up: Decimal -> Decimal, down: Decimal -> Decimal)

  /** With a tick that rounds as it says, base prices only rise and quote prices only fall. */
  function Rounded(tick: Tick, side: Side, price: Decimal): (rounded: Decimal)
    ensures tick.down(price) <= price <= tick.up(price) ==> if side.Base? then rounded >= price else rounded <= price
  {
    if side.Base? then tick.up(price) else tick.down(price)
  }

  /** The average is the value over the depth, before the pair's tick is applied. */
  function Average(book: Book, side: Side, n: nat): Outcome<Decimal>
    requires n <= |book|
  {
    FromRatio(Value(book, side, n), Depth(book, side, n))
  }

  ghost predicate Prices(query: Query, book: Book, side: Side, n: nat) {
    n <= |book| && n <= 8 && Shortest(book, side, n) && Priced(book, n) && Readable(query, n)
  }

  /** What the loop has consumed: a priced prefix with no shorter one enough. */
  ghost predicate Consumed(query: Query, book: Book, side: Side, orders: nat, value: nat, depth: nat) {
    && orders <= |book| && Priced(book, orders)
    && value == Value(book, side, orders) && depth == Depth(book, side, orders)
    && (forall m :: 0 <= m < orders ==> !Enough(book, side, m))
    && (orders > 0 ==> query(0).Ok?) && (orders > LIMIT ==> query(LIMIT).Ok?)
  }

  lemma {:induction false} ConsumeOne(query: Query, book: Book, side: Side, orders: nat, value: nat, depth: nat)
    requires Consumed(query, book, side, orders, value, depth) && !Enough(book, side, orders)
    requires orders < |book| && book[orders].price > 0 && query(0).Ok? && (orders >= LIMIT ==> query(LIMIT).Ok?)
    ensures Consumed(query, book, side, orders + 1, value + QuoteValue(book[orders], side),
                     depth + BaseDepth(book[orders], side))
  {
  }

  ghost predicate ZeroAt(book: Book, side: Side, z: nat) {
    z < |book| && book[z].price == 0 && forall m :: 0 <= m <= z ==> !Enough(book, side, m)
  }

  /** One page: adds orders until there are enough or the page ends; a zero price is an error. */
  method Consume(query: Query, ghost book: Book, side: Side, page: Book, from: nat, value: nat, depth: nat)
    returns (ok: bool, orders': nat, value': nat, depth': nat)
    requires from <= |book| && page == Page(book, from) && page != [] && !Enough(book, side, from)
    requires Consumed(query, book, side, from, value, depth) && query(0).Ok?
    requires from == 0 || (from == LIMIT && query(LIMIT).Ok?)
    ensures ok ==> from < orders' <= from + |page| && Consumed(query, book, side, orders', value', depth')
    ensures ok ==> orders' == from + |page| || Enough(book, side, orders')
    ensures !ok ==> ZeroAt(book, side, orders')
  {
    orders', value', depth' := from, value, depth;
    ok := true;
    for j := 0 to |page|
      invariant orders' == from + j && Consumed(query, book, side, orders', value', depth')
      invariant !Enough(book, side, orders') && ok
    {
      var order := page[j];
      assert order == book[orders'];
      if order.price == 0 {
        return false, orders', value', depth';
      }
      ConsumeOne(query, book, side, orders', value', depth');
      value' := value' + QuoteValue(order, side);
      depth' := depth' + BaseDepth(order, side);
      orders' := orders' + 1;
      if orders' >= MIN_ORDERS && value' >= MIN_VALUE {
        break;
      }
    }
  }

  /**
   * The paged loop prices a side exactly when the shortest sufficient prefix has at most eight orders, all of them
   * with a price, its pages can be read, and so can the pair; the price is then the average over that prefix, rounded
   * to the pair's tick.
   */
  method SidePrice(query: Query, ghost book: Book, side: Side, pair: Outcome<Tick>) returns (r: Outcome<Decimal>)
    requires Pages(query, book) && !pair.Panic?
    ensures r.Ok? <==> pair.Ok? && exists n :: Prices(query, book, side, n)
    ensures pair.Ok? ==> forall n :: Prices(query, book, side, n) ==>
              && Average(book, side, n).Ok?
              && var average := Average(book, side, n).value;
              r == Ok(if side.Base? then pair.value.up(average) else pair.value.down(average))
    ensures !r.Ok? ==> r == Err
  {
    var orders: nat, value: nat, depth: nat, i: nat := 0, 0, 0, 0;
    while i < MAX_ITERATIONS && (value < MIN_VALUE || orders < MIN_ORDERS)
      invariant i <= MAX_ITERATIONS && orders <= LIMIT * i
      invariant Consumed(query, book, side, orders, value, depth)
      invariant orders == LIMIT * i || Enough(book, side, orders)
      decreases MAX_ITERATIONS - i
    {
      var response := query(orders);
      assert orders == 0 || orders == LIMIT;
      if !response.Ok? {
        NoPrice(query, book, side, orders);
        return Err;
      }
      var page := response.value;
      if page == [] {
        NoPrice(query, book, side, orders);
        return Err;
      }
      var ok;
      ok, orders, value, depth := Consume(query, book, side, page, orders, value, depth);
      if !ok {
        NoPriceAfterZero(query, book, side, orders);
        return Err;
      }
      if |page| < LIMIT {
        if !Enough(book, side, orders) {
          NoPrice(query, book, side, orders);
        }
        break;
      }
      i := i + 1;
    }
    if orders < MIN_ORDERS || value < MIN_VALUE || depth == 0 {
      if Enough(book, side, orders) {
        EnoughHasDepth(book, side, orders);
      }
      NoPrice(query, book, side, orders);
      return Err;
    }
    assert Prices(query, book, side, orders);
    forall n | Prices(query, book, side, n) ensures n == orders {
      ShortestIsUnique(book, side, n, orders);
    }
    if pair.IsFailure() {
      return Err;
    }
    var average := FromRatio(value, depth);
    r := Ok(Rounded(pair.value, side, average.value));
  }

  /** Nothing prices the side once a prefix is not enough and the book, the page limit or the query stops there. */
  lemma {:induction false} NoPrice(query: Query, book: Book, side: Side, orders: nat)
    requires Pages(query, book) && orders <= |book|
    requires forall m :: 0 <= m <= orders ==> !Enough(book, side, m)
    requires orders == |book| || orders == MAX_ITERATIONS * LIMIT ||
        ((orders == 0 || orders == LIMIT) && !query(orders).Ok?)
    ensures forall n :: !Prices(query, book, side, n)
  {
  }

  lemma {:induction false} NoPriceAfterZero(query: Query, book: Book, side: Side, z: nat)
    requires ZeroAt(book, side, z)
    ensures forall n :: !Prices(query, book, side, n)
  {
  }

  lemma {:induction false} ShortestIsUnique(book: Book, side: Side, m: nat, n: nat)
    requires m <= |book| && n <= |book| && Shortest(book, side, m) && Shortest(book, side, n)
    ensures m == n
  {
  }

  /** The separate check for a zero depth never fires: a value takes some depth. */
  lemma {:induction false} EnoughHasDepth(book: Book, side: Side, n: nat)
    requires n <= |book| && Priced(book, n)
    ensures Value(book, side, n) > 0 ==> Depth(book, side, n) > 0
  {
    if n > 0 {
      EnoughHasDepth(book, side, n - 1);
      var x := book[n - 1];
      if side.Quote? && x.total > 0 {
        CeilBounds(x.total * ONE, x.price);
      }
    }
  }

  // ---- Where the average lies ----

  predicate Between(book: Book, n: nat, low: Decimal, high: Decimal)
    requires n <= |book|
  {
    forall i :: 0 <= i < n ==> low <= book[i].price <= high
  }

  /** One order's value against its depth, at a bound on its price. */
  lemma {:induction false} OrderBounds(x: Item, side: Side, low: Decimal, high: Decimal)
    requires 0 < low <= x.price <= high
    ensures QuoteValue(x, side) * ONE <= high * BaseDepth(x, side)
    ensures side.Base? ==> low * BaseDepth(x, side) < QuoteValue(x, side) * ONE + ONE
    ensures side.Quote? ==> low * BaseDepth(x, side) < QuoteValue(x, side) * ONE + low
  {
    var d, v := BaseDepth(x, side), QuoteValue(x, side);
    MulMonotone(x.price, high, d);
    MulMonotone(low, x.price, d);
    if side.Base? {
      DivBounds(x.total * x.price, ONE);
    } else {
      CeilBounds(x.total * ONE, x.price);
      assert d * x.price >= x.total * ONE;
      if d > 0 {
        assert (d - 1) * x.price < x.total * ONE;
        MulMonotone(low, x.price, d - 1);
        assert low * d == low * (d - 1) + low;
      }
    }
  }

  lemma {:induction false} PrefixBounds(book: Book, side: Side, n: nat, low: Decimal, high: Decimal)
    requires n <= |book| && low > 0 && Between(book, n, low, high)
    ensures Value(book, side, n) * ONE <= high * Depth(book, side, n)
    ensures low * Depth(book, side, n) <= Value(book, side, n) * ONE + n * (if side.Base? then ONE else low)
  {
    if n > 0 {
      PrefixBounds(book, side, n - 1, low, high);
      var x, unit := book[n - 1], if side.Base? then ONE else low;
      OrderBounds(x, side, low, high);
      var v, d, v1, d1 := Value(book, side, n - 1), Depth(book, side, n - 1), QuoteValue(x, side), BaseDepth(x, side);
      AddOrder(v, v1, d, d1, low, high, n - 1, unit);
    }
  }

  lemma {:induction false} AddOrder(v: int, v1: int, d: int, d1: int, low: int, high: int, n: int, unit: int)
    requires v * ONE <= high * d && low * d <= v * ONE + n * unit
    requires v1 * ONE <= high * d1 && low * d1 <= v1 * ONE + unit
    ensures (v + v1) * ONE <= high * (d + d1) && low * (d + d1) <= (v + v1) * ONE + (n + 1) * unit
  {
    assert high * (d + d1) == high * d + high * d1;
    assert low * (d + d1) == low * d + low * d1;
    assert (n + 1) * unit == n * unit + unit;
  }

  /**
   * The average is never above the highest consumed price, and below the lowest by no more than rounding: less than
   * one unit per order, spread over the depth, plus one atom.
   */
  lemma {:induction false} AverageIsBetween(book: Book, side: Side, n: nat, low: Decimal, high: Decimal)
    requires n <= |book| && low > 0 && Between(book, n, low, high) && Average(book, side, n).Ok?
    ensures var vwap, depth := Average(book, side, n).value, Depth(book, side, n);
      && vwap <= high
      && (low - vwap - 1) * depth <= n * (if side.Base? then ONE else low)
  {
    PrefixBounds(book, side, n, low, high);
    QuotientBetween(Value(book, side, n) * ONE, Depth(book, side, n), low, high, n * (if side.Base? then ONE else low));
  }

  lemma {:induction false} QuotientBetween(x: nat, depth: nat, low: nat, high: nat, slack: nat)
    requires depth > 0 && x <= high * depth && low * depth <= x + slack
    ensures x / depth <= high && (low - x / depth - 1) * depth <= slack
  {
    var q := x / depth;
    DivBounds(x, depth);
    assert (high + 1) * depth == high * depth + depth;
    DivAtLeast(x, depth, high + 1);
    assert (low - q - 1) * depth == low * depth - q * depth - depth;
  }
}
