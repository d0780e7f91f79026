/** The distribution action: splitting every balance among destinations by shares. */
module Distributions {
  import opened Outcomes
  import opened Arithmetic
  import opened Decimals
  import opened Money
  import opened Records

  const MINIMUM_TOTAL_SHARES: nat := 10_000

  datatype Affiliate = Affiliate(name: string, address: Address, bps: nat)

  datatype Recipient = Bank(address: Address) | Contract(address: Address, msg: string) | Deposit(memo: string)

  /** `distributions` is what the destination has received so far; at first it is whatever the user submits. */
  datatype Destination = Destination(shares: nat, recipient: Recipient, name: Option<string>,
                                       distributions: Option<seq<Coin>>)

  datatype Distribution = Distribution(denoms: seq<Denom>, destinations: seq<Destination>)

  function Shares(ds: seq<Destination>): (shares: seq<nat>)
    ensures |shares| == |ds| && forall i :: 0 <= i < |ds| ==> shares[i] == ds[i].shares
  {
    seq(|ds|, i requires 0 <= i < |ds| => ds[i].shares)
  }

  function Sum(xs: seq<nat>): nat {
    if xs == [] then 0 else Sum(xs[..|xs| - 1]) + xs[|xs| - 1]
  }

  function TotalShares(ds: seq<Destination>): nat {
    Sum(Shares(ds))
  }

  predicate NoDuplicates(denoms: seq<Denom>) {
    forall i, j :: 0 <= i < j < |denoms| ==> denoms[i] != denoms[j]
  }

  // ---- One denom ----

  /** What the first `n` destinations take, none of them being the last one. */
  function Taken(b: nat, shares: seq<nat>, n: nat, total: nat): nat
    requires total > 0 && n <= |shares|
  {
    if n == 0 then 0 else Taken(b, shares, n - 1, total) + Cut(b, shares[n - 1], total)
  }

  /** Destination `i`'s amount: a cut by its shares, or all that remains for the last. */
  function Amount(b: nat, shares: seq<nat>, i: nat): nat
    requires i < |shares| && Sum(shares) > 0
  {
    TakenAtMost(b, shares, |shares| - 1);
    if i == |shares| - 1 then b - Taken(b, shares, i, Sum(shares)) else Cut(b, shares[i], Sum(shares))
  }

  lemma {:induction false} TakenBounds(b: nat, shares: seq<nat>, n: nat, total: nat)
    requires total > 0 && n <= |shares|
    ensures Taken(b, shares, n, total) * total <= b * Sum(shares[..n])
    ensures n > 0 ==> (b * Sum(shares[..n]) - Taken(b, shares, n, total) * total) * ONE < n * (total * (ONE + b))
  {
    if n > 0 {
      TakenBounds(b, shares, n - 1, total);
      assert shares[..n][..n - 1] == shares[..n - 1];
      CutBounds(b, shares[n - 1], total);
      AddBounds(b, Sum(shares[..n - 1]), shares[n - 1], Taken(b, shares, n - 1, total), Cut(b, shares[n - 1], total),
                total, n - 1, total * (ONE + b));
    }
  }

  lemma {:induction false} AddBounds(b: int, s: int, s1: int, t: int, a: int, total: int, n: int, unit: int)
    requires t * total <= b * s && (n > 0 ==> (b * s - t * total) * ONE < n * unit) && n >= 0
    requires n == 0 ==> s == 0 && t == 0
    requires a * total <= b * s1 && (b * s1 - a * total) * ONE < unit
    ensures (t + a) * total <= b * (s + s1) && (b * (s + s1) - (t + a) * total) * ONE < (n + 1) * unit
  {
    assert b * (s + s1) == b * s + b * s1;
    assert (t + a) * total == t * total + a * total;
    assert (n + 1) * unit == n * unit + unit;
  }

  /** The non-final destinations never take more than there is, so the running remainder never underflows. */
  lemma {:induction false} TakenAtMost(b: nat, shares: seq<nat>, n: nat)
    requires n <= |shares| && Sum(shares) > 0
    ensures Taken(b, shares, n, Sum(shares)) <= b
  {
    TakenBounds(b, shares, n, Sum(shares));
    PrefixSum(shares, n);
    CancelFactor(Taken(b, shares, n, Sum(shares)), b, Sum(shares[..n]), Sum(shares));
  }

  lemma {:induction false} CancelFactor(t: int, b: nat, s: int, total: int)
    requires total > 0 && s <= total && t * total <= b * s
    ensures t <= b
  {
    MulMonotone(s, total, b);
    if t > b {
      MulMonotone(b + 1, t, total);
    }
  }

  lemma {:induction false} PrefixSum(xs: seq<nat>, n: nat)
    requires n <= |xs|
    ensures Sum(xs[..n]) <= Sum(xs)
  {
    if n == |xs| {
      assert xs[..n] == xs;
    } else {
      PrefixSum(xs[..|xs| - 1], n);
      assert xs[..|xs| - 1][..n] == xs[..n];
    }
  }

  /** Who gets how much: the amount for destination `i` out of balance `b`. */
  type Plan = (nat, nat) -> nat

  function ByShares(shares: seq<nat>): Plan
    requires Sum(shares) > 0
  {
    (i: nat, b: nat) => if i < |shares| then Amount(b, shares, i) else 0
  }

  /** What the first `n` destinations get out of balance `b`. */
  function Planned(plan: Plan, b: nat, n: nat): nat {
    if n == 0 then 0 else Planned(plan, b, n - 1) + plan(n - 1, b)
  }

  lemma {:induction false} PlannedIsTaken(b: nat, shares: seq<nat>, n: nat)
    requires n < |shares| && Sum(shares) > 0
    ensures Planned(ByShares(shares), b, n) == Taken(b, shares, n, Sum(shares))
  {
    if n > 0 {
      PlannedIsTaken(b, shares, n - 1);
    }
  }

  /** The whole balance is paid out, no more and no less. */
  lemma {:induction false} AmountsConserve(b: nat, shares: seq<nat>)
    requires Sum(shares) > 0
    ensures Planned(ByShares(shares), b, |shares|) == b
  {
    PlannedIsTaken(b, shares, |shares| - 1);
    TakenAtMost(b, shares, |shares| - 1);
  }

  /** How far each amount is from its exact part: the last gets at least its part and the others' shortfalls. */
  lemma {:induction false} AmountIsProRata(b: nat, shares: seq<nat>, i: nat)
    requires i < |shares| && Sum(shares) > 0
    ensures var a, total, n := Amount(b, shares, i), Sum(shares), |shares|;
      && (i < n - 1 ==> a * total <= b * shares[i] && (b * shares[i] - a * total) * ONE < total * (ONE + b))
      && (i == n - 1 ==> a * total >= b * shares[i])
      && (i == n - 1 && n == 1 ==> a == b)
      && (i == n - 1 && n > 1 ==> (a * total - b * shares[i]) * ONE < (n - 1) * (total * (ONE + b)))
  {
    var total := Sum(shares);
    if i < |shares| - 1 {
      CutBounds(b, shares[i], total);
    } else {
      TakenBounds(b, shares, i, total);
      TakenAtMost(b, shares, i);
      LastBounds(b, Sum(shares[..i]), shares[i], Taken(b, shares, i, total));
    }
  }

  /** What the others fall short by is what the last one gets on top. */
  lemma {:induction false} LastBounds(b: int, s: int, last: int, t: int)
    ensures (b - t) * (s + last) - b * last == b * s - t * (s + last)
  {
  }

  // ---- All denoms ----

  function Push(coins: seq<Coin>, denom: Denom, a: nat): seq<Coin> {
    if a == 0 then coins else coins + [Coin(denom, a)]
  }

  /** The coins destination `i` receives, in the order of the balances, without zeros. */
  function Received(balances: seq<Coin>, plan: Plan, i: nat): seq<Coin> {
    if balances == [] then []
    else
      var last := balances[|balances| - 1];
      Push(Received(balances[..|balances| - 1], plan, i), last.denom, plan(i, last.amount))
  }

  /** What is sent: one message for each destination that receives something. */
  datatype Payment = Payment(recipient: Recipient, coins: seq<Coin>)

  function Pay(ps: seq<Payment>, recipient: Recipient, coins: seq<Coin>): seq<Payment> {
    if coins == [] then ps else ps + [Payment(recipient, coins)]
  }

  function Payments(ds: seq<Destination>, balances: seq<Coin>, plan: Plan, n: nat): seq<Payment>
    requires n <= |ds|
  {
    if n == 0 then []
    else Pay(Payments(ds, balances, plan, n - 1), ds[n - 1].recipient, Received(balances, plan, n - 1))
  }

  function Recorded(d: Destination): seq<Coin> {
    if d.distributions.Some? then d.distributions.value else []
  }

  /** The destination credited with what it receives; its record must convert, that is, repeat no denom. */
  function Credit(d: Destination, coins: seq<Coin>): Outcome<Destination> {
    var record :- FromVec(Recorded(d));
    Ok(d.(distributions := Some(AddCoins(record, coins))))
  }

  function Keep(kept: seq<Destination>, d: Destination, coins: seq<Coin>): Outcome<seq<Destination>> {
    if coins == [] then Ok(kept)
    else
      var credited :- Credit(d, coins);
      Ok(kept + [credited])
  }

  function Kept(ds: seq<Destination>, balances: seq<Coin>, plan: Plan, n: nat): Outcome<seq<Destination>>
    requires n <= |ds|
  {
    if n == 0 then Ok([])
    else
      var kept :- Kept(ds, balances, plan, n - 1);
      Keep(kept, ds[n - 1], Received(balances, plan, n - 1))
  }

  function Balances(denoms: seq<Denom>, balance: Denom -> Outcome<nat>): Outcome<seq<Coin>> {
    if denoms == [] then Ok([])
    else
      var rest :- Balances(denoms[..|denoms| - 1], balance);
      var last := denoms[|denoms| - 1];
      var b :- balance(last);
      Ok(Push(rest, last, b))
  }

  lemma {:induction false} BalancesAre(denoms: seq<Denom>, balance: Denom -> Outcome<nat>)
    requires NoDuplicates(denoms) && Balances(denoms, balance).Ok?
    ensures var bs := Balances(denoms, balance).value;
      && DistinctDenoms(bs)
      && forall k :: 0 <= k < |bs| ==>
          bs[k].denom in denoms && bs[k].amount > 0 && balance(bs[k].denom) == Ok(bs[k].amount)
  {
    if denoms != [] {
      var init := denoms[..|denoms| - 1];
      BalancesAre(init, balance);
      forall x | x in init ensures x in denoms && x != denoms[|denoms| - 1] {
        var i :| 0 <= i < |init| && init[i] == x;
        assert denoms[i] == x;
      }
    }
  }

  /**
   * `execute_unsafe`, as a function: nothing to split leaves the action alone; no shares to split by is a division by
   * zero; a record that does not convert is an error.
   */
  function Execute(d: Distribution, balance: Denom -> Outcome<nat>): Outcome<(seq<Payment>, Distribution)> {
    var bs :- Balances(d.denoms, balance);
    var ds := d.destinations;
    if bs == [] || ds == [] then Ok(([], d))
    else if TotalShares(ds) == 0 then Panic
    else
      var plan := ByShares(Shares(ds));
      var kept :- Kept(ds, bs, plan, |ds|);
      Ok((Payments(ds, bs, plan, |ds|), d.(destinations := kept)))
  }

  /** The remainder after the first `n` destinations, coin by coin, the first `m` coins of destination `n` gone too. */
  ghost predicate RemainderIs(remaining: Coins, balances: seq<Coin>, plan: Plan, n: nat, m: nat) {
    forall k :: 0 <= k < |balances| ==>
      AmountOf(remaining, balances[k].denom) ==
          balances[k].amount - Planned(plan, balances[k].amount, if k < m then n + 1 else n)
  }

  lemma {:induction false} TakeOne(remaining: Coins, balances: seq<Coin>, plan: Plan, n: nat, m: nat, remaining': Coins)
    requires DistinctDenoms(balances) && m < |balances| && RemainderIs(remaining, balances, plan, n, m)
    requires var c, a := balances[m], plan(n, balances[m].amount);
      && a <= AmountOf(remaining, c.denom)
      && remaining' == (if a == 0 then remaining else remaining[c.denom := AmountOf(remaining, c.denom) - a])
    ensures RemainderIs(remaining', balances, plan, n, m + 1)
  {
    forall k | 0 <= k < |balances|
      ensures AmountOf(remaining', balances[k].denom) ==
              balances[k].amount - Planned(plan, balances[k].amount, if k < m + 1 then n + 1 else n)
    {
      assert AmountOf(remaining, balances[k].denom) ==
          balances[k].amount - Planned(plan, balances[k].amount, if k < m then n + 1 else n);
      assert k != m ==> balances[k].denom != balances[m].denom;
    }
  }

  lemma {:induction false} NextAmount(b: nat, shares: seq<nat>, n: nat)
    requires n < |shares| && Sum(shares) > 0
    ensures var plan := ByShares(shares);
      && Planned(plan, b, n) + plan(n, b) <= b
      && (n == |shares| - 1 ==> plan(n, b) == b - Planned(plan, b, n))
      && (n < |shares| - 1 ==> plan(n, b) == Cut(b, shares[n], Sum(shares)))
  {
    if n == |shares| - 1 {
      LastAmount(b, shares);
    } else {
      EarlierAmount(b, shares, n);
    }
  }

  lemma {:induction false} LastAmount(b: nat, shares: seq<nat>)
    requires Sum(shares) > 0
    ensures var plan, n := ByShares(shares), |shares| - 1;
      Planned(plan, b, n) <= b && plan(n, b) == b - Planned(plan, b, n)
  {
    PlannedIsTaken(b, shares, |shares| - 1);
    TakenAtMost(b, shares, |shares| - 1);
  }

  lemma {:induction false} EarlierAmount(b: nat, shares: seq<nat>, n: nat)
    requires n < |shares| - 1 && Sum(shares) > 0
    ensures var plan := ByShares(shares);
      Planned(plan, b, n) + plan(n, b) <= b && plan(n, b) == Cut(b, shares[n], Sum(shares))
  {
    PlannedIsTaken(b, shares, n);
    TakenAtMost(b, shares, n + 1);
  }

  lemma {:induction false} TakenAmount(remaining: Coins, balances: seq<Coin>, shares: seq<nat>, i: nat, m: nat)
    requires i < |shares| && Sum(shares) > 0 && m < |balances|
    requires RemainderIs(remaining, balances, ByShares(shares), i, m)
    ensures var a := ByShares(shares)(i, balances[m].amount);
      && a <= AmountOf(remaining, balances[m].denom)
      && a == if i == |shares| - 1 then AmountOf(remaining, balances[m].denom)
              else MulFloor(balances[m].amount, shares[i] * ONE / Sum(shares))
  {
    NextAmount(balances[m].amount, shares, i);
  }

  /** One destination's coins, taken out of `remaining`. Returns the coins and what remains. */
  method SplitOff(balances: seq<Coin>, shares: seq<nat>, i: nat, before: Coins)
    returns (coins: seq<Coin>, remaining: Coins)
    requires i < |shares| && Sum(shares) > 0 && DistinctDenoms(balances)
    requires RemainderIs(before, balances, ByShares(shares), i, 0)
    ensures coins == Received(balances, ByShares(shares), i)
    ensures RemainderIs(remaining, balances, ByShares(shares), i + 1, 0)
  {
    coins, remaining := [], before;
    var ratio := shares[i] * ONE / Sum(shares);
    ghost var plan := ByShares(shares);
    for m := 0 to |balances|
      invariant coins == Received(balances[..m], plan, i)
      invariant RemainderIs(remaining, balances, plan, i, m)
    {
      var coin := balances[m];
      TakenAmount(remaining, balances, shares, i, m);
      var amount := if i == |shares| - 1 then AmountOf(remaining, coin.denom) else MulFloor(coin.amount, ratio);
      coins, remaining := TakeCoin(balances, plan, i, m, amount, coins, remaining);
    }
    assert balances[..|balances|] == balances;
  }

  /** Takes one coin's amount out of the remainder, unless it is zero. */
  method TakeCoin(balances: seq<Coin>, ghost plan: Plan, ghost i: nat, m: nat, amount: nat, before: seq<Coin>,
                  left: Coins)
    returns (coins: seq<Coin>, remaining: Coins)
    requires DistinctDenoms(balances) && m < |balances| && RemainderIs(left, balances, plan, i, m)
    requires amount == plan(i, balances[m].amount) <= AmountOf(left, balances[m].denom)
    requires before == Received(balances[..m], plan, i)
    ensures coins == Received(balances[..m + 1], plan, i)
    ensures RemainderIs(remaining, balances, plan, i, m + 1)
  {
    var denom := balances[m].denom;
    coins, remaining := before, left;
    if amount != 0 {
      remaining := left[denom := AmountOf(left, denom) - amount];
      coins := coins + [Coin(denom, amount)];
    }
    assert balances[..m + 1][..m] == balances[..m];
    TakeOne(left, balances, plan, i, m, remaining);
  }

  function AsCoins(balances: seq<Coin>): Coins {
    if balances == [] then map[]
    else AsCoins(balances[..|balances| - 1])[balances[|balances| - 1].denom := balances[|balances| - 1].amount]
  }

  lemma {:induction false} AsCoinsAmounts(balances: seq<Coin>, k: nat)
    requires DistinctDenoms(balances) && k < |balances|
    ensures AmountOf(AsCoins(balances), balances[k].denom) == balances[k].amount
  {
    if k < |balances| - 1 {
      AsCoinsAmounts(balances[..|balances| - 1], k);
    }
  }

  lemma {:induction false} RemainderStarts(balances: seq<Coin>, plan: Plan)
    requires DistinctDenoms(balances)
    ensures RemainderIs(AsCoins(balances), balances, plan, 0, 0)
  {
    forall k | 0 <= k < |balances| ensures AmountOf(AsCoins(balances), balances[k].denom) == balances[k].amount {
      AsCoinsAmounts(balances, k);
    }
  }

  /** What the first `n` destinations come to: who is paid and who is kept, or the record that does not convert. */
  function Divided(ds: seq<Destination>, balances: seq<Coin>, plan: Plan, n: nat)
    : Outcome<(seq<Payment>, seq<Destination>)>
    requires n <= |ds|
  {
    var kept :- Kept(ds, balances, plan, n);
    Ok((Payments(ds, balances, plan, n), kept))
  }

  /** The loop over destinations: what each receives, and which are kept; it stops at a record that does not convert. */
  method Split(ds: seq<Destination>, balances: seq<Coin>) returns (r: Outcome<(seq<Payment>, seq<Destination>)>)
    requires TotalShares(ds) > 0 && DistinctDenoms(balances)
    ensures r == Divided(ds, balances, ByShares(Shares(ds)), |ds|)
  {
    var remaining := AsCoins(balances);
    ghost var plan := ByShares(Shares(ds));
    RemainderStarts(balances, plan);
    var payments: seq<Payment>, kept: seq<Destination> := [], [];
    for i := 0 to |ds|
      invariant RemainderIs(remaining, balances, plan, i, 0)
      invariant Divided(ds, balances, plan, i) == Ok((payments, kept))
    {
      var more;
      more, remaining := SplitOne(ds, balances, i, remaining, payments, kept);
      if more.IsFailure() {
        KeptFailsEarly(ds, balances, plan, i + 1, |ds|);
        return more;
      }
      payments, kept := more.value.0, more.value.1;
    }
    r := Ok((payments, kept));
  }

  /** One turn of that loop: takes the destination's coins out of the remainder, pays it and keeps it. */
  method SplitOne(ds: seq<Destination>, balances: seq<Coin>, i: nat, before: Coins, payments: seq<Payment>,
                  kept: seq<Destination>)
    returns (more: Outcome<(seq<Payment>, seq<Destination>)>, remaining: Coins)
    requires i < |ds| && TotalShares(ds) > 0 && DistinctDenoms(balances)
    requires RemainderIs(before, balances, ByShares(Shares(ds)), i, 0)
    requires Divided(ds, balances, ByShares(Shares(ds)), i) == Ok((payments, kept))
    ensures more == Divided(ds, balances, ByShares(Shares(ds)), i + 1)
    ensures RemainderIs(remaining, balances, ByShares(Shares(ds)), i + 1, 0)
  {
    var coins;
    coins, remaining := SplitOff(balances, Shares(ds), i, before);
    more := PayOne(ds, balances, ByShares(Shares(ds)), i, coins, payments, kept);
  }

  /** One destination: nothing if it receives nothing, else its message and its updated record. */
  method PayOne(ds: seq<Destination>, ghost balances: seq<Coin>, ghost plan: Plan, i: nat, coins: seq<Coin>,
                payments: seq<Payment>, kept: seq<Destination>)
    returns (r: Outcome<(seq<Payment>, seq<Destination>)>)
    requires i < |ds| && coins == Received(balances, plan, i)
    requires Divided(ds, balances, plan, i) == Ok((payments, kept))
    ensures r == Divided(ds, balances, plan, i + 1)
  {
    if coins == [] {
      return Ok((payments, kept));
    }
    var credited := CreditOne(ds[i], coins);
    if credited.IsFailure() {
      return credited.PropagateFailure();
    }
    r := Ok((payments + [Payment(ds[i].recipient, coins)], kept + [credited.value]));
  }

  lemma {:induction false} KeptFailsEarly(ds: seq<Destination>, balances: seq<Coin>, plan: Plan, i: nat, n: nat)
    requires i <= n <= |ds| && Kept(ds, balances, plan, i).IsFailure()
    ensures Kept(ds, balances, plan, n) == Kept(ds, balances, plan, i)
  {
    if i < n {
      KeptFailsEarly(ds, balances, plan, i, n - 1);
      KeptStaysFailed(ds, balances, plan, n);
    }
  }

  lemma {:induction false} KeptStaysFailed(ds: seq<Destination>, balances: seq<Coin>, plan: Plan, n: nat)
    requires 0 < n <= |ds| && Kept(ds, balances, plan, n - 1).IsFailure()
    ensures Kept(ds, balances, plan, n) == Kept(ds, balances, plan, n - 1)
  {
  }

  /** Converts the destination's record and adds what it received, coin by coin. */
  method CreditOne(d: Destination, coins: seq<Coin>) returns (r: Outcome<Destination>)
    ensures r == Credit(d, coins)
  {
    var converted := FromVec(Recorded(d));
    if converted.IsFailure() {
      return converted.PropagateFailure();
    }
    var record := converted.value;
    for k := 0 to |coins|
      invariant record == AddCoins(converted.value, coins[..k])
    {
      assert coins[..k + 1][..k] == coins[..k];
      record := AddCoin(record, coins[k]);
    }
    assert coins[..|coins|] == coins;
    r := Ok(d.(distributions := Some(record)));
  }

  /** The loop that queries the balances, stopping at the first query that fails. */
  method QueryBalances(denoms: seq<Denom>, balance: Denom -> Outcome<nat>) returns (r: Outcome<seq<Coin>>)
    ensures r == Balances(denoms, balance)
  {
    var coins := [];
    for k := 0 to |denoms|
      invariant Balances(denoms[..k], balance) == Ok(coins)
    {
      assert denoms[..k + 1][..k] == denoms[..k];
      var b := balance(denoms[k]);
      if b.IsFailure() {
        BalancesFailEarly(denoms, balance, k + 1);
        return b.PropagateFailure();
      }
      coins := Push(coins, denoms[k], b.value);
    }
    assert denoms[..|denoms|] == denoms;
    r := Ok(coins);
  }

  lemma {:induction false} BalancesFailEarly(denoms: seq<Denom>, balance: Denom -> Outcome<nat>, k: nat)
    requires k <= |denoms| && Balances(denoms[..k], balance).IsFailure()
    ensures Balances(denoms, balance) == Balances(denoms[..k], balance)
  {
    if k == |denoms| {
      assert denoms[..k] == denoms;
    } else {
      var rest := denoms[..|denoms| - 1];
      assert rest[..k] == denoms[..k];
      BalancesFailEarly(rest, balance, k);
    }
  }

  method ExecuteUnsafe(d: Distribution, balance: Denom -> Outcome<nat>)
    returns (r: Outcome<(seq<Payment>, Distribution)>)
    requires NoDuplicates(d.denoms)
    ensures r == Execute(d, balance)
  {
    var queried := QueryBalances(d.denoms, balance);
    if queried.IsFailure() {
      return queried.PropagateFailure();
    }
    if queried.value == [] {
      return Ok(([], d));
    }
    BalancesAre(d.denoms, balance);
    var ds := d.destinations;
    if ds == [] {
      return Ok(([], d));
    }
    if TotalShares(ds) == 0 {
      return Panic;
    }
    var split := Split(ds, queried.value);
    if split.IsFailure() {
      return split.PropagateFailure();
    }
    r := Ok((split.value.0, d.(destinations := split.value.1)));
  }

  // ---- Conservation over the whole call ----

  function Paid(ps: seq<Payment>, d: Denom): nat {
    if ps == [] then 0 else Paid(ps[..|ps| - 1], d) + CoinTotal(ps[|ps| - 1].coins, d)
  }

  lemma {:induction false} CoinTotalPush(coins: seq<Coin>, denom: Denom, a: nat, d: Denom)
    ensures CoinTotal(Push(coins, denom, a), d) == CoinTotal(coins, d) + if denom == d then a else 0
  {
    if a != 0 {
      assert (coins + [Coin(denom, a)])[..|coins|] == coins;
    }
  }

  lemma {:induction false} PaidPush(ps: seq<Payment>, recipient: Recipient, coins: seq<Coin>, d: Denom)
    ensures Paid(Pay(ps, recipient, coins), d) == Paid(ps, d) + CoinTotal(coins, d)
  {
    if coins != [] {
      assert (ps + [Payment(recipient, coins)])[..|ps|] == ps;
    }
  }

  lemma {:induction false} ReceivedIsPlanned(balances: seq<Coin>, plan: Plan, i: nat, k: nat)
    requires DistinctDenoms(balances) && k < |balances|
    ensures CoinTotal(Received(balances, plan, i), balances[k].denom) == plan(i, balances[k].amount)
  {
    var n := |balances| - 1;
    if k == n {
      NoneReceived(balances[..n], plan, i, balances[k].denom);
    } else {
      ReceivedIsPlanned(balances[..n], plan, i, k);
    }
    ReceivedPush(balances, plan, i, balances[k].denom);
  }

  lemma {:induction false} ReceivedPush(balances: seq<Coin>, plan: Plan, i: nat, d: Denom)
    requires balances != []
    ensures var last := balances[|balances| - 1];
      CoinTotal(Received(balances, plan, i), d) ==
      CoinTotal(Received(balances[..|balances| - 1], plan, i), d) + if last.denom == d then plan(i, last.amount) else 0
  {
    var last := balances[|balances| - 1];
    CoinTotalPush(Received(balances[..|balances| - 1], plan, i), last.denom, plan(i, last.amount), d);
  }

  lemma {:induction false} NoneReceived(balances: seq<Coin>, plan: Plan, i: nat, d: Denom)
    requires forall k :: 0 <= k < |balances| ==> balances[k].denom != d
    ensures CoinTotal(Received(balances, plan, i), d) == 0
  {
    if balances != [] {
      var rest, last := balances[..|balances| - 1], balances[|balances| - 1];
      NoneReceived(rest, plan, i, d);
      CoinTotalPush(Received(rest, plan, i), last.denom, plan(i, last.amount), d);
    }
  }

  lemma {:induction false} PaidNext(ds: seq<Destination>, balances: seq<Coin>, plan: Plan, n: nat, d: Denom)
    requires 0 < n <= |ds|
    ensures Paid(Payments(ds, balances, plan, n), d) ==
            Paid(Payments(ds, balances, plan, n - 1), d) + CoinTotal(Received(balances, plan, n - 1), d)
  {
    PaidPush(Payments(ds, balances, plan, n - 1), ds[n - 1].recipient, Received(balances, plan, n - 1), d);
  }

  lemma {:induction false} PaidIsPlanned(ds: seq<Destination>, balances: seq<Coin>, plan: Plan, n: nat, k: nat)
    requires n <= |ds| && DistinctDenoms(balances) && k < |balances|
    ensures Paid(Payments(ds, balances, plan, n), balances[k].denom) == Planned(plan, balances[k].amount, n)
  {
    if n > 0 {
      PaidIsPlanned(ds, balances, plan, n - 1, k);
      ReceivedIsPlanned(balances, plan, n - 1, k);
      PaidNext(ds, balances, plan, n, balances[k].denom);
    }
  }

  lemma {:induction false} NothingPaid(ds: seq<Destination>, balances: seq<Coin>, plan: Plan, n: nat, d: Denom)
    requires n <= |ds| && forall k :: 0 <= k < |balances| ==> balances[k].denom != d
    ensures Paid(Payments(ds, balances, plan, n), d) == 0
  {
    forall i: nat ensures CoinTotal(Received(balances, plan, i), d) == 0 {
      NoneReceived(balances, plan, i, d);
    }
    NobodyPaid(ds, balances, plan, n, d);
  }

  lemma {:induction false} NobodyPaid(ds: seq<Destination>, balances: seq<Coin>, plan: Plan, n: nat, d: Denom)
    requires n <= |ds| && forall i: nat :: CoinTotal(Received(balances, plan, i), d) == 0
    ensures Paid(Payments(ds, balances, plan, n), d) == 0
  {
    if n > 0 {
      NobodyPaid(ds, balances, plan, n - 1, d);
      PaidNext(ds, balances, plan, n, d);
    }
  }

  lemma {:induction false} BalanceListed(denoms: seq<Denom>, balance: Denom -> Outcome<nat>, d: Denom)
    requires Balances(denoms, balance).Ok? && d in denoms && balance(d).Ok? && balance(d).value > 0
    ensures Coin(d, balance(d).value) in Balances(denoms, balance).value
  {
    var init := denoms[..|denoms| - 1];
    assert denoms == init + [denoms[|denoms| - 1]];
    var bs := Balances(denoms, balance).value;
    if d == denoms[|denoms| - 1] {
      assert bs[|bs| - 1] == Coin(d, balance(d).value);
    } else {
      BalanceListed(init, balance, d);
      var rest := Balances(init, balance).value;
      var k :| 0 <= k < |rest| && rest[k] == Coin(d, balance(d).value);
      assert bs[k] == Coin(d, balance(d).value);
    }
  }

  /** A distribution sends out each denom's whole balance, no more and no less. */
  lemma {:induction false} DistributionConserves(d: Distribution, balance: Denom -> Outcome<nat>, denom: Denom)
    requires NoDuplicates(d.denoms) && d.destinations != [] && denom in d.denoms
    requires balance(denom).Ok? && Execute(d, balance).Ok?
    ensures Paid(Execute(d, balance).value.0, denom) == balance(denom).value
  {
    var bs := Balances(d.denoms, balance).value;
    var ds := d.destinations;
    BalancesAre(d.denoms, balance);
    if balance(denom).value > 0 {
      BalanceListed(d.denoms, balance, denom);
      PaymentsConserve(ds, bs, denom, balance(denom).value);
    } else if bs != [] {
      NothingPaid(ds, bs, ByShares(Shares(ds)), |ds|, denom);
    }
  }

  lemma {:induction false} PaymentsConserve(ds: seq<Destination>, bs: seq<Coin>, denom: Denom, b: nat)
    requires TotalShares(ds) > 0 && DistinctDenoms(bs) && Coin(denom, b) in bs
    ensures Paid(Payments(ds, bs, ByShares(Shares(ds)), |ds|), denom) == b
  {
    var k :| 0 <= k < |bs| && bs[k] == Coin(denom, b);
    PaidIsPlanned(ds, bs, ByShares(Shares(ds)), |ds|, k);
    AmountsConserve(b, Shares(ds));
  }

  // ---- Who is kept ----

  /** Destination `i` receives something in some denom. */
  predicate Receives(balances: seq<Coin>, plan: Plan, i: nat) {
    exists k :: 0 <= k < |balances| && plan(i, balances[k].amount) > 0
  }

  lemma {:induction false} ReceivesSomething(balances: seq<Coin>, plan: Plan, i: nat)
    ensures Received(balances, plan, i) != [] <==> Receives(balances, plan, i)
  {
    if balances != [] {
      var rest, last := balances[..|balances| - 1], |balances| - 1;
      ReceivesSomething(rest, plan, i);
      if Receives(rest, plan, i) {
        var k :| 0 <= k < |rest| && plan(i, rest[k].amount) > 0;
        assert plan(i, balances[k].amount) > 0;
      }
      if Receives(balances, plan, i) && plan(i, balances[last].amount) == 0 {
        var k :| 0 <= k < |balances| && plan(i, balances[k].amount) > 0;
        assert plan(i, rest[k].amount) > 0;
      }
    }
  }

  /** The indices of the destinations that receive something, in order. */
  function Receivers(balances: seq<Coin>, plan: Plan, n: nat): seq<nat> {
    if n == 0 then []
    else Receivers(balances, plan, n - 1) + if Receives(balances, plan, n - 1) then [n - 1] else []
  }

  predicate KeepsInOrder(ds: seq<Destination>, balances: seq<Coin>, plan: Plan, kept: seq<Destination>,
                         payments: seq<Payment>, receivers: seq<nat>)
  {
    && |kept| == |payments| == |receivers|
    && forall j :: 0 <= j < |receivers| ==> KeptAs(ds, balances, plan, kept[j], payments[j], receivers[j])
  }

  /** Kept entry and payment belong to destination `i`, credited with what it receives. */
  predicate KeptAs(ds: seq<Destination>, balances: seq<Coin>, plan: Plan, kept: Destination, payment: Payment, i: nat) {
    && i < |ds|
    && payment == Payment(ds[i].recipient, Received(balances, plan, i))
    && Credit(ds[i], payment.coins) == Ok(kept)
  }

  /**
   * Where no record stands in the way, exactly the destinations that received something are kept and paid, in order,
   * each credited with its payment.
   */
  lemma {:induction false} KeptAreReceivers(ds: seq<Destination>, balances: seq<Coin>, plan: Plan, n: nat)
    requires n <= |ds| && Kept(ds, balances, plan, n).Ok?
    ensures KeepsInOrder(ds, balances, plan, Kept(ds, balances, plan, n).value, Payments(ds, balances, plan, n),
                         Receivers(balances, plan, n))
  {
    if n > 0 {
      var i := n - 1;
      KeptBefore(ds, balances, plan, n);
      KeptAreReceivers(ds, balances, plan, i);
      KeepStep(ds, balances, plan, Kept(ds, balances, plan, i).value, Payments(ds, balances, plan, i),
               Receivers(balances, plan, i), i);
    }
  }

  /** One destination more: what that adds to the kept, the paid and the receivers. */
  lemma {:induction false} KeptBefore(ds: seq<Destination>, balances: seq<Coin>, plan: Plan, n: nat)
    requires 0 < n <= |ds| && Kept(ds, balances, plan, n).Ok?
    ensures var before, i := Kept(ds, balances, plan, n - 1), n - 1;
      var coins := Received(balances, plan, i);
      && before.Ok? && Keep(before.value, ds[i], coins).Ok?
      && Kept(ds, balances, plan, n).value == Keep(before.value, ds[i], coins).value
      && Payments(ds, balances, plan, n) == Pay(Payments(ds, balances, plan, i), ds[i].recipient, coins)
      && Receivers(balances, plan, n) == Receivers(balances, plan, i) + if Receives(balances, plan, i) then [i] else []
  {
  }

  lemma {:induction false} KeepStep(ds: seq<Destination>, balances: seq<Coin>, plan: Plan, kept: seq<Destination>,
                                    ps: seq<Payment>, rs: seq<nat>, i: nat)
    requires i < |ds| && KeepsInOrder(ds, balances, plan, kept, ps, rs)
    requires Keep(kept, ds[i], Received(balances, plan, i)).Ok?
    ensures var coins := Received(balances, plan, i);
      KeepsInOrder(ds, balances, plan, Keep(kept, ds[i], coins).value, Pay(ps, ds[i].recipient, coins),
                   rs + if Receives(balances, plan, i) then [i] else [])
  {
    var coins := Received(balances, plan, i);
    ReceivesSomething(balances, plan, i);
    if Receives(balances, plan, i) {
      OneMore(ds, balances, plan, kept, ps, rs, Credit(ds[i], coins).value, Payment(ds[i].recipient, coins), i);
    } else {
      assert rs + [] == rs;
    }
  }

  lemma {:induction false} OneMore(ds: seq<Destination>, balances: seq<Coin>, plan: Plan, kept: seq<Destination>,
                                   ps: seq<Payment>, rs: seq<nat>, d: Destination, p: Payment, i: nat)
    requires KeepsInOrder(ds, balances, plan, kept, ps, rs) && KeptAs(ds, balances, plan, d, p, i)
    ensures KeepsInOrder(ds, balances, plan, kept + [d], ps + [p], rs + [i])
  {
  }

  // ---- Records in the way ----

  /** Destination `i` receives something, and its record repeats a denom. */
  ghost predicate Stops(ds: seq<Destination>, balances: seq<Coin>, plan: Plan, i: nat) {
    i < |ds| && Receives(balances, plan, i) && Repeats(Recorded(ds[i]))
  }

  /** None of the first `n` destinations stops the loop. */
  ghost predicate NoneStops(ds: seq<Destination>, balances: seq<Coin>, plan: Plan, n: nat) {
    n == 0 || (NoneStops(ds, balances, plan, n - 1) && !Stops(ds, balances, plan, n - 1))
  }

  lemma {:induction false} NoneStopsAt(ds: seq<Destination>, balances: seq<Coin>, plan: Plan, n: nat)
    ensures NoneStops(ds, balances, plan, n) <==> forall i :: 0 <= i < n ==> !Stops(ds, balances, plan, i)
  {
    if n > 0 {
      NoneStopsAt(ds, balances, plan, n - 1);
    }
  }

  /** The loop goes through the first `n` destinations. */
  predicate GetsPast(ds: seq<Destination>, balances: seq<Coin>, plan: Plan, n: nat)
    requires n <= |ds|
  {
    Kept(ds, balances, plan, n).Ok?
  }

  lemma {:induction false} KeptExactly(ds: seq<Destination>, balances: seq<Coin>, plan: Plan, n: nat)
    requires n <= |ds|
    ensures GetsPast(ds, balances, plan, n) <==> NoneStops(ds, balances, plan, n)
    ensures !Kept(ds, balances, plan, n).Panic?
  {
    if n > 0 {
      KeptExactly(ds, balances, plan, n - 1);
      GetsPastNext(ds, balances, plan, n);
    }
  }

  lemma {:induction false} GetsPastNext(ds: seq<Destination>, balances: seq<Coin>, plan: Plan, n: nat)
    requires 0 < n <= |ds| && !Kept(ds, balances, plan, n - 1).Panic?
    ensures GetsPast(ds, balances, plan, n) <==>
            GetsPast(ds, balances, plan, n - 1) && !Stops(ds, balances, plan, n - 1)
    ensures !Kept(ds, balances, plan, n).Panic?
  {
    if Kept(ds, balances, plan, n - 1).Ok? {
      GetsPastOne(ds, balances, plan, n);
    } else {
      KeptStaysFailed(ds, balances, plan, n);
    }
  }

  lemma {:induction false} GetsPastOne(ds: seq<Destination>, balances: seq<Coin>, plan: Plan, n: nat)
    requires 0 < n <= |ds| && Kept(ds, balances, plan, n - 1).Ok?
    ensures GetsPast(ds, balances, plan, n) <==> !Stops(ds, balances, plan, n - 1)
    ensures !Kept(ds, balances, plan, n).Panic?
  {
    KeepExactly(ds, balances, plan, n - 1, Kept(ds, balances, plan, n - 1).value);
    KeptGoesOn(ds, balances, plan, n);
  }

  lemma {:induction false} KeptGoesOn(ds: seq<Destination>, balances: seq<Coin>, plan: Plan, n: nat)
    requires 0 < n <= |ds| && Kept(ds, balances, plan, n - 1).Ok?
    ensures Kept(ds, balances, plan, n) ==
            Keep(Kept(ds, balances, plan, n - 1).value, ds[n - 1], Received(balances, plan, n - 1))
  {
  }

  lemma {:induction false} KeepExactly(ds: seq<Destination>, balances: seq<Coin>, plan: Plan, i: nat,
                                       kept: seq<Destination>)
    requires i < |ds|
    ensures !Keep(kept, ds[i], Received(balances, plan, i)).Panic?
    ensures Keep(kept, ds[i], Received(balances, plan, i)).Ok? <==> !Stops(ds, balances, plan, i)
  {
    ReceivesSomething(balances, plan, i);
    ConvertsExactly(Recorded(ds[i]));
  }

  predicate CleanRecords(ds: seq<Destination>) {
    forall i :: 0 <= i < |ds| ==> Clean(Recorded(ds[i])) && Sorted(Recorded(ds[i]))
  }

  /** Crediting a destination adds what it received to its record, which is clean and in order from then on. */
  lemma {:induction false} CreditAdds(d: Destination, coins: seq<Coin>)
    requires Credit(d, coins).Ok?
    ensures var d' := Credit(d, coins).value;
      && d' == d.(distributions := d'.distributions) && d'.distributions.Some?
      && Clean(d'.distributions.value) && Sorted(d'.distributions.value)
      && forall denom :: CoinTotal(Recorded(d'), denom) == CoinTotal(Recorded(d), denom) + CoinTotal(coins, denom)
  {
    ConvertsExactly(Recorded(d));
    ConvertedIsSorted(Recorded(d));
    AddingKeepsClean(FromVec(Recorded(d)).value, coins);
    AddingKeepsSorted(FromVec(Recorded(d)).value, coins);
  }

  /** Every record an execute leaves behind is clean and in order. */
  lemma {:induction false} KeptAreClean(ds: seq<Destination>, balances: seq<Coin>, plan: Plan)
    requires Kept(ds, balances, plan, |ds|).Ok?
    ensures CleanRecords(Kept(ds, balances, plan, |ds|).value)
  {
    KeptAreReceivers(ds, balances, plan, |ds|);
    var kept, ps := Kept(ds, balances, plan, |ds|).value, Payments(ds, balances, plan, |ds|);
    var rs := Receivers(balances, plan, |ds|);
    forall j | 0 <= j < |kept| ensures Clean(Recorded(kept[j])) && Sorted(Recorded(kept[j])) {
      assert KeptAs(ds, balances, plan, kept[j], ps[j], rs[j]);
      CreditAdds(ds[rs[j]], ps[j].coins);
    }
  }

  /**
   * With balances that can be queried, something to split and shares to split it by, an execute fails exactly when
   * some destination that would receive something has a record that repeats a denom; then nobody is paid.
   */
  lemma {:induction false} FailsExactly(d: Distribution, balance: Denom -> Outcome<nat>)
    requires Balances(d.denoms, balance).Ok? && Balances(d.denoms, balance).value != []
    requires d.destinations != [] && TotalShares(d.destinations) > 0
    ensures var ds, bs := d.destinations, Balances(d.denoms, balance).value;
      && !Execute(d, balance).Panic?
      && (Execute(d, balance).Err? <==> exists i :: Stops(ds, bs, ByShares(Shares(ds)), i))
      && (Execute(d, balance).Ok? ==> CleanRecords(Execute(d, balance).value.1.destinations))
  {
    var ds, bs := d.destinations, Balances(d.denoms, balance).value;
    var plan := ByShares(Shares(ds));
    KeptExactly(ds, bs, plan, |ds|);
    NoneStopsAt(ds, bs, plan, |ds|);
    if Execute(d, balance).Ok? {
      KeptAreClean(ds, bs, plan);
    }
  }

  /** With something to split and shares to split it by, somebody is kept. */
  lemma {:induction false} SomebodyIsKept(ds: seq<Destination>, balances: seq<Coin>)
    requires TotalShares(ds) > 0 && DistinctDenoms(balances) && balances != [] && balances[0].amount > 0
    requires Kept(ds, balances, ByShares(Shares(ds)), |ds|).Ok?
    ensures Kept(ds, balances, ByShares(Shares(ds)), |ds|).value != []
  {
    var plan := ByShares(Shares(ds));
    KeptAreReceivers(ds, balances, plan, |ds|);
    PaidIsPlanned(ds, balances, plan, |ds|, 0);
    AmountsConserve(balances[0].amount, Shares(ds));
  }

  lemma {:induction false} PositiveMemberPositiveSum(xs: seq<nat>, i: nat)
    requires i < |xs|
    ensures Sum(xs) >= xs[i]
  {
    if i < |xs| - 1 {
      PositiveMemberPositiveSum(xs[..|xs| - 1], i);
    }
  }

  lemma {:induction false} ReceiversAre(balances: seq<Coin>, plan: Plan, n: nat, i: nat)
    ensures i in Receivers(balances, plan, n) <==> i < n && Receives(balances, plan, i)
  {
    if n > 0 {
      ReceiversAre(balances, plan, n - 1, i);
    }
  }

  lemma {:induction false} AllZeroSum(xs: seq<nat>)
    requires forall i :: 0 <= i < |xs| ==> xs[i] == 0
    ensures Sum(xs) == 0
  {
    if xs != [] {
      AllZeroSum(xs[..|xs| - 1]);
    }
  }

  /** Some destination with shares receives something. */
  predicate SharesReceive(ds: seq<Destination>, balances: seq<Coin>, plan: Plan) {
    exists i :: 0 <= i < |ds| && ds[i].shares > 0 && Receives(balances, plan, i)
  }

  /** Kept destinations have shares exactly when one of the receivers has. */
  lemma {:induction false} KeptShares(ds: seq<Destination>, balances: seq<Coin>, plan: Plan)
    requires Kept(ds, balances, plan, |ds|).Ok?
    ensures TotalShares(Kept(ds, balances, plan, |ds|).value) > 0 <==> SharesReceive(ds, balances, plan)
  {
    var kept, ps := Kept(ds, balances, plan, |ds|).value, Payments(ds, balances, plan, |ds|);
    var rs := Receivers(balances, plan, |ds|);
    KeptAreReceivers(ds, balances, plan, |ds|);
    forall j | 0 <= j < |kept|
      ensures rs[j] < |ds| && kept[j].shares == ds[rs[j]].shares && Receives(balances, plan, rs[j])
    {
      assert KeptAs(ds, balances, plan, kept[j], ps[j], rs[j]);
      ReceiversAre(balances, plan, |ds|, rs[j]);
    }
    if SharesReceive(ds, balances, plan) {
      var i :| 0 <= i < |ds| && ds[i].shares > 0 && Receives(balances, plan, i);
      ReceiversAre(balances, plan, |ds|, i);
      var j :| 0 <= j < |rs| && rs[j] == i;
      PositiveMemberPositiveSum(Shares(kept), j);
    } else {
      AllZeroSum(Shares(kept));
    }
  }

  /** Every cut of every balance comes to nothing. */
  predicate NoCuts(ds: seq<Destination>, balances: seq<Coin>)
    requires TotalShares(ds) > 0
  {
    forall i, k :: 0 <= i < |ds| - 1 && 0 <= k < |balances| ==>
        Cut(balances[k].amount, ds[i].shares, TotalShares(ds)) == 0
  }

  /**
   * Keeping only who received something can leave nobody with shares, and then every later split divides by zero.
   * It happens exactly when the last destination has no shares and the balances are so small that every cut is zero,
   * so that the last destination takes everything.
   */
  lemma {:induction false} SharesLostExactly(ds: seq<Destination>, balances: seq<Coin>)
    requires TotalShares(ds) > 0 && balances != [] && forall k :: 0 <= k < |balances| ==> balances[k].amount > 0
    requires Kept(ds, balances, ByShares(Shares(ds)), |ds|).Ok?
    ensures TotalShares(Kept(ds, balances, ByShares(Shares(ds)), |ds|).value) == 0 <==>
            ds[|ds| - 1].shares == 0 && NoCuts(ds, balances)
  {
    var plan := ByShares(Shares(ds));
    KeptShares(ds, balances, plan);
    if NoCuts(ds, balances) {
      WithoutCuts(ds, balances);
    } else {
      var i, k :| 0 <= i < |ds| - 1 && 0 <= k < |balances| &&
          Cut(balances[k].amount, ds[i].shares, TotalShares(ds)) != 0;
      CutReceives(ds, balances, i, k);
    }
  }

  lemma {:induction false} CutReceives(ds: seq<Destination>, balances: seq<Coin>, i: nat, k: nat)
    requires TotalShares(ds) > 0 && i < |ds| - 1 && k < |balances|
    requires Cut(balances[k].amount, ds[i].shares, TotalShares(ds)) != 0
    ensures ds[i].shares > 0 && Receives(balances, ByShares(Shares(ds)), i)
  {
    var plan := ByShares(Shares(ds));
    EarlierAmount(balances[k].amount, Shares(ds), i);
    NoShareNoCut(balances[k].amount, TotalShares(ds));
    assert plan(i, balances[k].amount) > 0;
  }

  /** Without cuts only the last destination receives anything, and it does. */
  lemma {:induction false} WithoutCuts(ds: seq<Destination>, balances: seq<Coin>)
    requires TotalShares(ds) > 0 && balances != [] && balances[0].amount > 0 && NoCuts(ds, balances)
    ensures SharesReceive(ds, balances, ByShares(Shares(ds))) <==> ds[|ds| - 1].shares > 0
  {
    var plan, last := ByShares(Shares(ds)), |ds| - 1;
    LastTakesAll(balances[0].amount, Shares(ds));
    assert plan(last, balances[0].amount) > 0;
    assert Receives(balances, plan, last);
    forall i | 0 <= i < last ensures !Receives(balances, plan, i) {
      NoCutsNoReceipt(ds, balances, i);
    }
  }

  lemma {:induction false} NoCutsNoReceipt(ds: seq<Destination>, balances: seq<Coin>, i: nat)
    requires TotalShares(ds) > 0 && NoCuts(ds, balances) && i < |ds| - 1
    ensures !Receives(balances, ByShares(Shares(ds)), i)
  {
    forall k | 0 <= k < |balances| ensures ByShares(Shares(ds))(i, balances[k].amount) == 0 {
      EarlierAmount(balances[k].amount, Shares(ds), i);
    }
  }

  lemma {:induction false} LastTakesAll(b: nat, shares: seq<nat>)
    requires Sum(shares) > 0
    requires forall i :: 0 <= i < |shares| - 1 ==> Cut(b, shares[i], Sum(shares)) == 0
    ensures ByShares(shares)(|shares| - 1, b) == b
  {
    LastAmount(b, shares);
    PlannedIsTaken(b, shares, |shares| - 1);
    NothingTaken(b, shares, |shares| - 1);
  }

  lemma {:induction false} NoShareNoCut(b: nat, total: nat)
    requires total > 0
    ensures Cut(b, 0, total) == 0
  {
    DivModUnique(0, total, 0, 0);
    assert b * 0 == 0;
  }

  lemma {:induction false} NothingTaken(b: nat, shares: seq<nat>, n: nat)
    requires n < |shares| && Sum(shares) > 0
    requires forall i :: 0 <= i < n ==> Cut(b, shares[i], Sum(shares)) == 0
    ensures Taken(b, shares, n, Sum(shares)) == 0
  {
    if n > 0 {
      NothingTaken(b, shares, n - 1);
    }
  }

  // ---- Who is paid what, from the action's own settings ----

  /**
   * `a` is what destination `i` is due of balance `b`: its part by shares, truncated, or for the last one at least its
   * part, and over it by no more than the others fall short.
   */
  predicate Due(ds: seq<Destination>, i: nat, b: nat, a: nat)
    requires i < |ds|
  {
    var n, total, share := |ds|, TotalShares(ds), ds[i].shares;
    if i < n - 1 then a * total <= b * share && (b * share - a * total) * ONE < total * (ONE + b)
    else
      && a * total >= b * share
      && (if n == 1 then a == b else (a * total - b * share) * ONE < (n - 1) * (total * (ONE + b)))
  }

  predicate Increasing(xs: seq<nat>, n: nat) {
    (forall i, j :: 0 <= i < j < |xs| ==> xs[i] < xs[j]) && forall i :: 0 <= i < |xs| ==> xs[i] < n
  }

  /** Payment and kept entry are the destination's: its recipient, its settings, its record grown by the payment. */
  ghost predicate BelongsTo(d: Destination, payment: Payment, kept: Destination) {
    && payment.recipient == d.recipient && payment.coins != []
    && kept == d.(distributions := kept.distributions)
    && forall denom ::
         CoinTotal(Recorded(kept), denom) == CoinTotal(Recorded(d), denom) + CoinTotal(payment.coins, denom)
  }

  /** `a` is what destination `i` is due in one denom: nothing in those that the action does not distribute. */
  predicate DueIn(d: Distribution, balance: Denom -> Outcome<nat>, i: nat, denom: Denom, a: nat)
    requires i < |d.destinations|
  {
    if denom in d.denoms then balance(denom).Ok? && Due(d.destinations, i, balance(denom).value, a) else a == 0
  }

  /** What destination `i` was paid, in one denom, when the `j`-th payment goes to destination `rs[j]`. */
  function PaidTo(ps: seq<Payment>, rs: seq<nat>, i: nat, denom: Denom): nat
    requires |ps| == |rs|
  {
    if ps == [] then 0
    else if rs[|rs| - 1] == i then CoinTotal(ps[|ps| - 1].coins, denom)
    else PaidTo(ps[..|ps| - 1], rs[..|rs| - 1], i, denom)
  }

  /**
   * The outcome of a split: payments and kept destinations go with destinations `rs` of the list, in order, and every
   * destination got its due of every balance, which for those not in `rs` came to nothing.
   */
  ghost predicate SharedOut(d: Distribution, balance: Denom -> Outcome<nat>, ps: seq<Payment>, d': Distribution,
                            rs: seq<nat>)
  {
    && d'.denoms == d.denoms && |ps| == |rs| == |d'.destinations| && Increasing(rs, |d.destinations|)
    && (forall j :: 0 <= j < |rs| ==> BelongsTo(d.destinations[rs[j]], ps[j], d'.destinations[j]))
    && (forall j :: 0 <= j < |ps| ==> Clean(ps[j].coins))
    && forall i, denom :: 0 <= i < |d.destinations| ==> DueIn(d, balance, i, denom, PaidTo(ps, rs, i, denom))
  }

  lemma {:induction false} ReceiversIncrease(balances: seq<Coin>, plan: Plan, n: nat)
    ensures Increasing(Receivers(balances, plan, n), n)
  {
    if n > 0 {
      ReceiversIncrease(balances, plan, n - 1);
    }
  }

  lemma {:induction false} BalancesQueried(denoms: seq<Denom>, balance: Denom -> Outcome<nat>)
    requires Balances(denoms, balance).Ok?
    ensures forall x :: x in denoms ==> balance(x).Ok?
  {
    if denoms != [] {
      BalancesQueried(denoms[..|denoms| - 1], balance);
      assert denoms == denoms[..|denoms| - 1] + [denoms[|denoms| - 1]];
    }
  }

  lemma {:induction false} NothingDue(ds: seq<Destination>, i: nat)
    requires i < |ds| && TotalShares(ds) > 0
    ensures Due(ds, i, 0, 0)
  {
    var total, n := TotalShares(ds), |ds|;
    assert 0 * total == 0 && 0 * ds[i].shares == 0;
    MulMonotone(1, total, ONE);
    if n > 1 {
      MulMonotone(1, n - 1, total * ONE);
    }
  }

  lemma {:induction false} PlannedIsDue(ds: seq<Destination>, i: nat, b: nat)
    requires i < |ds| && TotalShares(ds) > 0
    ensures Due(ds, i, b, ByShares(Shares(ds))(i, b))
  {
    AmountIsProRata(b, Shares(ds), i);
  }

  /** What the plan gives destination `i` is its due, in every denom of the action. */
  lemma {:induction false} ReceivedIsDue(d: Distribution, balance: Denom -> Outcome<nat>, i: nat, denom: Denom)
    requires NoDuplicates(d.denoms) && Balances(d.denoms, balance).Ok?
    requires i < |d.destinations| && TotalShares(d.destinations) > 0
    ensures var bs, plan := Balances(d.denoms, balance).value, ByShares(Shares(d.destinations));
      DueIn(d, balance, i, denom, CoinTotal(Received(bs, plan, i), denom))
  {
    var ds, bs := d.destinations, Balances(d.denoms, balance).value;
    var plan := ByShares(Shares(ds));
    BalancesAre(d.denoms, balance);
    BalancesQueried(d.denoms, balance);
    if denom in d.denoms && balance(denom).value > 0 {
      BalanceListed(d.denoms, balance, denom);
      var k :| 0 <= k < |bs| && bs[k] == Coin(denom, balance(denom).value);
      ReceivedIsPlanned(bs, plan, i, k);
      PlannedIsDue(ds, i, bs[k].amount);
    } else {
      NoneReceived(bs, plan, i, denom);
      NothingDue(ds, i);
    }
  }

  lemma {:induction false} ReceivedIsClean(balances: seq<Coin>, plan: Plan, i: nat)
    requires DistinctDenoms(balances)
    ensures Clean(Received(balances, plan, i))
  {
    if balances != [] {
      var rest, last := balances[..|balances| - 1], balances[|balances| - 1];
      ReceivedIsClean(rest, plan, i);
      ReceivedNotListed(rest, plan, i, last.denom);
      PushKeepsClean(Received(rest, plan, i), last.denom, plan(i, last.amount));
    }
  }

  lemma {:induction false} PushKeepsClean(coins: seq<Coin>, denom: Denom, a: nat)
    requires Clean(coins) && !Listed(coins, denom)
    ensures Clean(Push(coins, denom, a))
  {
    if a > 0 {
      CleanAppend(coins, Coin(denom, a));
    }
  }

  lemma {:induction false} ReceivedNotListed(balances: seq<Coin>, plan: Plan, i: nat, d: Denom)
    requires forall k :: 0 <= k < |balances| ==> balances[k].denom != d
    ensures !Listed(Received(balances, plan, i), d)
  {
    if balances != [] {
      var rest, last := balances[..|balances| - 1], balances[|balances| - 1];
      ReceivedNotListed(rest, plan, i, d);
      Append(Received(rest, plan, i), Coin(last.denom, plan(i, last.amount)), d);
    }
  }

  lemma {:induction false} PaidToReceiver(ps: seq<Payment>, rs: seq<nat>, n: nat, j: nat, denom: Denom)
    requires |ps| == |rs| && Increasing(rs, n) && j < |rs|
    ensures PaidTo(ps, rs, rs[j], denom) == CoinTotal(ps[j].coins, denom)
  {
    if j < |rs| - 1 {
      PaidToReceiver(ps[..|ps| - 1], rs[..|rs| - 1], n, j, denom);
    }
  }

  lemma {:induction false} PaidToOther(ps: seq<Payment>, rs: seq<nat>, i: nat, denom: Denom)
    requires |ps| == |rs| && i !in rs
    ensures PaidTo(ps, rs, i, denom) == 0
  {
    if ps != [] {
      PaidToOther(ps[..|ps| - 1], rs[..|rs| - 1], i, denom);
    }
  }

  lemma {:induction false} PaidToIsReceived(ds: seq<Destination>, balances: seq<Coin>, plan: Plan, i: nat, denom: Denom)
    requires Kept(ds, balances, plan, |ds|).Ok? && i < |ds|
    ensures var ps, rs := Payments(ds, balances, plan, |ds|), Receivers(balances, plan, |ds|);
      |ps| == |rs| && PaidTo(ps, rs, i, denom) == CoinTotal(Received(balances, plan, i), denom)
  {
    var ps, rs := Payments(ds, balances, plan, |ds|), Receivers(balances, plan, |ds|);
    KeptAreReceivers(ds, balances, plan, |ds|);
    ReceiversIncrease(balances, plan, |ds|);
    ReceiversAre(balances, plan, |ds|, i);
    ReceivesSomething(balances, plan, i);
    if i in rs {
      var j :| 0 <= j < |rs| && rs[j] == i;
      assert KeptAs(ds, balances, plan, Kept(ds, balances, plan, |ds|).value[j], ps[j], rs[j]);
      PaidToReceiver(ps, rs, |ds|, j, denom);
    } else {
      PaidToOther(ps, rs, i, denom);
    }
  }

  /** Each receiver's payment and kept entry are its own. */
  lemma {:induction false} KeptBelong(ds: seq<Destination>, balances: seq<Coin>, plan: Plan)
    requires Kept(ds, balances, plan, |ds|).Ok?
    ensures var kept, ps := Kept(ds, balances, plan, |ds|).value, Payments(ds, balances, plan, |ds|);
      var rs := Receivers(balances, plan, |ds|);
      && |kept| == |ps| == |rs| && Increasing(rs, |ds|)
      && forall j :: 0 <= j < |rs| ==> BelongsTo(ds[rs[j]], ps[j], kept[j])
  {
    KeptAreReceivers(ds, balances, plan, |ds|);
    ReceiversIncrease(balances, plan, |ds|);
    var kept, ps := Kept(ds, balances, plan, |ds|).value, Payments(ds, balances, plan, |ds|);
    var rs := Receivers(balances, plan, |ds|);
    forall j | 0 <= j < |rs| ensures BelongsTo(ds[rs[j]], ps[j], kept[j]) {
      assert KeptAs(ds, balances, plan, kept[j], ps[j], rs[j]);
      CreditAdds(ds[rs[j]], ps[j].coins);
      ReceiversAre(balances, plan, |ds|, rs[j]);
      ReceivesSomething(balances, plan, rs[j]);
    }
  }

  /**
   * An execute that splits something and goes through pays each destination its due, by its own shares, in one message
   * to its own recipient, in order; those due nothing are left out.
   */
  lemma {:induction false} ExecuteSharesOut(d: Distribution, balance: Denom -> Outcome<nat>) returns (rs: seq<nat>)
    requires NoDuplicates(d.denoms) && d.destinations != [] && Execute(d, balance).Ok?
    requires Balances(d.denoms, balance).value != []
    ensures SharedOut(d, balance, Execute(d, balance).value.0, Execute(d, balance).value.1, rs)
  {
    var ds, bs := d.destinations, Balances(d.denoms, balance).value;
    var plan, ps := ByShares(Shares(ds)), Execute(d, balance).value.0;
    rs := Receivers(bs, plan, |ds|);
    KeptBelong(ds, bs, plan);
    forall j | 0 <= j < |ps| ensures Clean(ps[j].coins) {
      PaymentIsClean(d, balance, j);
    }
    forall i, denom | 0 <= i < |ds| ensures DueIn(d, balance, i, denom, PaidTo(ps, rs, i, denom)) {
      PaidIsDue(d, balance, i, denom);
    }
  }

  lemma {:induction false} PaymentIsClean(d: Distribution, balance: Denom -> Outcome<nat>, j: nat)
    requires NoDuplicates(d.denoms) && d.destinations != [] && Execute(d, balance).Ok?
    requires Balances(d.denoms, balance).value != [] && j < |Execute(d, balance).value.0|
    ensures Clean(Execute(d, balance).value.0[j].coins)
  {
    var ds, bs := d.destinations, Balances(d.denoms, balance).value;
    var plan, ps := ByShares(Shares(ds)), Execute(d, balance).value.0;
    KeptAreReceivers(ds, bs, plan, |ds|);
    var rs := Receivers(bs, plan, |ds|);
    assert KeptAs(ds, bs, plan, Kept(ds, bs, plan, |ds|).value[j], ps[j], rs[j]);
    BalancesAre(d.denoms, balance);
    ReceivedIsClean(bs, plan, rs[j]);
  }

  lemma {:induction false} PaidIsDue(d: Distribution, balance: Denom -> Outcome<nat>, i: nat, denom: Denom)
    requires NoDuplicates(d.denoms) && Balances(d.denoms, balance).Ok?
    requires i < |d.destinations| && TotalShares(d.destinations) > 0
    requires Kept(d.destinations, Balances(d.denoms, balance).value, ByShares(Shares(d.destinations)),
                  |d.destinations|).Ok?
    ensures var ds, bs := d.destinations, Balances(d.denoms, balance).value;
      var ps, rs := Payments(ds, bs, ByShares(Shares(ds)), |ds|), Receivers(bs, ByShares(Shares(ds)), |ds|);
      |ps| == |rs| && DueIn(d, balance, i, denom, PaidTo(ps, rs, i, denom))
  {
    PaidToIsReceived(d.destinations, Balances(d.denoms, balance).value, ByShares(Shares(d.destinations)), i, denom);
    ReceivedIsDue(d, balance, i, denom);
  }

  // ---- Init ----

  function AffiliateDestinations(total: nat, affiliates: seq<Affiliate>): seq<Destination> {
    seq(|affiliates|, i requires 0 <= i < |affiliates| =>
      Destination(MulCeil(total, Bps(affiliates[i].bps)), Bank(affiliates[i].address), Some(affiliates[i].name), None))
  }

  function WithAffiliates(d: Distribution, affiliates: seq<Affiliate>): Distribution {
    d.(destinations := d.destinations + AffiliateDestinations(TotalShares(d.destinations), affiliates))
  }

  /**
   * The user's destinations come first, as they are. Then one for each affiliate, paid at its address, under its name,
   * with nothing recorded; its shares are its basis points of the user's shares, rounded up to the next whole share.
   */
  lemma {:induction false} AffiliateShares(d: Distribution, affiliates: seq<Affiliate>, i: nat)
    requires i < |affiliates|
    ensures var ds, own := WithAffiliates(d, affiliates).destinations, |d.destinations|;
      && |ds| == own + |affiliates| && ds[..own] == d.destinations
      && WithAffiliates(d, affiliates).denoms == d.denoms
      && ds[own + i].recipient == Bank(affiliates[i].address)
      && ds[own + i].name == Some(affiliates[i].name) && ds[own + i].distributions.None?
      && SharesByBps(TotalShares(d.destinations), affiliates[i].bps, ds[own + i].shares)
  {
    var total, bps := TotalShares(d.destinations), affiliates[i].bps;
    var x := MulCeil(total, Bps(bps));
    CeilBounds(total * Bps(bps), ONE);
    assert total * Bps(bps) == (total * bps) * 100_000_000_000_000;
    assert total * bps == 0 <==> total == 0 || bps == 0 by {
      if total > 0 && bps > 0 { MulMonotone(1, total, bps); }
    }
  }

  predicate SharesByBps(total: nat, bps: nat, x: nat) {
    total * bps <= x * 10_000 < total * bps + 10_000 && (x == 0 <==> total == 0 || bps == 0)
  }

  predicate ValidRecipient(r: Recipient, validAddress: Address -> bool) {
    r.Deposit? || validAddress(r.address)
  }

  predicate InitAccepts(d: Distribution, validAddress: Address -> bool) {
    && d.denoms != [] && d.destinations != [] && NoDuplicates(d.denoms)
    && (forall i :: 0 <= i < |d.destinations| ==>
        d.destinations[i].shares > 0 && ValidRecipient(d.destinations[i].recipient, validAddress))
    && TotalShares(d.destinations) >= 10_000
  }

  /** The checks of `init`, with the total gathered in the loop that checks the destinations. */
  method Init(d: Distribution, validAddress: Address -> bool, affiliates: seq<Affiliate>)
    returns (r: Outcome<Distribution>)
    ensures r == if InitAccepts(d, validAddress) then Ok(WithAffiliates(d, affiliates)) else Err
  {
    if d.denoms == [] || d.destinations == [] {
      return Err;
    }
    if !NoDuplicates(d.denoms) {
      return Err;
    }
    var ds := d.destinations;
    var total := 0;
    for i := 0 to |ds|
      invariant total == Sum(Shares(ds)[..i])
      invariant forall j :: 0 <= j < i ==> ds[j].shares > 0 && ValidRecipient(ds[j].recipient, validAddress)
    {
      if ds[i].shares == 0 || !ValidRecipient(ds[i].recipient, validAddress) {
        return Err;
      }
      assert Shares(ds)[..i + 1][..i] == Shares(ds)[..i];
      total := total + ds[i].shares;
    }
    assert Shares(ds)[..|ds|] == Shares(ds);
    if total < MINIMUM_TOTAL_SHARES {
      return Err;
    }
    r := Ok(WithAffiliates(d, affiliates));
  }
}
