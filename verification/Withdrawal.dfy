/** Withdrawals: the fees a manager gives a strategy, and how each withdrawal splits between owner and affiliates. */
module Withdrawals {
  import opened Outcomes
  import opened Arithmetic
  import opened Decimals
  import opened Money
  import opened Runs
  import Distributions

  const BASE_FEE_BPS: nat := 25
  const MIN_FEE_BPS: nat := 15
  const MAX_TOTAL_AFFILIATE_BPS: nat := 200
  const MAX_LABEL_LENGTH: nat := 100
  const BPS: nat := 10_000

  type Affiliate = Distributions.Affiliate

  // ---- The manager's fee list ----

  function SumBps(affiliates: seq<Affiliate>): nat {
    if affiliates == [] then 0 else SumBps(affiliates[..|affiliates| - 1]) + affiliates[|affiliates| - 1].bps
  }

  predicate ValidAffiliate(a: Affiliate, validAddress: Address -> bool) {
    1 <= |a.name| <= MAX_LABEL_LENGTH && validAddress(a.address)
  }

  /** The fold over affiliates: stops at the first bad label or address, or when the total passes the maximum. */
  function TotalBps(affiliates: seq<Affiliate>, validAddress: Address -> bool): Outcome<nat> {
    if affiliates == [] then Ok(0)
    else
      var last := affiliates[|affiliates| - 1];
      var total :- TotalBps(affiliates[..|affiliates| - 1], validAddress);
      if !ValidAffiliate(last, validAddress) then Err
      else
        var total' :- CheckedU64(total + last.bps);
        if total' > MAX_TOTAL_AFFILIATE_BPS then Err else Ok(total')
  }

  function ProtocolBps(total: nat): nat {
    Max(if BASE_FEE_BPS >= total then BASE_FEE_BPS - total else 0, MIN_FEE_BPS)
  }

  function FeeList(collector: Address, affiliates: seq<Affiliate>, total: nat): seq<Affiliate> {
    [Distributions.Affiliate("CALC", collector, ProtocolBps(total))] + affiliates
  }

  lemma {:induction false} TotalIsSum(affiliates: seq<Affiliate>, validAddress: Address -> bool)
    requires TotalBps(affiliates, validAddress).Ok?
    ensures TotalBps(affiliates, validAddress).value == SumBps(affiliates) <= MAX_TOTAL_AFFILIATE_BPS
  {
    if affiliates != [] {
      TotalIsSum(affiliates[..|affiliates| - 1], validAddress);
    }
  }

  /** The manager takes a list exactly when every label and address is valid and the fees are at most the maximum. */
  lemma {:induction false} ListTakenExactly(affiliates: seq<Affiliate>, validAddress: Address -> bool)
    ensures TotalBps(affiliates, validAddress).Ok? <==>
            && (forall i :: 0 <= i < |affiliates| ==>
                  1 <= |affiliates[i].name| <= 100 && validAddress(affiliates[i].address))
            && SumBps(affiliates) <= 200
  {
    if affiliates != [] {
      var rest := affiliates[..|affiliates| - 1];
      ListTakenExactly(rest, validAddress);
      if TotalBps(rest, validAddress).Ok? {
        TotalIsSum(rest, validAddress);
      }
      assert affiliates == rest + [affiliates[|affiliates| - 1]];
    }
  }

  lemma {:induction false} SumBpsCons(a: Affiliate, affiliates: seq<Affiliate>)
    ensures SumBps([a] + affiliates) == a.bps + SumBps(affiliates)
  {
    if affiliates == [] {
      assert ([a] + affiliates)[..0] == [];
    } else {
      SumBpsCons(a, affiliates[..|affiliates| - 1]);
      assert ([a] + affiliates)[..|affiliates|] == [a] + affiliates[..|affiliates| - 1];
    }
  }

  /** Affiliates come out of the base fee while they fit above the minimum; beyond that they add to it. */
  lemma {:induction false} ManagedFees(collector: Address, affiliates: seq<Affiliate>, validAddress: Address -> bool)
    requires TotalBps(affiliates, validAddress).Ok?
    ensures var total := TotalBps(affiliates, validAddress).value;
      SumBps(FeeList(collector, affiliates, total)) == Max(BASE_FEE_BPS, MIN_FEE_BPS + SumBps(affiliates))
    ensures SumBps(FeeList(collector, affiliates, TotalBps(affiliates, validAddress).value)) <= 215
  {
    TotalIsSum(affiliates, validAddress);
    var total := SumBps(affiliates);
    SumBpsCons(Distributions.Affiliate("CALC", collector, ProtocolBps(total)), affiliates);
  }

  // ---- One denom of one withdrawal ----

  function Fee(amount: nat, bps: nat): nat {
    MulFloor(amount, bps * ONE / BPS)
  }

  /** What is left for the owner after the first `n` affiliates, subtracting each fee with saturation. */
  function Working(amount: nat, affiliates: seq<Affiliate>, n: nat): nat
    requires n <= |affiliates|
  {
    if n == 0 then amount
    else SaturatingSub(Working(amount, affiliates, n - 1), Fee(amount, affiliates[n - 1].bps))
  }

  function Fees(amount: nat, affiliates: seq<Affiliate>, n: nat): nat
    requires n <= |affiliates|
  {
    if n == 0 then 0 else Fees(amount, affiliates, n - 1) + Fee(amount, affiliates[n - 1].bps)
  }

  /** A fee is the affiliate's basis points of the amount, rounded down once: the ratio itself is exact. */
  lemma {:induction false} FeeIsExact(amount: nat, bps: nat)
    ensures Fee(amount, bps) * 10_000 <= amount * bps < Fee(amount, bps) * 10_000 + 10_000
  {
    var unit := ONE / BPS;
    assert bps * ONE == (bps * unit) * BPS;
    MultipleMod(bps * unit, BPS);
    var fee := Fee(amount, bps);
    DivBounds(amount * (bps * unit), ONE);
    assert amount * (bps * unit) == (amount * bps) * unit;
    assert ONE == BPS * unit;
    assert fee * ONE == (fee * BPS) * unit;
    Cancel(fee * BPS, amount * bps, unit);
    Cancel(amount * bps - BPS, fee * BPS, unit);
  }

  lemma {:induction false} Cancel(a: int, b: int, unit: int)
    requires unit > 0 && a * unit <= b * unit
    ensures a <= b
  {
    if a > b {
      MulMonotone(b + 1, a, unit);
    }
  }

  lemma {:induction false} FeesBounded(amount: nat, affiliates: seq<Affiliate>, n: nat)
    requires n <= |affiliates|
    ensures Fees(amount, affiliates, n) * BPS <= amount * SumBps(affiliates[..n])
  {
    if n > 0 {
      FeesBounded(amount, affiliates, n - 1);
      FeeIsExact(amount, affiliates[n - 1].bps);
      assert affiliates[..n][..n - 1] == affiliates[..n - 1];
      assert amount * (SumBps(affiliates[..n - 1]) + affiliates[n - 1].bps) ==
             amount * SumBps(affiliates[..n - 1]) + amount * affiliates[n - 1].bps;
    }
  }

  lemma {:induction false} PrefixBps(affiliates: seq<Affiliate>, n: nat)
    requires n <= |affiliates|
    ensures SumBps(affiliates[..n]) <= SumBps(affiliates)
  {
    if n == |affiliates| {
      assert affiliates[..n] == affiliates;
    } else {
      PrefixBps(affiliates[..|affiliates| - 1], n);
      assert affiliates[..|affiliates| - 1][..n] == affiliates[..n];
    }
  }

  lemma {:induction false} FeesAtMost(amount: nat, affiliates: seq<Affiliate>, n: nat)
    requires n <= |affiliates| && SumBps(affiliates) <= BPS
    ensures Fees(amount, affiliates, n) <= amount
  {
    FeesBounded(amount, affiliates, n);
    PrefixBps(affiliates, n);
    MulMonotone(SumBps(affiliates[..n]), BPS, amount);
    Cancel(Fees(amount, affiliates, n), amount, BPS);
  }

  /** With at most 100% of fees the saturating subtractions never saturate: net and fees add up to the amount. */
  lemma {:induction false} NeverSaturates(amount: nat, affiliates: seq<Affiliate>, n: nat)
    requires n <= |affiliates| && SumBps(affiliates) <= BPS
    ensures Working(amount, affiliates, n) + Fees(amount, affiliates, n) == amount
  {
    FeesAtMost(amount, affiliates, n);
    if n > 0 {
      NeverSaturates(amount, affiliates, n - 1);
    }
  }

  // ---- A whole withdrawal ----

  /** The requests that are looked at: zero amounts are skipped before the balance is queried. */
  function NonZero(requests: seq<Coin>): seq<Coin> {
    if requests == [] then []
    else
      var last := requests[|requests| - 1];
      NonZero(requests[..|requests| - 1]) + if last.amount == 0 then [] else [last]
  }

  function Net(taken: Coins, affiliates: seq<Affiliate>): Coins {
    map d | d in taken && Working(taken[d], affiliates, |affiliates|) > 0 :: Working(taken[d], affiliates, |affiliates|)
  }

  function FeeCoins(taken: Coins, bps: nat): Coins {
    map d | d in taken && Fee(taken[d], bps) > 0 :: Fee(taken[d], bps)
  }

  function FeeMessages(taken: Coins, affiliates: seq<Affiliate>, n: nat): seq<Message>
    requires n <= |affiliates|
  {
    if n == 0 then []
    else
      var a := affiliates[n - 1];
      var coins := FeeCoins(taken, a.bps);
      FeeMessages(taken, affiliates, n - 1) + if coins == map[] then [] else [Send(a.address, coins)]
  }

  /** The messages of a withdrawal that took something: the owner's payment, then the fees. */
  function Payout(owner: Address, affiliates: seq<Affiliate>, taken: Coins): seq<Message> {
    [Send(owner, Net(taken, affiliates))] + FeeMessages(taken, affiliates, |affiliates|)
  }

  /** One withdrawal message: who sends it, what it asks for, and what the balance queries answer. */
  datatype Request = Request(sender: Address, amounts: seq<Coin>, balance: Denom -> Outcome<nat>)

  /** What a request takes out of the account: its non-zero amounts, each capped at its balance. */
  function Takes(owner: Address, q: Request): Outcome<Coins> {
    if q.sender != owner then Err else Capped(NonZero(q.amounts), q.balance)
  }

  /** The handler of the message: what it sends, and the record it leaves. */
  function Handle(owner: Address, affiliates: seq<Affiliate>, record: Coins, q: Request)
    : Outcome<(seq<Message>, Coins)>
  {
    var taken :- Takes(owner, q);
    if taken == map[] then Ok(([], record))
    else Ok((Payout(owner, affiliates, taken), Plus(Net(taken, affiliates), record)))
  }

  class Account {
    const owner: Address
    const affiliates: seq<Affiliate>
    var withdrawn: Coins

    constructor (owner: Address, affiliates: seq<Affiliate>)
      ensures this.owner == owner && this.affiliates == affiliates && withdrawn == map[]
    {
      this.owner, this.affiliates, this.withdrawn := owner, affiliates, map[];
    }

    /** Splits what is taken between owner and affiliates, pays both, and records what the owner got. */
    method Withdraw(q: Request) returns (r: Outcome<seq<Message>>)
      modifies this
      ensures var handled := Handle(owner, affiliates, old(withdrawn), q);
        && (handled.Ok? ==> r == Ok(handled.value.0) && withdrawn == handled.value.1)
        && (!handled.Ok? ==> r == handled.PropagateFailure() && withdrawn == old(withdrawn))
    {
      if q.sender != owner {
        return Err;
      }
      var requests := SkipZeros(q.amounts);
      var collected := CollectCapped(requests, q.balance);
      if collected.IsFailure() {
        return collected.PropagateFailure();
      }
      var taken := collected.value;
      if taken == map[] {
        return Ok([]);
      }
      var net := SplitFees(taken, affiliates);
      var fees := PayFees(taken, affiliates);
      withdrawn := Plus(net, withdrawn);
      r := Ok([Send(owner, net)] + fees);
    }
  }

  method SkipZeros(amounts: seq<Coin>) returns (requests: seq<Coin>)
    ensures requests == NonZero(amounts)
  {
    requests := [];
    for k := 0 to |amounts|
      invariant requests == NonZero(amounts[..k])
    {
      assert amounts[..k + 1][..k] == amounts[..k];
      if amounts[k].amount == 0 {
        continue;
      }
      requests := requests + [amounts[k]];
    }
    assert amounts[..|amounts|] == amounts;
  }

  method PayFees(taken: Coins, affiliates: seq<Affiliate>) returns (fees: seq<Message>)
    ensures fees == FeeMessages(taken, affiliates, |affiliates|)
  {
    fees := [];
    for n := 0 to |affiliates|
      invariant fees == FeeMessages(taken, affiliates, n)
    {
      var coins := FeeCoins(taken, affiliates[n].bps);
      if coins != map[] {
        fees := fees + [Send(affiliates[n].address, coins)];
      }
    }
  }

  /** The owner's part, denom by denom: the working amount loses each affiliate's fee in turn. */
  method SplitFees(taken: Coins, affiliates: seq<Affiliate>) returns (net: Coins)
    ensures net == Net(taken, affiliates)
  {
    net := map[];
    var left := taken.Keys;
    while left != {}
      invariant left <= taken.Keys
      invariant net == map d | d in taken && d !in left && Working(taken[d], affiliates, |affiliates|) > 0 ::
                         Working(taken[d], affiliates, |affiliates|)
      decreases left
    {
      var d :| d in left;
      var working := taken[d];
      for n := 0 to |affiliates|
        invariant working == Working(taken[d], affiliates, n)
      {
        working := SaturatingSub(working, Fee(taken[d], affiliates[n].bps));
      }
      if working > 0 {
        net := net[d := working];
      }
      left := left - {d};
    }
  }

  // ---- What one withdrawal pays, and to whom ----

  function FeeFor(a: Affiliate, recipient: Address, amount: nat): nat {
    if a.address == recipient then Fee(amount, a.bps) else 0
  }

  /** What the first `n` affiliates at one address get of one amount. */
  function FeesTo(amount: nat, affiliates: seq<Affiliate>, n: nat, recipient: Address): nat
    requires n <= |affiliates|
  {
    if n == 0 then 0
    else FeesTo(amount, affiliates, n - 1, recipient) + FeeFor(affiliates[n - 1], recipient, amount)
  }

  lemma {:induction false} FeesSent(taken: Coins, affiliates: seq<Affiliate>, n: nat, recipient: Address, d: Denom)
    requires n <= |affiliates|
    ensures Sent(FeeMessages(taken, affiliates, n), d) == Fees(AmountOf(taken, d), affiliates, n)
    ensures SentTo(FeeMessages(taken, affiliates, n), recipient, d) ==
            FeesTo(AmountOf(taken, d), affiliates, n, recipient)
  {
    if n > 0 {
      FeesSent(taken, affiliates, n - 1, recipient, d);
      var a, before := affiliates[n - 1], FeeMessages(taken, affiliates, n - 1);
      var coins := FeeCoins(taken, a.bps);
      FeeCoinsAmount(taken, a.bps, d);
      if coins != map[] {
        SentPush(before, Send(a.address, coins), recipient, d);
      } else {
        assert before + [] == before;
      }
    }
  }

  lemma {:induction false} FeeCoinsAmount(taken: Coins, bps: nat, d: Denom)
    ensures AmountOf(FeeCoins(taken, bps), d) == Fee(AmountOf(taken, d), bps)
  {
    NothingOfNothing(bps * ONE / BPS);
  }

  lemma {:induction false} NothingOfNothing(r: Decimal)
    ensures MulFloor(0, r) == 0
  {
    assert 0 * r == 0;
  }

  lemma {:induction false} NetAmount(taken: Coins, affiliates: seq<Affiliate>, d: Denom)
    ensures AmountOf(Net(taken, affiliates), d) == Working(AmountOf(taken, d), affiliates, |affiliates|)
  {
    NothingWorks(affiliates, |affiliates|);
  }

  lemma {:induction false} NothingWorks(affiliates: seq<Affiliate>, n: nat)
    requires n <= |affiliates|
    ensures Working(0, affiliates, n) == 0
  {
    if n > 0 {
      NothingWorks(affiliates, n - 1);
    }
  }

  /** A payout gives the owner the net amount, and every address the fees of the affiliates that name it. */
  lemma {:induction false} PayoutReaches(owner: Address, affiliates: seq<Affiliate>, taken: Coins, recipient: Address,
                                         d: Denom)
    ensures var ms, amount, n := Payout(owner, affiliates, taken), AmountOf(taken, d), |affiliates|;
      && Sent(ms, d) == Working(amount, affiliates, n) + Fees(amount, affiliates, n)
      && SentTo(ms, recipient, d) ==
           (if recipient == owner then Working(amount, affiliates, n) else 0) + FeesTo(amount, affiliates, n, recipient)
  {
    var first, fees := [Send(owner, Net(taken, affiliates))], FeeMessages(taken, affiliates, |affiliates|);
    assert first == [] + first;
    SentPush([], first[0], recipient, d);
    SentConcat(first, fees, recipient, d);
    FeesSent(taken, affiliates, |affiliates|, recipient, d);
    NetAmount(taken, affiliates, d);
  }

  /** What a request comes to in one denom: each of its amounts, up to the balance. */
  function Asked(amounts: seq<Coin>, balance: Denom -> Outcome<nat>, d: Denom): nat {
    if amounts == [] then 0
    else
      var last := amounts[|amounts| - 1];
      var rest := Asked(amounts[..|amounts| - 1], balance, d);
      if last.denom == d && balance(d).Ok? then rest + Min(last.amount, balance(d).value) else rest
  }

  lemma {:induction false} CappedIsAsked(amounts: seq<Coin>, balance: Denom -> Outcome<nat>, d: Denom)
    requires forall k :: 0 <= k < |amounts| && amounts[k].amount > 0 ==> balance(amounts[k].denom).Ok?
    ensures Capped(NonZero(amounts), balance).Ok?
    ensures AmountOf(Capped(NonZero(amounts), balance).value, d) == Asked(amounts, balance, d)
  {
    if amounts != [] {
      var rest, last := amounts[..|amounts| - 1], amounts[|amounts| - 1];
      CappedIsAsked(rest, balance, d);
      if last.amount > 0 {
        assert (NonZero(rest) + [last])[..|NonZero(rest)|] == NonZero(rest);
        AddAmount(Capped(NonZero(rest), balance).value, last.denom, Min(balance(last.denom).value, last.amount), d);
      } else {
        assert NonZero(rest) + [] == NonZero(rest);
      }
    }
  }

  /**
   * Only the owner's messages are handled. One whose balances can be queried is paid in full: what it asks for, up to
   * the balances, goes to the owner and to the affiliates, and the owner's part into the record.
   */
  lemma {:induction false} HandlesExactly(owner: Address, affiliates: seq<Affiliate>, record: Coins, q: Request,
                                          recipient: Address, d: Denom)
    requires SumBps(affiliates) <= BPS
    ensures q.sender != owner ==> Handle(owner, affiliates, record, q) == Err
    ensures q.sender == owner && (forall k :: 0 <= k < |q.amounts| && q.amounts[k].amount > 0 ==>
                                    q.balance(q.amounts[k].denom).Ok?) ==>
              var r, n := Handle(owner, affiliates, record, q), |affiliates|;
              var asked := Asked(q.amounts, q.balance, d);
              var net := asked - Fees(asked, affiliates, n);
              && r.Ok?
              && Sent(r.value.0, d) == asked
              && SentTo(r.value.0, recipient, d) ==
                   (if recipient == owner then net else 0) + FeesTo(asked, affiliates, n, recipient)
              && AmountOf(r.value.1, d) == AmountOf(record, d) + net
  {
    if q.sender == owner && forall k :: 0 <= k < |q.amounts| && q.amounts[k].amount > 0 ==>
      q.balance(q.amounts[k].denom).Ok?
    {
      CappedIsAsked(q.amounts, q.balance, d);
      var taken, asked := Takes(owner, q).value, Asked(q.amounts, q.balance, d);
      NeverSaturates(asked, affiliates, |affiliates|);
      PayoutReaches(owner, affiliates, taken, recipient, d);
      NetAmount(taken, affiliates, d);
      if taken == map[] {
        NothingFrom(affiliates, |affiliates|, recipient);
      }
    }
  }

  /** Each message pays something, and no zeros. */
  predicate AllPay(ms: seq<Message>) {
    forall k :: 0 <= k < |ms| ==> ms[k].Send? && NoZeros(ms[k].coins) && ms[k].coins != map[]
  }

  /** The messages carry no zero amounts, and only the owner's, the first, can be empty. */
  lemma {:induction false} NoEmptyMessages(owner: Address, affiliates: seq<Affiliate>, record: Coins, q: Request)
    requires Handle(owner, affiliates, record, q).Ok?
    ensures var ms := Handle(owner, affiliates, record, q).value.0;
      ms != [] ==> ms[0].Send? && ms[0].recipient == owner && NoZeros(ms[0].coins) && AllPay(ms[1..])
  {
    var taken := Takes(owner, q).value;
    NoEmptyFees(taken, affiliates, |affiliates|);
    assert Payout(owner, affiliates, taken)[1..] == FeeMessages(taken, affiliates, |affiliates|);
  }

  lemma {:induction false} NoEmptyFees(taken: Coins, affiliates: seq<Affiliate>, n: nat)
    requires n <= |affiliates|
    ensures AllPay(FeeMessages(taken, affiliates, n))
  {
    if n > 0 {
      NoEmptyFees(taken, affiliates, n - 1);
      assert NoZeros(FeeCoins(taken, affiliates[n - 1].bps));
    }
  }

  lemma {:induction false} NothingFrom(affiliates: seq<Affiliate>, n: nat, recipient: Address)
    requires n <= |affiliates|
    ensures Fees(0, affiliates, n) == 0 && FeesTo(0, affiliates, n, recipient) == 0
  {
    if n > 0 {
      NothingFrom(affiliates, n - 1, recipient);
      NothingOfNothing(affiliates[n - 1].bps * ONE / BPS);
    }
  }

  /** For a strategy made by the manager, every withdrawal splits exactly: what is sent is what was taken. */
  lemma {:induction false} WithdrawalSplitsExactly(owner: Address, collector: Address, affiliates: seq<Affiliate>,
                                                   validAddress: Address -> bool, taken: Coins, d: Denom)
    requires TotalBps(affiliates, validAddress).Ok?
    ensures var all := FeeList(collector, affiliates, TotalBps(affiliates, validAddress).value);
      Sent(Payout(owner, all, taken), d) == AmountOf(taken, d)
  {
    ManagedFees(collector, affiliates, validAddress);
    var all := FeeList(collector, affiliates, TotalBps(affiliates, validAddress).value);
    PayoutReaches(owner, all, taken, owner, d);
    NeverSaturates(AmountOf(taken, d), all, |all|);
  }

  // ---- Over all withdrawals ----

  /** The stored record, everything sent so far, and what each withdrawal took. */
  datatype Books = Books(record: Coins, sent: seq<Message>, takings: seq<Coins>)

  const NO_BOOKS: Books := Books(map[], [], [])

  /** One message to the account; a rejected one leaves it as it was. Counts the withdrawals that took something. */
  function Step(owner: Address, affiliates: seq<Affiliate>): (Books, Request) -> Outcome<(Books, bool)> {
    (s: Books, q: Request) =>
      var handled := Handle(owner, affiliates, s.record, q);
      if !handled.Ok? || handled.value.0 == [] then Ok((s, false))
      else Ok((Books(handled.value.1, s.sent + handled.value.0, s.takings + [Takes(owner, q).value]), true))
  }

  function Taken(takings: seq<Coins>, d: Denom): nat {
    if takings == [] then 0 else Taken(takings[..|takings| - 1], d) + AmountOf(takings[|takings| - 1], d)
  }

  /** What an address is owed in fees for a list of takings. */
  function Owed(takings: seq<Coins>, affiliates: seq<Affiliate>, recipient: Address, d: Denom): nat {
    if takings == [] then 0
    else
      Owed(takings[..|takings| - 1], affiliates, recipient, d) +
      FeesTo(AmountOf(takings[|takings| - 1], d), affiliates, |affiliates|, recipient)
  }

  /** The owner was sent what the record says, and every address its fees, in every denom. */
  ghost predicate Balanced(owner: Address, affiliates: seq<Affiliate>, s: Books) {
    forall a: Address, d: Denom ::
      SentTo(s.sent, a, d) == (if a == owner then AmountOf(s.record, d) else 0) + Owed(s.takings, affiliates, a, d)
  }

  /** Nothing stays behind and nothing is sent twice. */
  ghost predicate PaidInFull(s: Books) {
    forall d: Denom :: Sent(s.sent, d) == Taken(s.takings, d)
  }

  lemma {:induction false} StepBalances(owner: Address, affiliates: seq<Affiliate>, s: Books, q: Request)
    requires Balanced(owner, affiliates, s)
    ensures Balanced(owner, affiliates, Step(owner, affiliates)(s, q).value.0)
  {
    var s' := Step(owner, affiliates)(s, q).value.0;
    if s' != s {
      var taken := Takes(owner, q).value;
      forall a: Address, d: Denom
        ensures SentTo(s'.sent, a, d) ==
                (if a == owner then AmountOf(s'.record, d) else 0) + Owed(s'.takings, affiliates, a, d)
      {
        SentConcat(s.sent, Payout(owner, affiliates, taken), a, d);
        PayoutReaches(owner, affiliates, taken, a, d);
        NetAmount(taken, affiliates, d);
        assert s'.takings[..|s.takings|] == s.takings;
      }
    }
  }

  lemma {:induction false} StepPays(owner: Address, affiliates: seq<Affiliate>, s: Books, q: Request)
    requires PaidInFull(s) && SumBps(affiliates) <= BPS
    ensures PaidInFull(Step(owner, affiliates)(s, q).value.0)
  {
    var s' := Step(owner, affiliates)(s, q).value.0;
    if s' != s {
      var taken := Takes(owner, q).value;
      forall d: Denom ensures Sent(s'.sent, d) == Taken(s'.takings, d) {
        SentConcat(s.sent, Payout(owner, affiliates, taken), owner, d);
        PayoutReaches(owner, affiliates, taken, owner, d);
        NeverSaturates(AmountOf(taken, d), affiliates, |affiliates|);
        assert s'.takings[..|s.takings|] == s.takings;
      }
    }
  }

  lemma {:induction false} NeverRejects(owner: Address, affiliates: seq<Affiliate>, requests: seq<Request>)
    ensures Repeat(Step(owner, affiliates), NO_BOOKS, requests).Ok?
  {
    if requests != [] {
      NeverRejects(owner, affiliates, requests[..|requests| - 1]);
    }
  }

  /**
   * Over every sequence of withdrawal messages, whoever sends them and whatever the balance queries answer: the
   * record is what the owner was sent, apart from the fees of affiliates that name the owner's own address; every
   * other address was sent exactly its fees; and each withdrawal that took something is counted.
   */
  lemma {:induction false} RecordIsWhatWasSent(owner: Address, affiliates: seq<Affiliate>, requests: seq<Request>)
    ensures Repeat(Step(owner, affiliates), NO_BOOKS, requests).Ok?
    ensures var (s, n) := Repeat(Step(owner, affiliates), NO_BOOKS, requests).value;
      Balanced(owner, affiliates, s) && |s.takings| == n
  {
    NeverRejects(owner, affiliates, requests);
    var step := Step(owner, affiliates);
    var inv := (s: Books, n: nat) => Balanced(owner, affiliates, s) && |s.takings| == n;
    forall k, s, n | 0 <= k < |requests| ensures StepKeeps(step, requests[k], inv, s, n) {
      if inv(s, n) {
        StepBalances(owner, affiliates, s, requests[k]);
      }
    }
    RepeatKeeps(step, NO_BOOKS, requests, inv);
  }

  function OwnRequests(owner: Address, requests: seq<Request>): seq<Request> {
    if requests == [] then []
    else
      var last := requests[|requests| - 1];
      OwnRequests(owner, requests[..|requests| - 1]) + if last.sender == owner then [last] else []
  }

  /** What others send makes no difference: the books are those of the owner's messages alone. */
  lemma {:induction false} OthersChangeNothing(owner: Address, affiliates: seq<Affiliate>, requests: seq<Request>)
    ensures Repeat(Step(owner, affiliates), NO_BOOKS, requests) ==
            Repeat(Step(owner, affiliates), NO_BOOKS, OwnRequests(owner, requests))
  {
    if requests != [] {
      var rest, last := requests[..|requests| - 1], requests[|requests| - 1];
      var own := OwnRequests(owner, rest);
      OthersChangeNothing(owner, affiliates, rest);
      NeverRejects(owner, affiliates, rest);
      if last.sender == owner {
        assert (own + [last])[..|own|] == own;
      } else {
        assert own + [] == own;
      }
    }
  }

  lemma {:induction false} NothingOwed(takings: seq<Coins>, affiliates: seq<Affiliate>, recipient: Address, d: Denom)
    requires forall i :: 0 <= i < |affiliates| ==> affiliates[i].address != recipient
    ensures Owed(takings, affiliates, recipient, d) == 0
  {
    if takings != [] {
      NothingOwed(takings[..|takings| - 1], affiliates, recipient, d);
      NoFees(AmountOf(takings[|takings| - 1], d), affiliates, |affiliates|, recipient);
    }
  }

  lemma {:induction false} NoFees(amount: nat, affiliates: seq<Affiliate>, n: nat, recipient: Address)
    requires n <= |affiliates| && forall i :: 0 <= i < n ==> affiliates[i].address != recipient
    ensures FeesTo(amount, affiliates, n, recipient) == 0
  {
    if n > 0 {
      NoFees(amount, affiliates, n - 1, recipient);
    }
  }

  /** An owner that no affiliate names was sent exactly what the record says. */
  lemma {:induction false} OwnerGotTheRecord(owner: Address, affiliates: seq<Affiliate>, requests: seq<Request>,
                                             d: Denom)
    requires forall i :: 0 <= i < |affiliates| ==> affiliates[i].address != owner
    requires Repeat(Step(owner, affiliates), NO_BOOKS, requests).Ok?
    ensures var s := Repeat(Step(owner, affiliates), NO_BOOKS, requests).value.0;
      SentTo(s.sent, owner, d) == AmountOf(s.record, d)
  {
    RecordIsWhatWasSent(owner, affiliates, requests);
    var s := Repeat(Step(owner, affiliates), NO_BOOKS, requests).value.0;
    NothingOwed(s.takings, affiliates, owner, d);
  }

  /** What one affiliate earns from a list of takings. */
  function Earned(takings: seq<Coins>, bps: nat, d: Denom): nat {
    if takings == [] then 0
    else Earned(takings[..|takings| - 1], bps, d) + Fee(AmountOf(takings[|takings| - 1], d), bps)
  }

  predicate OwnAddress(affiliates: seq<Affiliate>, i: nat, address: Address) {
    forall j :: 0 <= j < |affiliates| ==> (affiliates[j].address == address <==> j == i)
  }

  lemma {:induction false} OnlyFee(amount: nat, affiliates: seq<Affiliate>, n: nat, i: nat, address: Address)
    requires n <= |affiliates| && i < |affiliates| && OwnAddress(affiliates, i, address)
    ensures FeesTo(amount, affiliates, n, address) == if i < n then Fee(amount, affiliates[i].bps) else 0
  {
    if n > 0 {
      OnlyFee(amount, affiliates, n - 1, i, address);
    }
  }

  lemma {:induction false} OwedIsEarned(takings: seq<Coins>, affiliates: seq<Affiliate>, i: nat, address: Address,
                                        d: Denom)
    requires i < |affiliates| && OwnAddress(affiliates, i, address)
    ensures Owed(takings, affiliates, address, d) == Earned(takings, affiliates[i].bps, d)
  {
    if takings != [] {
      OwedIsEarned(takings[..|takings| - 1], affiliates, i, address, d);
      OnlyFee(AmountOf(takings[|takings| - 1], d), affiliates, |affiliates|, i, address);
    }
  }

  /**
   * Over every sequence of withdrawal messages to an account made by the manager, a collector with an address of its
   * own was sent what the affiliates leave it of 25 basis points, but at least 15.
   */
  lemma {:induction false} CollectorIsPaid(owner: Address, collector: Address, affiliates: seq<Affiliate>,
                                           validAddress: Address -> bool, requests: seq<Request>, d: Denom)
    requires TotalBps(affiliates, validAddress).Ok?
    requires collector != owner && forall j :: 0 <= j < |affiliates| ==> affiliates[j].address != collector
    ensures var total := SumBps(affiliates);
      var run := Repeat(Step(owner, FeeList(collector, affiliates, total)), NO_BOOKS, requests);
      run.Ok? && SentTo(run.value.0.sent, collector, d) ==
                 Earned(run.value.0.takings, if total <= 10 then 25 - total else 15, d)
  {
    var all := FeeList(collector, affiliates, SumBps(affiliates));
    RecordIsWhatWasSent(owner, all, requests);
    var s := Repeat(Step(owner, all), NO_BOOKS, requests).value.0;
    OwedIsEarned(s.takings, all, 0, collector, d);
  }

  /** And an affiliate with an address of its own its basis points of everything taken, each withdrawal rounded down. */
  lemma {:induction false} AffiliateIsPaid(owner: Address, collector: Address, affiliates: seq<Affiliate>,
                                           validAddress: Address -> bool, requests: seq<Request>, i: nat, d: Denom)
    requires TotalBps(affiliates, validAddress).Ok? && i < |affiliates|
    requires affiliates[i].address != owner && affiliates[i].address != collector
    requires OwnAddress(affiliates, i, affiliates[i].address)
    ensures var run := Repeat(Step(owner, FeeList(collector, affiliates, SumBps(affiliates))), NO_BOOKS, requests);
      && run.Ok?
      && SentTo(run.value.0.sent, affiliates[i].address, d) == Earned(run.value.0.takings, affiliates[i].bps, d)
  {
    var all := FeeList(collector, affiliates, SumBps(affiliates));
    RecordIsWhatWasSent(owner, all, requests);
    var s := Repeat(Step(owner, all), NO_BOOKS, requests).value.0;
    assert all[i + 1] == affiliates[i];
    OwedIsEarned(s.takings, all, i + 1, affiliates[i].address, d);
  }

  /** With the manager's fee list, everything ever taken out of the account was sent, no more and no less. */
  lemma {:induction false} TakenIsSent(owner: Address, collector: Address, affiliates: seq<Affiliate>,
                                       validAddress: Address -> bool, requests: seq<Request>)
    requires TotalBps(affiliates, validAddress).Ok?
    ensures var all := FeeList(collector, affiliates, TotalBps(affiliates, validAddress).value);
      && Repeat(Step(owner, all), NO_BOOKS, requests).Ok?
      && PaidInFull(Repeat(Step(owner, all), NO_BOOKS, requests).value.0)
  {
    ManagedFees(collector, affiliates, validAddress);
    var all := FeeList(collector, affiliates, TotalBps(affiliates, validAddress).value);
    NeverRejects(owner, all, requests);
    var step := Step(owner, all);
    var inv := (s: Books, n: nat) => PaidInFull(s);
    forall k, s, n | 0 <= k < |requests| ensures StepKeeps(step, requests[k], inv, s, n) {
      if PaidInFull(s) {
        StepPays(owner, all, s, requests[k]);
      }
    }
    RepeatKeeps(step, NO_BOOKS, requests, inv);
  }

  /** A request can take more than the balance exactly when it repeats a denom beyond its balance. */
  lemma {:induction false} WithdrawalOverdraws(amounts: seq<Coin>, balance: Denom -> Outcome<nat>, d: Denom)
    requires Capped(NonZero(amounts), balance).Ok? && balance(d).Ok?
    ensures AmountOf(Capped(NonZero(amounts), balance).value, d) > balance(d).value <==>
            balance(d).value > 0 && Requests(amounts, d) >= 2 && Total(amounts, d) > balance(d).value
  {
    CappedOverdraws(NonZero(amounts), balance, d);
    SameRequests(amounts, d);
  }

  /** Asking twice for all of a balance of ten takes twenty. */
  lemma {:induction false} AskingTwiceOverdraws(d: Denom)
    ensures var amounts, balance := [Coin(d, 10), Coin(d, 10)], (x: Denom) => Outcome.Ok(10);
      Capped(NonZero(amounts), balance).Ok? && AmountOf(Capped(NonZero(amounts), balance).value, d) > 10
  {
    var amounts, balance := [Coin(d, 10), Coin(d, 10)], (x: Denom) => Outcome.Ok(10);
    CappedQueries(NonZero(amounts), balance);
    assert amounts[..1] == [Coin(d, 10)] && amounts[..1][..0] == [];
    assert Total(amounts[..1], d) == 10 && Requests(amounts[..1], d) == 1;
    WithdrawalOverdraws(amounts, balance, d);
  }

  lemma {:induction false} SameRequests(amounts: seq<Coin>, d: Denom)
    ensures Requests(NonZero(amounts), d) == Requests(amounts, d) && Total(NonZero(amounts), d) == Total(amounts, d)
  {
    if amounts != [] {
      var rest, last := NonZero(amounts[..|amounts| - 1]), amounts[|amounts| - 1];
      SameRequests(amounts[..|amounts| - 1], d);
      if last.amount == 0 {
        assert rest + [] == rest;
      } else {
        assert (rest + [last])[..|rest|] == rest;
      }
    }
  }
}
