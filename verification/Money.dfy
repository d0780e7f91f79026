/** Coins, and the messages that contracts hand back to the chain. */
module Money {
  import opened Outcomes
  import opened Cadences

  type Denom = string
  type Address = string

  datatype Coin = Coin(denom: Denom, amount: nat)

  /** Amounts by denom. Like the `Coins` of the chain library it never stores a zero. */
  type Coins = map<Denom, nat>

  function AmountOf(cs: Coins, d: Denom): nat {
    if d in cs then cs[d] else 0
  }

  function Add(cs: Coins, d: Denom, amount: nat): Coins {
    if amount == 0 then cs else cs[d := AmountOf(cs, d) + amount]
  }

  function Plus(a: Coins, b: Coins): Coins {
    map d | d in a.Keys + b.Keys :: AmountOf(a, d) + AmountOf(b, d)
  }

  predicate NoZeros(cs: Coins) {
    forall d :: d in cs ==> cs[d] > 0
  }

  lemma {:induction false} AddAmount(cs: Coins, d: Denom, amount: nat, e: Denom)
    ensures AmountOf(Add(cs, d, amount), e) == AmountOf(cs, e) + if e == d then amount else 0
    ensures NoZeros(cs) ==> NoZeros(Add(cs, d, amount))
  {
  }

  /** Total requested in one denom. */
  function Total(requests: seq<Coin>, d: Denom): nat {
    if requests == [] then 0
    else
      var last := requests[|requests| - 1];
      Total(requests[..|requests| - 1], d) + if last.denom == d then last.amount else 0
  }

  /** Each request cut down to the balance of its denom, then added up. */
  function Capped(requests: seq<Coin>, balance: Denom -> Outcome<nat>): Outcome<Coins> {
    if requests == [] then Ok(map[])
    else
      var last := requests[|requests| - 1];
      var rest :- Capped(requests[..|requests| - 1], balance);
      var b :- balance(last.denom);
      Ok(Add(rest, last.denom, Min(b, last.amount)))
  }

  /** Number of non-zero requests in one denom. */
  function Requests(requests: seq<Coin>, d: Denom): nat {
    if requests == [] then 0
    else
      var last := requests[|requests| - 1];
      Requests(requests[..|requests| - 1], d) + if last.denom == d && last.amount > 0 then 1 else 0
  }

  lemma {:induction false} CappedBounds(requests: seq<Coin>, balance: Denom -> Outcome<nat>, d: Denom)
    requires Capped(requests, balance).Ok? && balance(d).Ok?
    ensures var x, b := AmountOf(Capped(requests, balance).value, d), balance(d).value;
      && NoZeros(Capped(requests, balance).value)
      && x <= Total(requests, d)
      && x <= Requests(requests, d) * b
      && (Total(requests, d) <= b ==> x == Total(requests, d))
      && (b > 0 ==> x >= Requests(requests, d))
      && (Requests(requests, d) == 0 ==> x == 0)
      && (Total(requests, d) > b ==> x >= b)
      && (Total(requests, d) > b && Requests(requests, d) >= 2 && b > 0 ==> x > b)
  {
    if requests != [] {
      var last, rest := requests[|requests| - 1], requests[..|requests| - 1];
      CappedBounds(rest, balance, d);
      var b := balance(d).value;
      assert (Requests(rest, d) + 1) * b == Requests(rest, d) * b + b;
      AddAmount(Capped(rest, balance).value, last.denom, Min(balance(last.denom).value, last.amount), d);
    }
  }

  /**
   * Requests are capped one at a time, so a repeated denom can ask for more than its balance. It does exactly
   * when there is a balance, at least two non-zero requests name the denom, and together they exceed the balance.
   */
  lemma {:induction false} CappedOverdraws(requests: seq<Coin>, balance: Denom -> Outcome<nat>, d: Denom)
    requires Capped(requests, balance).Ok? && balance(d).Ok?
    ensures AmountOf(Capped(requests, balance).value, d) > balance(d).value <==>
            balance(d).value > 0 && Requests(requests, d) >= 2 && Total(requests, d) > balance(d).value
  {
    CappedBounds(requests, balance, d);
    var b := balance(d).value;
    if Requests(requests, d) == 1 {
      assert AmountOf(Capped(requests, balance).value, d) <= 1 * b;
    }
  }

  lemma {:induction false} CappedQueries(requests: seq<Coin>, balance: Denom -> Outcome<nat>)
    requires forall k :: 0 <= k < |requests| ==> balance(requests[k].denom).Ok?
    ensures Capped(requests, balance).Ok?
  {
    if requests != [] {
      CappedQueries(requests[..|requests| - 1], balance);
    }
  }

  /** The loop that adds up capped amounts, stopping at the first balance query that fails. */
  method CollectCapped(requests: seq<Coin>, balance: Denom -> Outcome<nat>) returns (collected: Outcome<Coins>)
    ensures collected == Capped(requests, balance)
  {
    var total: Coins := map[];
    for k := 0 to |requests|
      invariant Capped(requests[..k], balance) == Ok(total)
    {
      assert requests[..k + 1][..k] == requests[..k];
      var b := balance(requests[k].denom);
      if b.IsFailure() {
        CappedFailsEarly(requests, balance, k + 1);
        return b.PropagateFailure();
      }
      total := Add(total, requests[k].denom, Min(b.value, requests[k].amount));
    }
    assert requests[..|requests|] == requests;
    collected := Ok(total);
  }

  lemma {:induction false} CappedFailsEarly(requests: seq<Coin>, balance: Denom -> Outcome<nat>, k: nat)
    requires k <= |requests| && Capped(requests[..k], balance).IsFailure()
    ensures Capped(requests, balance).IsFailure()
    ensures Capped(requests, balance).Err? <==> Capped(requests[..k], balance).Err?
  {
    if k == |requests| {
      assert requests[..k] == requests;
    } else {
      var rest := requests[..|requests| - 1];
      assert rest[..k] == requests[..k];
      CappedFailsEarly(rest, balance, k);
    }
  }

  datatype Side = Base | Quote

  /** Messages a node can emit; payloads that no property here depends on are left out. */
  datatype Message =
    | CreateTrigger(scheduler: Address, condition: TriggerCondition, target: Address, executors: seq<Address>,
                    jitter: Option<nat>, funds: Coins)
    | Order(pair: Address, side: Side, price: nat, offer: nat, denom: Denom, funding: nat)
    | Send(recipient: Address, coins: Coins)

  // ---- What a list of messages pays ----

  function PaysIn(m: Message, d: Denom): nat {
    if m.Send? then AmountOf(m.coins, d) else 0
  }

  /** Everything paid in one denom. */
  function Sent(ms: seq<Message>, d: Denom): nat {
    if ms == [] then 0 else Sent(ms[..|ms| - 1], d) + PaysIn(ms[|ms| - 1], d)
  }

  function PaysTo(m: Message, recipient: Address, d: Denom): nat {
    if m.Send? && m.recipient == recipient then AmountOf(m.coins, d) else 0
  }

  /** Everything paid to one address in one denom. */
  function SentTo(ms: seq<Message>, recipient: Address, d: Denom): nat {
    if ms == [] then 0
    else SentTo(ms[..|ms| - 1], recipient, d) + PaysTo(ms[|ms| - 1], recipient, d)
  }

  lemma {:induction false} SentPush(ms: seq<Message>, m: Message, recipient: Address, d: Denom)
    ensures Sent(ms + [m], d) == Sent(ms, d) + PaysIn(m, d)
    ensures SentTo(ms + [m], recipient, d) == SentTo(ms, recipient, d) + PaysTo(m, recipient, d)
  {
    assert (ms + [m])[..|ms|] == ms;
  }

  lemma {:induction false} SentConcat(a: seq<Message>, b: seq<Message>, recipient: Address, d: Denom)
    ensures Sent(a + b, d) == Sent(a, d) + Sent(b, d)
    ensures SentTo(a + b, recipient, d) == SentTo(a, recipient, d) + SentTo(b, recipient, d)
  {
    if b == [] {
      assert a + b == a;
    } else {
      SentConcat(a, b[..|b| - 1], recipient, d);
      assert (a + b)[..|a + b| - 1] == a + b[..|b| - 1];
    }
  }
}
