/** The scheduler contract: triggers with escrowed rebates, replaced by their owner or fired by an executor. */
module Scheduling {
  import opened Outcomes
  import opened Cadences
  import opened Money
  import opened Runs

  const MAX_EXECUTORS := 10

  /** A condition offered to the scheduler; it accepts block heights and timestamps only. */
  datatype Offered = Supported(condition: TriggerCondition) | Unsupported

  datatype Command = Command(
    offered: Offered,
    msg: string,
    target: Address,
    executors: seq<Address>,
    jitter: Option<nat>)

  datatype Trigger = Trigger(
    id: nat,
    owner: Address,
    condition: TriggerCondition,
    msg: string,
    target: Address,
    executors: seq<Address>,
    rebate: Coins,
    jitter: Option<nat>)

  /** Messages the scheduler hands to the chain, each with the trigger it is for. */
  datatype Outgoing =
    | Call(target: Address, msg: string, of: Trigger)
    | Pay(recipient: Address, coins: Coins, of: Trigger)

  type Triggers = map<nat, Trigger>

  /** Ids come from a 64-bit hash; nothing below relies on distinct commands having distinct ids. */
  type Hash = (Address, Command) -> nat

  predicate Accepts(triggers: Triggers, hash: Hash, sender: Address, c: Command) {
    && |c.executors| <= MAX_EXECUTORS
    && c.offered.Supported?
    && (hash(sender, c) in triggers ==> triggers[hash(sender, c)].owner == sender)
  }

  function NewTrigger(hash: Hash, sender: Address, funds: Coins, c: Command): Trigger
    requires c.offered.Supported?
  {
    Trigger(hash(sender, c), sender, c.offered.condition, c.msg, c.target, c.executors, funds, c.jitter)
  }

  function Refund(recipient: Address, t: Trigger): seq<Outgoing> {
    if t.rebate == map[] then [] else [Pay(recipient, t.rebate, t)]
  }

  predicate Fires(triggers: Triggers, id: nat, sender: Address, env: Env) {
    && id in triggers
    && (triggers[id].executors == [] || sender in triggers[id].executors)
    && triggers[id].condition.IsSatisfied(env)
  }

  /** The triggers an `Execute` fires, in order; each is deleted before the next id is looked at. */
  function Fired(triggers: Triggers, ids: seq<nat>, sender: Address, env: Env): (r: (Triggers, seq<Trigger>)) {
    if ids == [] then (triggers, [])
    else
      var (left, fired) := Fired(triggers, ids[..|ids| - 1], sender, env);
      var id := ids[|ids| - 1];
      if Fires(left, id, sender, env) then (left - {id}, fired + [left[id]]) else (left, fired)
  }

  function FiringMessages(fired: seq<Trigger>, sender: Address): seq<Outgoing> {
    if fired == [] then []
    else
      var t := fired[|fired| - 1];
      FiringMessages(fired[..|fired| - 1], sender) + [Call(t.target, t.msg, t)] + Refund(sender, t)
  }

  class Scheduler {
    var triggers: Triggers

    constructor ()
      ensures triggers == map[]
    {
      triggers := map[];
    }

    method Create(hash: Hash, sender: Address, funds: Coins, c: Command) returns (r: Outcome<seq<Outgoing>>)
      modifies this
      ensures r.Ok? <==>
                && |c.executors| <= 10 && c.offered.Supported?
                && (hash(sender, c) in old(triggers) ==> old(triggers)[hash(sender, c)].owner == sender)
      ensures !r.Ok? ==> r == Err && triggers == old(triggers)
      ensures r.Ok? ==> triggers == old(triggers)[hash(sender, c) := NewTrigger(hash, sender, funds, c)]
      ensures r.Ok? ==>
                var id := hash(sender, c);
                r.value == if id in old(triggers) then Refund(sender, old(triggers)[id]) else []
    {
      if |c.executors| > MAX_EXECUTORS || c.offered.Unsupported? {
        return Err;
      }
      var messages := [];
      var id := hash(sender, c);
      if id in triggers {
        var existing := triggers[id];
        if sender != existing.owner {
          return Err;
        }
        triggers := triggers - {id};
        if existing.rebate != map[] {
          messages := messages + [Pay(existing.owner, existing.rebate, existing)];
        }
      }
      triggers := triggers[id := NewTrigger(hash, sender, funds, c)];
      r := Ok(messages);
    }

    method Execute(ids: seq<nat>, sender: Address, env: Env) returns (messages: seq<Outgoing>)
      modifies this
      ensures triggers == Fired(old(triggers), ids, sender, env).0
      ensures messages == FiringMessages(Fired(old(triggers), ids, sender, env).1, sender)
    {
      messages := [];
      for k := 0 to |ids|
        invariant triggers == Fired(old(triggers), ids[..k], sender, env).0
        invariant messages == FiringMessages(Fired(old(triggers), ids[..k], sender, env).1, sender)
      {
        var id := ids[k];
        assert ids[..k + 1][..k] == ids[..k];
        if id !in triggers {
          continue;
        }
        var trigger := triggers[id];
        if trigger.executors != [] && sender !in trigger.executors {
          continue;
        }
        if !trigger.condition.IsSatisfied(env) {
          continue;
        }
        ghost var before := Fired(old(triggers), ids[..k], sender, env);
        triggers := triggers - {id};
        assert (before.1 + [trigger])[..|before.1|] == before.1;
        messages := messages + [Call(trigger.target, trigger.msg, trigger)];
        if trigger.rebate != map[] {
          messages := messages + [Pay(sender, trigger.rebate, trigger)];
        }
      }
      assert ids[..|ids|] == ids;
    }
  }

  // ---- The scheduler on its chain: every interleaving of calls and deliveries ----

  datatype Firing = Firing(trigger: Trigger, executor: Address, env: Env)

  /**
   * `outbox` holds messages not yet delivered and `delivered` the others. `created`, `replaced` and `fired` record
   * what happened to triggers, and `commands` what each of `created` was created by. `stray` is money sent with
   * `Execute`, which the contract never accounts for.
   */
  datatype Ledger = Ledger(
    triggers: Triggers,
    outbox: seq<Outgoing>,
    delivered: seq<Outgoing>,
    balance: Coins,
    stray: Coins,
    created: seq<Trigger>,
    replaced: seq<Trigger>,
    fired: seq<Firing>,
    commands: seq<Creation>)

  /** A create message: who sent it, with what money, and what it asks for. */
  datatype Creation = Creation(sender: Address, funds: Coins, command: Command)

  const EMPTY: Ledger := Ledger(map[], [], [], map[], map[], [], [], [], [])

  /**
   * One event. A callee that runs nested calls is a delivery followed by those calls; one that fails is a delivery
   * followed by nothing, since its effects are undone and the reply swallows the error.
   */
  datatype Event =
    | Created(sender: Address, funds: Coins, command: Command)
    | Executed(sender: Address, funds: Coins, ids: seq<nat>, env: Env)
    | Delivered(position: nat)

  predicate Covers(a: Coins, b: Coins) {
    forall d :: d in b ==> AmountOf(a, d) >= b[d]
  }

  function Minus(a: Coins, b: Coins): Coins
    requires Covers(a, b)
  {
    map d | d in a :: if d in b then a[d] - b[d] else a[d]
  }

  function Firings(ts: seq<Trigger>, executor: Address, env: Env): seq<Firing> {
    seq(|ts|, i requires 0 <= i < |ts| => Firing(ts[i], executor, env))
  }

  /** A rejected create reverts, and so does a payment the contract cannot cover. */
  function Next(hash: Hash, s: Ledger, e: Event): Outcome<Ledger> {
    match e
    case Created(sender, funds, c) =>
      if !Accepts(s.triggers, hash, sender, c) then Err
      else
        var t := NewTrigger(hash, sender, funds, c);
        var s' := s.(triggers := s.triggers[t.id := t], balance := Plus(s.balance, funds), created := s.created + [t],
                     commands := s.commands + [Creation(sender, funds, c)]);
        if t.id in s.triggers then
          var existing := s.triggers[t.id];
          Ok(s'.(outbox := s.outbox + Refund(sender, existing), replaced := s.replaced + [existing]))
        else Ok(s')
    case Executed(sender, funds, ids, env) =>
      var (left, ts) := Fired(s.triggers, ids, sender, env);
      Ok(s.(triggers := left,
            outbox := s.outbox + FiringMessages(ts, sender),
            balance := Plus(s.balance, funds),
            stray := Plus(s.stray, funds),
            fired := s.fired + Firings(ts, sender, env)))
    case Delivered(k) =>
      if k >= |s.outbox| then Err
      else
        var m := s.outbox[k];
        var s' := s.(outbox := s.outbox[..k] + s.outbox[k + 1..], delivered := s.delivered + [m]);
        if m.Call? then Ok(s')
        else if Covers(s.balance, m.coins) then Ok(s'.(balance := Minus(s.balance, m.coins)))
        else Err
  }

  // ---- Counting and summing ----

  /** Rebates held by the stored triggers, in one denom. */
  ghost function Stored(ts: Triggers, d: Denom): nat {
    if ts == map[] then 0
    else
      var id :| id in ts;
      AmountOf(ts[id].rebate, d) + Stored(ts - {id}, d)
  }

  lemma {:induction false} StoredWithout(ts: Triggers, id: nat, d: Denom)
    requires id in ts
    ensures Stored(ts, d) == AmountOf(ts[id].rebate, d) + Stored(ts - {id}, d)
    decreases |ts|
  {
    var k :| k in ts && Stored(ts, d) == AmountOf(ts[k].rebate, d) + Stored(ts - {k}, d);
    if k != id {
      StoredWithout(ts - {k}, id, d);
      StoredWithout(ts - {id}, k, d);
      assert ts - {k} - {id} == ts - {id} - {k};
    }
  }

  lemma {:induction false} StoredWith(ts: Triggers, id: nat, t: Trigger, d: Denom)
    ensures Stored(ts[id := t], d) ==
            Stored(ts, d) + AmountOf(t.rebate, d) - if id in ts then AmountOf(ts[id].rebate, d) else 0
  {
    StoredWithout(ts[id := t], id, d);
    assert ts[id := t] - {id} == ts - {id};
    if id in ts {
      StoredWithout(ts, id, d);
    } else {
      assert ts - {id} == ts;
    }
  }

  function CoinsIn(m: Outgoing, d: Denom): nat {
    if m.Pay? then AmountOf(m.coins, d) else 0
  }

  /** Money in undelivered payments, in one denom. */
  function Undelivered(ms: seq<Outgoing>, d: Denom): nat {
    if ms == [] then 0 else Undelivered(ms[..|ms| - 1], d) + CoinsIn(ms[|ms| - 1], d)
  }

  lemma {:induction false} UndeliveredConcat(a: seq<Outgoing>, b: seq<Outgoing>, d: Denom)
    ensures Undelivered(a + b, d) == Undelivered(a, d) + Undelivered(b, d)
  {
    if b == [] {
      assert a + b == a;
    } else {
      UndeliveredConcat(a, b[..|b| - 1], d);
      assert (a + b)[..|a + b| - 1] == a + b[..|b| - 1];
    }
  }

  lemma {:induction false} RefundCoins(recipient: Address, t: Trigger, d: Denom)
    ensures Undelivered(Refund(recipient, t), d) == AmountOf(t.rebate, d)
  {
    if t.rebate != map[] {
      var m := Pay(recipient, t.rebate, t);
      assert Undelivered([m][..0], d) == 0;
    }
  }

  /** Firing moves rebates from the store to the outbox, to the unit. */
  lemma {:induction false} FiringMovesRebates(ts: Triggers, ids: seq<nat>, sender: Address, env: Env, d: Denom)
    ensures var (left, fired) := Fired(ts, ids, sender, env);
      Stored(ts, d) == Stored(left, d) + Undelivered(FiringMessages(fired, sender), d)
  {
    if ids != [] {
      FiringMovesRebates(ts, ids[..|ids| - 1], sender, env, d);
      var (left, fired) := Fired(ts, ids[..|ids| - 1], sender, env);
      var id := ids[|ids| - 1];
      if Fires(left, id, sender, env) {
        var t := left[id];
        StoredWithout(left, id, d);
        assert (fired + [t])[..|fired|] == fired;
        FiringMessagesCoins(fired, t, sender, d);
      }
    }
  }

  lemma {:induction false} FiringMessagesCoins(fired: seq<Trigger>, t: Trigger, sender: Address, d: Denom)
    ensures Undelivered(FiringMessages(fired + [t], sender), d) ==
            Undelivered(FiringMessages(fired, sender), d) + AmountOf(t.rebate, d)
  {
    var ms, call := FiringMessages(fired, sender), [Call(t.target, t.msg, t)];
    assert (fired + [t])[..|fired|] == fired;
    UndeliveredConcat(ms + call, Refund(sender, t), d);
    UndeliveredConcat(ms, call, d);
    assert Undelivered(call[..0], d) == 0;
    RefundCoins(sender, t, d);
  }

  /** How many entries of a log satisfy a test. */
  function Tally<T>(log: seq<T>, test: T -> bool): nat {
    if log == [] then 0 else Tally(log[..|log| - 1], test) + if test(log[|log| - 1]) then 1 else 0
  }

  lemma {:induction false} TallyConcat<T>(a: seq<T>, b: seq<T>, test: T -> bool)
    ensures Tally(a + b, test) == Tally(a, test) + Tally(b, test)
  {
    if b == [] {
      assert a + b == a;
    } else {
      TallyConcat(a, b[..|b| - 1], test);
      assert (a + b)[..|a + b| - 1] == a + b[..|b| - 1];
    }
  }

  function Is(t: Trigger): Trigger -> bool { x => x == t }

  function FiringOf(t: Trigger): Firing -> bool { (f: Firing) => f.trigger == t }

  function FiringBy(t: Trigger, r: Address): Firing -> bool { (f: Firing) => f.trigger == t && f.executor == r }

  function CallOf(t: Trigger): Outgoing -> bool { (m: Outgoing) => m == Call(t.target, t.msg, t) }

  function PaymentOf(t: Trigger, r: Address): Outgoing -> bool {
    (m: Outgoing) => m.Pay? && m.of == t && m.recipient == r && m.coins == t.rebate
  }

  function Held(ts: Triggers, t: Trigger): nat {
    if t.id in ts && ts[t.id] == t then 1 else 0
  }

  predicate Keyed(ts: Triggers) {
    forall id :: id in ts ==> ts[id].id == id
  }

  lemma {:induction false} FiringAccounts(ts: Triggers, ids: seq<nat>, sender: Address, env: Env, t: Trigger)
    requires Keyed(ts)
    ensures var (left, fired) := Fired(ts, ids, sender, env);
      && Keyed(left)
      && Held(ts, t) == Held(left, t) + Tally(fired, Is(t))
  {
    if ids != [] {
      FiringAccounts(ts, ids[..|ids| - 1], sender, env, t);
      var (left, fired) := Fired(ts, ids[..|ids| - 1], sender, env);
      var id := ids[|ids| - 1];
      if Fires(left, id, sender, env) {
        assert (fired + [left[id]])[..|fired|] == fired;
      }
    }
  }

  predicate AllAllowed(fired: seq<Trigger>, sender: Address, env: Env) {
    forall k :: 0 <= k < |fired| ==> Allowed(Firing(fired[k], sender, env))
  }

  lemma {:induction false} FiredAreAllowed(ts: Triggers, ids: seq<nat>, sender: Address, env: Env)
    ensures AllAllowed(Fired(ts, ids, sender, env).1, sender, env)
  {
    if ids != [] {
      FiredAreAllowed(ts, ids[..|ids| - 1], sender, env);
    }
  }

  predicate Allowed(f: Firing) {
    && f.trigger.condition.IsSatisfied(f.env)
    && (f.trigger.executors == [] || f.executor in f.trigger.executors)
  }

  lemma {:induction false} FiringsTally(ts: seq<Trigger>, sender: Address, env: Env, t: Trigger, r: Address)
    ensures Tally(Firings(ts, sender, env), FiringOf(t)) == Tally(ts, Is(t))
    ensures Tally(Firings(ts, sender, env), FiringBy(t, r)) == if r == sender then Tally(ts, Is(t)) else 0
  {
    if ts != [] {
      FiringsTally(ts[..|ts| - 1], sender, env, t, r);
      var fs := Firings(ts, sender, env);
      assert fs[..|fs| - 1] == Firings(ts[..|ts| - 1], sender, env);
    }
  }

  lemma {:induction false} RefundTally(recipient: Address, x: Trigger, t: Trigger, r: Address)
    ensures Tally(Refund(recipient, x), CallOf(t)) == 0
    ensures Tally(Refund(recipient, x), PaymentOf(t, r)) ==
            if x == t && t.rebate != map[] && r == recipient then 1 else 0
  {
    if x.rebate != map[] {
      var m := Pay(recipient, x.rebate, x);
      assert [m][..0] == [];
    }
  }

  lemma {:induction false} MessagesTally(ts: seq<Trigger>, sender: Address, t: Trigger, r: Address)
    ensures Tally(FiringMessages(ts, sender), CallOf(t)) == Tally(ts, Is(t))
    ensures Tally(FiringMessages(ts, sender), PaymentOf(t, r)) ==
            if t.rebate != map[] && r == sender then Tally(ts, Is(t)) else 0
  {
    if ts != [] {
      var rest, x := ts[..|ts| - 1], ts[|ts| - 1];
      MessagesTally(rest, sender, t, r);
      var ms, call := FiringMessages(rest, sender), [Call(x.target, x.msg, x)];
      assert call[..0] == [];
      TallyConcat(ms + call, Refund(sender, x), CallOf(t));
      TallyConcat(ms, call, CallOf(t));
      TallyConcat(ms + call, Refund(sender, x), PaymentOf(t, r));
      TallyConcat(ms, call, PaymentOf(t, r));
      RefundTally(sender, x, t, r);
    }
  }

  lemma {:induction false} TallySplit<T>(log: seq<T>, k: nat, test: T -> bool)
    requires k < |log|
    ensures Tally(log, test) == Tally(log[..k] + log[k + 1..], test) + if test(log[k]) then 1 else 0
  {
    assert log == (log[..k] + [log[k]]) + log[k + 1..];
    TallyConcat(log[..k] + [log[k]], log[k + 1..], test);
    TallyConcat(log[..k], log[k + 1..], test);
    assert (log[..k] + [log[k]])[..k] == log[..k];
  }

  lemma {:induction false} UndeliveredSplit(ms: seq<Outgoing>, k: nat, d: Denom)
    requires k < |ms|
    ensures Undelivered(ms, d) == Undelivered(ms[..k] + ms[k + 1..], d) + CoinsIn(ms[k], d)
  {
    assert ms == (ms[..k] + [ms[k]]) + ms[k + 1..];
    UndeliveredConcat(ms[..k] + [ms[k]], ms[k + 1..], d);
    UndeliveredConcat(ms[..k], ms[k + 1..], d);
    assert (ms[..k] + [ms[k]])[..k] == ms[..k];
  }

  // ---- The invariants ----

  /** Escrow: the balance is the stored rebates plus the undelivered payments plus what was never accounted for. */
  ghost predicate Escrowed(s: Ledger, d: Denom) {
    AmountOf(s.balance, d) == Stored(s.triggers, d) + Undelivered(s.outbox, d) + AmountOf(s.stray, d)
  }

  /** Each creation of a trigger is still stored, was fired once, or was replaced once; each firing has its call. */
  ghost predicate Conserved(s: Ledger, t: Trigger) {
    && Tally(s.created, Is(t)) == Held(s.triggers, t) + Tally(s.fired, FiringOf(t)) + Tally(s.replaced, Is(t))
    && Tally(s.delivered, CallOf(t)) + Tally(s.outbox, CallOf(t)) == Tally(s.fired, FiringOf(t))
  }

  /** Each rebate is paid once, to the executor that fired the trigger or to the owner that replaced it. */
  ghost predicate PaidOnce(s: Ledger, t: Trigger, r: Address) {
    Tally(s.delivered, PaymentOf(t, r)) + Tally(s.outbox, PaymentOf(t, r)) ==
    if t.rebate == map[] then 0
    else Tally(s.fired, FiringBy(t, r)) + if r == t.owner then Tally(s.replaced, Is(t)) else 0
  }

  ghost predicate Invariant(s: Ledger) {
    && Keyed(s.triggers)
    && (forall d :: Escrowed(s, d))
    && (forall t :: Conserved(s, t))
    && (forall t, r :: PaidOnce(s, t, r))
    && (forall k :: 0 <= k < |s.fired| ==> Allowed(s.fired[k]))
    && CarryRebates(s.outbox)
  }

  lemma {:induction false} CreateKeeps(hash: Hash, s: Ledger, sender: Address, funds: Coins, c: Command)
    requires Invariant(s) && Accepts(s.triggers, hash, sender, c)
    ensures Invariant(Next(hash, s, Created(sender, funds, c)).value)
  {
    var t := NewTrigger(hash, sender, funds, c);
    var s' := Next(hash, s, Created(sender, funds, c)).value;
    var replaced := if t.id in s.triggers then [s.triggers[t.id]] else [];
    var refund := if t.id in s.triggers then Refund(sender, s.triggers[t.id]) else [];
    assert s'.outbox == s.outbox + refund && s'.replaced == s.replaced + replaced;
    forall x ensures Conserved(s', x) {
      assert Conserved(s, x);
      CreateConserves(s, s', t, replaced, refund, sender, x);
    }
    forall x, r ensures PaidOnce(s', x, r) {
      assert PaidOnce(s, x, r);
      CreatePaysOnce(s, s', t, replaced, refund, sender, x, r);
    }
    forall d ensures Escrowed(s', d) {
      assert Escrowed(s, d);
      CreateMovesMoney(s, s', t, refund, sender, d);
    }
  }

  lemma {:induction false} CreateMovesMoney(s: Ledger, s': Ledger, t: Trigger, refund: seq<Outgoing>, sender: Address,
                                            d: Denom)
    requires Escrowed(s, d)
    requires refund == (if t.id in s.triggers then Refund(sender, s.triggers[t.id]) else [])
    requires s'.triggers == s.triggers[t.id := t] && s'.outbox == s.outbox + refund
    requires s'.balance == Plus(s.balance, t.rebate) && s'.stray == s.stray
    ensures Escrowed(s', d)
  {
    StoredWith(s.triggers, t.id, t, d);
    UndeliveredConcat(s.outbox, refund, d);
    if t.id in s.triggers {
      RefundCoins(sender, s.triggers[t.id], d);
    }
  }

  /** What an accepted create of `t` changes. */
  ghost predicate CreateChanges(s: Ledger, s': Ledger, t: Trigger, replaced: seq<Trigger>, refund: seq<Outgoing>,
                                sender: Address)
  {
    && t.owner == sender && (t.id in s.triggers ==> s.triggers[t.id].owner == sender)
    && replaced == (if t.id in s.triggers then [s.triggers[t.id]] else [])
    && refund == (if t.id in s.triggers then Refund(sender, s.triggers[t.id]) else [])
    && s'.triggers == s.triggers[t.id := t] && s'.outbox == s.outbox + refund && s'.delivered == s.delivered
    && s'.created == s.created + [t] && s'.replaced == s.replaced + replaced && s'.fired == s.fired
  }

  lemma {:induction false} CreateConserves(s: Ledger, s': Ledger, t: Trigger, replaced: seq<Trigger>,
                                           refund: seq<Outgoing>, sender: Address, x: Trigger)
    requires Keyed(s.triggers) && Conserved(s, x) && CreateChanges(s, s', t, replaced, refund, sender)
    ensures Conserved(s', x)
  {
    CreateTallies(s, t, replaced, refund, sender, x, x.owner);
    HeldWith(s.triggers, t, x);
    assert Tally(s'.created, Is(x)) == Tally(s.created, Is(x)) + if x == t then 1 else 0;
    assert Tally(s'.fired, FiringOf(x)) == Tally(s.fired, FiringOf(x));
  }

  lemma {:induction false} HeldWith(ts: Triggers, t: Trigger, x: Trigger)
    requires Keyed(ts)
    ensures var was := if t.id in ts && ts[t.id] == x then 1 else 0;
      Held(ts[t.id := t], x) + was == Held(ts, x) + if x == t then 1 else 0
  {
  }

  lemma {:induction false} CreatePaysOnce(s: Ledger, s': Ledger, t: Trigger, replaced: seq<Trigger>,
                                          refund: seq<Outgoing>, sender: Address, x: Trigger, r: Address)
    requires Keyed(s.triggers) && PaidOnce(s, x, r) && CreateChanges(s, s', t, replaced, refund, sender)
    ensures PaidOnce(s', x, r)
  {
    CreateTallies(s, t, replaced, refund, sender, x, r);
  }

  lemma {:induction false} CreateTallies(s: Ledger, t: Trigger, replaced: seq<Trigger>, refund: seq<Outgoing>,
                                         sender: Address, x: Trigger, r: Address)
    requires replaced == (if t.id in s.triggers then [s.triggers[t.id]] else [])
    requires refund == (if t.id in s.triggers then Refund(sender, s.triggers[t.id]) else [])
    ensures Tally(s.created + [t], Is(x)) == Tally(s.created, Is(x)) + if x == t then 1 else 0
    ensures var was := if t.id in s.triggers && s.triggers[t.id] == x then 1 else 0;
      && Tally(s.replaced + replaced, Is(x)) == Tally(s.replaced, Is(x)) + was
      && Tally(s.outbox + refund, CallOf(x)) == Tally(s.outbox, CallOf(x))
      && Tally(s.outbox + refund, PaymentOf(x, r)) ==
         Tally(s.outbox, PaymentOf(x, r)) + if x.rebate != map[] && r == sender then was else 0
  {
    TallyConcat(s.created, [t], Is(x));
    assert [t][..0] == [];
    TallyConcat(s.replaced, replaced, Is(x));
    TallyConcat(s.outbox, refund, CallOf(x));
    TallyConcat(s.outbox, refund, PaymentOf(x, r));
    if t.id in s.triggers {
      assert replaced[..0] == [];
      RefundTally(sender, s.triggers[t.id], x, r);
    }
  }

  lemma {:induction false} ExecuteKeeps(hash: Hash, s: Ledger, sender: Address, funds: Coins, ids: seq<nat>, env: Env)
    requires Invariant(s)
    ensures Invariant(Next(hash, s, Executed(sender, funds, ids, env)).value)
  {
    var s' := Next(hash, s, Executed(sender, funds, ids, env)).value;
    var (left, ts) := Fired(s.triggers, ids, sender, env);
    FiringAccounts(s.triggers, ids, sender, env, Trigger(0, "", BlocksCompleted(0), "", "", [], map[], None));
    FiringIsAllowed(s, sender, ids, env);
    forall d ensures Escrowed(s', d) {
      assert Escrowed(s, d);
      ExecuteKeepsEscrow(s, s', sender, ids, env, d);
    }
    ExecuteKeepsCounts(s, s', sender, ids, env);
  }

  lemma {:induction false} FiringIsAllowed(s: Ledger, sender: Address, ids: seq<nat>, env: Env)
    requires CarryRebates(s.outbox) && forall k :: 0 <= k < |s.fired| ==> Allowed(s.fired[k])
    ensures var ts := Fired(s.triggers, ids, sender, env).1;
      && CarryRebates(s.outbox + FiringMessages(ts, sender))
      && var fired := s.fired + Firings(ts, sender, env);
      forall k :: 0 <= k < |fired| ==> Allowed(fired[k])
  {
    FiredAreAllowed(s.triggers, ids, sender, env);
    PaymentsCarryRebates(Fired(s.triggers, ids, sender, env).1, sender);
  }

  lemma {:induction false} ExecuteKeepsEscrow(s: Ledger, s': Ledger, sender: Address, ids: seq<nat>, env: Env, d: Denom)
    requires Escrowed(s, d) &&
        AmountOf(s'.balance, d) - AmountOf(s'.stray, d) == AmountOf(s.balance, d) - AmountOf(s.stray, d)
    requires var (left, ts) := Fired(s.triggers, ids, sender, env);
      s'.triggers == left && s'.outbox == s.outbox + FiringMessages(ts, sender)
    ensures Escrowed(s', d)
  {
    FiringMovesRebates(s.triggers, ids, sender, env, d);
    UndeliveredConcat(s.outbox, FiringMessages(Fired(s.triggers, ids, sender, env).1, sender), d);
  }

  lemma {:induction false} ExecuteKeepsCounts(s: Ledger, s': Ledger, sender: Address, ids: seq<nat>, env: Env)
    requires Invariant(s)
    requires var (left, ts) := Fired(s.triggers, ids, sender, env);
      && s'.triggers == left && s'.outbox == s.outbox + FiringMessages(ts, sender)
      && s'.fired == s.fired + Firings(ts, sender, env)
    requires s'.delivered == s.delivered && s'.created == s.created && s'.replaced == s.replaced
    ensures forall x :: Conserved(s', x)
    ensures forall x, r :: PaidOnce(s', x, r)
  {
    var ts := Fired(s.triggers, ids, sender, env).1;
    var ms := FiringMessages(ts, sender);
    forall x ensures Conserved(s', x) {
      assert Conserved(s, x);
      FiringAccounts(s.triggers, ids, sender, env, x);
      FiringsTally(ts, sender, env, x, sender);
      TallyConcat(s.fired, Firings(ts, sender, env), FiringOf(x));
      MessagesTally(ts, sender, x, sender);
      TallyConcat(s.outbox, ms, CallOf(x));
    }
    forall x, r ensures PaidOnce(s', x, r) {
      assert PaidOnce(s, x, r);
      FiringsTally(ts, sender, env, x, r);
      TallyConcat(s.fired, Firings(ts, sender, env), FiringBy(x, r));
      MessagesTally(ts, sender, x, r);
      TallyConcat(s.outbox, ms, PaymentOf(x, r));
    }
  }

  predicate CarryRebates(ms: seq<Outgoing>) {
    forall k :: 0 <= k < |ms| ==> ms[k].Pay? ==> ms[k].coins == ms[k].of.rebate
  }

  lemma {:induction false} PaymentsCarryRebates(ts: seq<Trigger>, sender: Address)
    ensures CarryRebates(FiringMessages(ts, sender))
  {
    if ts != [] {
      var rest, x := ts[..|ts| - 1], ts[|ts| - 1];
      PaymentsCarryRebates(rest, sender);
      var a, b := FiringMessages(rest, sender), [Call(x.target, x.msg, x)] + Refund(sender, x);
      assert CarryRebates(a) && CarryRebates(b);
      assert FiringMessages(ts, sender) == a + b;
    }
  }

  /** Every payment in the outbox can be made: the escrow covers it. */
  lemma {:induction false} PaymentIsCovered(s: Ledger, k: nat)
    requires Invariant(s) && k < |s.outbox| && s.outbox[k].Pay?
    ensures Covers(s.balance, s.outbox[k].coins)
  {
    forall d | d in s.outbox[k].coins ensures AmountOf(s.balance, d) >= s.outbox[k].coins[d] {
      assert Escrowed(s, d);
      UndeliveredSplit(s.outbox, k, d);
    }
  }

  lemma {:induction false} DeliverKeeps(hash: Hash, s: Ledger, k: nat)
    requires Invariant(s) && k < |s.outbox|
    ensures Next(hash, s, Delivered(k)).Ok? && Invariant(Next(hash, s, Delivered(k)).value)
  {
    var m := s.outbox[k];
    if m.Pay? {
      PaymentIsCovered(s, k);
    }
    var s' := Next(hash, s, Delivered(k)).value;
    assert s'.outbox == s.outbox[..k] + s.outbox[k + 1..] && s'.delivered == s.delivered + [m];
    forall d ensures Escrowed(s', d) {
      assert Escrowed(s, d);
      UndeliveredSplit(s.outbox, k, d);
    }
    DeliverKeepsCounts(s, s', k);
  }

  lemma {:induction false} DeliverKeepsCounts(s: Ledger, s': Ledger, k: nat)
    requires Invariant(s) && k < |s.outbox|
    requires s'.outbox == s.outbox[..k] + s.outbox[k + 1..] && s'.delivered == s.delivered + [s.outbox[k]]
    requires s'.triggers == s.triggers && s'.created == s.created && s'.replaced == s.replaced && s'.fired == s.fired
    ensures forall x :: Conserved(s', x)
    ensures forall x, r :: PaidOnce(s', x, r)
  {
    assert s'.delivered[..|s.delivered|] == s.delivered;
    forall x ensures Conserved(s', x) {
      assert Conserved(s, x);
      TallySplit(s.outbox, k, CallOf(x));
    }
    forall x, r ensures PaidOnce(s', x, r) {
      assert PaidOnce(s, x, r);
      TallySplit(s.outbox, k, PaymentOf(x, r));
    }
  }

  /** An event that reverts leaves the ledger as it was. */
  function Attempt(hash: Hash): (Ledger, Event) -> Outcome<(Ledger, bool)> {
    (s: Ledger, e: Event) => Ok(if Next(hash, s, e).Ok? then (Next(hash, s, e).value, true) else (s, false))
  }

  /**
   * Over every interleaving of creations, executions and deliveries, and for every id function: the escrow holds
   * exactly the stored rebates and the undelivered payments; each creation ends in at most one firing, by an
   * allowed executor while its condition held, or in one replacement; each rebate is sent once.
   */
  lemma {:induction false} EscrowIsConserved(hash: Hash, events: seq<Event>)
    ensures Invariant(After(hash, events))
  {
    var step := Attempt(hash);
    AttemptsGoThrough(hash, events);
    var inv := (s: Ledger, n: nat) => Invariant(s);
    forall k, s, n | 0 <= k < |events| ensures StepKeeps(step, events[k], inv, s, n) {
      if Invariant(s) {
        StepKeepsInvariant(hash, s, events[k]);
      }
    }
    RepeatKeeps(step, EMPTY, events, inv);
  }

  lemma {:induction false} StepKeepsInvariant(hash: Hash, s: Ledger, e: Event)
    requires Invariant(s)
    ensures Next(hash, s, e).Ok? ==> Invariant(Next(hash, s, e).value)
  {
    match e
    case Created(sender, funds, c) =>
      if Accepts(s.triggers, hash, sender, c) { CreateKeeps(hash, s, sender, funds, c); }
    case Executed(sender, funds, ids, env) => ExecuteKeeps(hash, s, sender, funds, ids, env);
    case Delivered(k) => if k < |s.outbox| { DeliverKeeps(hash, s, k); }
  }

  lemma {:induction false} AttemptsGoThrough(hash: Hash, events: seq<Event>)
    ensures Repeat(Attempt(hash), EMPTY, events).Ok?
  {
    if events != [] {
      AttemptsGoThrough(hash, events[..|events| - 1]);
    }
  }

  /** The ledger after a sequence of events, starting empty. */
  function After(hash: Hash, events: seq<Event>): Ledger {
    AttemptsGoThrough(hash, events);
    Repeat(Attempt(hash), EMPTY, events).value.0
  }

  /**
   * In a reachable ledger a trigger created once is in exactly one place, and its rebate goes to at most one address.
   */
  lemma {:induction false} CreatedOnceFiresAtMostOnce(hash: Hash, events: seq<Event>, t: Trigger, r: Address,
                                                      r': Address)
    ensures var s := After(hash, events);
      Tally(s.created, Is(t)) == 1 ==>
        && Held(s.triggers, t) + Tally(s.fired, FiringOf(t)) + Tally(s.replaced, Is(t)) == 1
        && Tally(s.delivered, CallOf(t)) <= 1
        && Tally(s.delivered, PaymentOf(t, r)) <= 1
        && (r != r' ==> Tally(s.delivered, PaymentOf(t, r)) + Tally(s.delivered, PaymentOf(t, r')) <= 1)
  {
    EscrowIsConserved(hash, events);
    var s := After(hash, events);
    assert Conserved(s, t) && PaidOnce(s, t, r) && PaidOnce(s, t, r');
    FiringsByAddress(s.fired, t, r, r');
  }

  lemma {:induction false} FiringsByAddress(fired: seq<Firing>, t: Trigger, r: Address, r': Address)
    ensures Tally(fired, FiringBy(t, r)) <= Tally(fired, FiringOf(t))
    ensures r != r' ==> Tally(fired, FiringBy(t, r)) + Tally(fired, FiringBy(t, r')) <= Tally(fired, FiringOf(t))
  {
    if fired != [] {
      FiringsByAddress(fired[..|fired| - 1], t, r, r');
    }
  }

  /**
   * A create on the chain goes through exactly when its executors are few, its condition is supported, and its id is
   * free or the sender's own. It then stores what it asks for under that id, and gives the owner the replaced rebate.
   */
  lemma {:induction false} CreatesExactly(hash: Hash, s: Ledger, sender: Address, funds: Coins, c: Command)
    ensures var r, id := Next(hash, s, Created(sender, funds, c)), hash(sender, c);
      && (r.Ok? <==>
            |c.executors| <= 10 && c.offered.Supported? && (id in s.triggers ==> s.triggers[id].owner == sender))
      && (r.Ok? ==>
            var s' := r.value;
            && s'.triggers.Keys == s.triggers.Keys + {id} && s'.triggers[id].id == id
            && Honours(s'.triggers[id], Creation(sender, funds, c))
            && (forall other :: other in s.triggers && other != id ==> s'.triggers[other] == s.triggers[other])
            && s'.balance == Plus(s.balance, funds)
            && s'.outbox == s.outbox +
               if id in s.triggers && s.triggers[id].rebate != map[]
               then [Pay(s.triggers[id].owner, s.triggers[id].rebate, s.triggers[id])]
               else [])
  {
  }

  // ---- Everything that happens was commanded ----

  /** The trigger is what the create message asked for, within the limits the contract sets. */
  predicate Honours(t: Trigger, c: Creation) {
    && c.command.offered.Supported? && |c.command.executors| <= 10
    && t.owner == c.sender && t.rebate == c.funds
    && t.condition == c.command.offered.condition
    && t.target == c.command.target && t.msg == c.command.msg
    && t.executors == c.command.executors && t.jitter == c.command.jitter
  }

  /** A call goes to the target of its trigger with the trigger's payload; a payment carries its rebate. */
  predicate OnBehalf(m: Outgoing) {
    if m.Call? then m.target == m.of.target && m.msg == m.of.msg else m.coins == m.of.rebate
  }

  ghost predicate Commanded(s: Ledger) {
    && |s.commands| == |s.created|
    && (forall i :: 0 <= i < |s.created| ==> Honours(s.created[i], s.commands[i]))
    && (forall k :: 0 <= k < |s.outbox| ==> OnBehalf(s.outbox[k]))
    && (forall k :: 0 <= k < |s.delivered| ==> OnBehalf(s.delivered[k]))
  }

  lemma {:induction false} FiringsOnBehalf(ts: seq<Trigger>, sender: Address)
    ensures forall k :: 0 <= k < |FiringMessages(ts, sender)| ==> OnBehalf(FiringMessages(ts, sender)[k])
  {
    if ts != [] {
      FiringsOnBehalf(ts[..|ts| - 1], sender);
    }
  }

  lemma {:induction false} StepKeepsCommanded(hash: Hash, s: Ledger, e: Event)
    requires Commanded(s) && Next(hash, s, e).Ok?
    ensures Commanded(Next(hash, s, e).value)
  {
    match e
    case Created(sender, funds, c) =>
    case Executed(sender, funds, ids, env) => FiringsOnBehalf(Fired(s.triggers, ids, sender, env).1, sender);
    case Delivered(k) =>
  }

  lemma {:induction false} EventsAreCommanded(hash: Hash, events: seq<Event>)
    ensures Commanded(After(hash, events))
  {
    var step := Attempt(hash);
    AttemptsGoThrough(hash, events);
    var inv := (s: Ledger, n: nat) => Commanded(s);
    forall k, s, n | 0 <= k < |events| ensures StepKeeps(step, events[k], inv, s, n) {
      if Commanded(s) && Next(hash, s, events[k]).Ok? {
        StepKeepsCommanded(hash, s, events[k]);
      }
    }
    RepeatKeeps(step, EMPTY, events, inv);
  }

  lemma {:induction false} TallyCounts<T>(log: seq<T>, test: T -> bool)
    ensures Tally(log, test) > 0 <==> exists k :: 0 <= k < |log| && test(log[k])
  {
    if log != [] {
      var rest := log[..|log| - 1];
      TallyCounts(rest, test);
      assert forall k :: 0 <= k < |rest| ==> rest[k] == log[k];
    }
  }

  /** Trigger `t` was created by some create message, to do what it says. */
  ghost predicate AskedFor(s: Ledger, t: Trigger) {
    exists i :: 0 <= i < |s.created| && i < |s.commands| && s.created[i] == t && Honours(t, s.commands[i])
  }

  lemma {:induction false} FiredWasCreated(s: Ledger, t: Trigger)
    requires Invariant(s) && Commanded(s) && Tally(s.fired, FiringOf(t)) > 0
    ensures AskedFor(s, t)
  {
    assert Conserved(s, t);
    TallyCounts(s.created, Is(t));
    var i :| 0 <= i < |s.created| && Is(t)(s.created[i]);
    assert Honours(s.created[i], s.commands[i]);
  }

  /**
   * Over every interleaving: each firing is of a trigger that some create message asked for, in a block that satisfies
   * that message's condition and by an executor it allows; and each call, delivered or not, goes to that message's
   * target with its payload.
   */
  lemma {:induction false} CallsAreCommanded(hash: Hash, events: seq<Event>)
    ensures var s := After(hash, events);
      && (forall k :: 0 <= k < |s.fired| ==>
            && AskedFor(s, s.fired[k].trigger) && s.fired[k].trigger.condition.IsSatisfied(s.fired[k].env)
            && (s.fired[k].trigger.executors == [] || s.fired[k].executor in s.fired[k].trigger.executors))
      && (forall k :: 0 <= k < |s.outbox| && s.outbox[k].Call? ==> OnBehalf(s.outbox[k]) && AskedFor(s, s.outbox[k].of))
      && (forall k :: 0 <= k < |s.delivered| && s.delivered[k].Call? ==>
            OnBehalf(s.delivered[k]) && AskedFor(s, s.delivered[k].of))
  {
    EscrowIsConserved(hash, events);
    EventsAreCommanded(hash, events);
    var s := After(hash, events);
    forall k | 0 <= k < |s.fired| ensures AskedFor(s, s.fired[k].trigger) {
      TallyCounts(s.fired, FiringOf(s.fired[k].trigger));
      FiredWasCreated(s, s.fired[k].trigger);
    }
    forall k | 0 <= k < |s.outbox| && s.outbox[k].Call? ensures AskedFor(s, s.outbox[k].of) {
      CallWasFired(s, s.outbox, k);
    }
    forall k | 0 <= k < |s.delivered| && s.delivered[k].Call? ensures AskedFor(s, s.delivered[k].of) {
      CallWasFired(s, s.delivered, k);
    }
  }

  lemma {:induction false} CallWasFired(s: Ledger, ms: seq<Outgoing>, k: nat)
    requires Invariant(s) && Commanded(s) && (ms == s.outbox || ms == s.delivered)
    requires k < |ms| && ms[k].Call? && OnBehalf(ms[k])
    ensures AskedFor(s, ms[k].of)
  {
    var t := ms[k].of;
    assert Conserved(s, t);
    assert CallOf(t)(ms[k]);
    TallyCounts(ms, CallOf(t));
    FiredWasCreated(s, t);
  }

  /** The executor may run the stored trigger now. */
  predicate MayFire(t: Trigger, sender: Address, env: Env) {
    (t.executors == [] || sender in t.executors) && t.condition.IsSatisfied(env)
  }

  /**
   * An execute fires exactly the stored triggers that it names, whose condition holds and whose executors allow the
   * sender, once each however often they are named, and leaves the others as they were.
   */
  lemma {:induction false} FiringExactly(ts: Triggers, ids: seq<nat>, sender: Address, env: Env)
    requires Keyed(ts)
    ensures var (left, fired) := Fired(ts, ids, sender, env);
      && (forall t: Trigger :: t in fired <==> t.id in ts && ts[t.id] == t && t.id in ids && MayFire(t, sender, env))
      && (forall id :: id in left <==> id in ts && !(id in ids && MayFire(ts[id], sender, env)))
      && (forall id :: id in left ==> left[id] == ts[id])
      && (forall i, j :: 0 <= i < j < |fired| ==> fired[i] != fired[j])
  {
    if ids != [] {
      var before, id := ids[..|ids| - 1], ids[|ids| - 1];
      FiringExactly(ts, before, sender, env);
      FiresNext(ts, before, id, sender, env);
      assert ids == before + [id];
    }
  }

  lemma {:induction false} FiresNext(ts: Triggers, before: seq<nat>, id: nat, sender: Address, env: Env)
    requires Keyed(ts)
    requires var (left, fired) := Fired(ts, before, sender, env);
      && (forall t: Trigger :: t in fired <==> t.id in ts && ts[t.id] == t && t.id in before && MayFire(t, sender, env))
      && (forall x :: x in left <==> x in ts && !(x in before && MayFire(ts[x], sender, env)))
      && (forall x :: x in left ==> left[x] == ts[x])
    ensures var (left, fired) := Fired(ts, before, sender, env);
      var ids := before + [id];
      var fires := id in left && MayFire(ts[id], sender, env);
      && Fires(left, id, sender, env) == fires
      && (fires ==> ts[id] !in fired)
      && (forall t: Trigger :: t in (if fires then fired + [ts[id]] else fired) <==>
            t.id in ts && ts[t.id] == t && t.id in ids && MayFire(t, sender, env))
      && (forall x :: x in (if fires then left - {id} else left) <==>
            x in ts && !(x in ids && MayFire(ts[x], sender, env)))
  {
  }
}
