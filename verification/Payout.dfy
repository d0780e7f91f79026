/** Distributions over many executes: which of them pay for ever, and which can die. */
module Payouts {
  import opened Outcomes
  import opened Arithmetic
  import opened Decimals
  import opened Money
  import opened Records
  import opened Runs
  import opened Distributions

  /** The action, and everything it has paid. */
  datatype Paying = Paying(distribution: Distribution, paid: seq<Payment>)

  /** One execute; an error or a panic leaves the action as it was. Counts the executes that go through. */
  function PayStep(): (Paying, Denom -> Outcome<nat>) -> Outcome<(Paying, bool)> {
    (s: Paying, balance: Denom -> Outcome<nat>) =>
      match Execute(s.distribution, balance)
      case Ok((payments, d)) => Ok((Paying(d, s.paid + payments), true))
      case _ => Ok((s, false))
  }

  /** What one execute has to split in one denom: nothing if a balance cannot be queried. */
  function Spendable(denoms: seq<Denom>, balance: Denom -> Outcome<nat>, d: Denom): nat {
    if d in denoms && forall x :: x in denoms ==> balance(x).Ok? then balance(d).value else 0
  }

  function AllSpendable(denoms: seq<Denom>, inputs: seq<Denom -> Outcome<nat>>, d: Denom): nat {
    if inputs == [] then 0
    else AllSpendable(denoms, inputs[..|inputs| - 1], d) + Spendable(denoms, inputs[|inputs| - 1], d)
  }

  /** A balance query may fail but does not abort its caller. */
  ghost predicate QueriesAnswer(balance: Denom -> Outcome<nat>) {
    forall d :: !balance(d).Panic?
  }

  lemma {:induction false} BalancesAnswer(denoms: seq<Denom>, balance: Denom -> Outcome<nat>)
    requires QueriesAnswer(balance)
    ensures !Balances(denoms, balance).Panic?
    ensures Balances(denoms, balance).Ok? <==> forall d :: d in denoms ==> balance(d).Ok?
  {
    if denoms != [] {
      BalancesAnswer(denoms[..|denoms| - 1], balance);
      assert denoms == denoms[..|denoms| - 1] + [denoms[|denoms| - 1]];
    }
  }

  lemma {:induction false} NothingSpendable(denoms: seq<Denom>, balance: Denom -> Outcome<nat>, d: Denom)
    requires QueriesAnswer(balance) && !Balances(denoms, balance).Ok?
    ensures Spendable(denoms, balance, d) == 0
  {
    BalancesAnswer(denoms, balance);
  }

  // ---- What keeps an action alive ----

  /** Somebody has shares: the last destination, or else one destination has them all. */
  predicate Viable(ds: seq<Destination>) {
    && ds != [] && TotalShares(ds) > 0
    && (ds[|ds| - 1].shares > 0 || exists j :: 0 <= j < |ds| && ds[j].shares == TotalShares(ds))
  }

  ghost predicate NoRepeats(ds: seq<Destination>) {
    forall i :: 0 <= i < |ds| ==> !Repeats(Recorded(ds[i]))
  }

  ghost predicate Serviceable(d: Distribution) {
    NoDuplicates(d.denoms) && Viable(d.destinations) && NoRepeats(d.destinations)
  }

  /** Balances of one execute: no denom twice, none of them zero, and at least one. */
  predicate Splittable(balances: seq<Coin>) {
    Clean(balances) && balances != []
  }

  lemma {:induction false} BalancesSplit(denoms: seq<Denom>, balance: Denom -> Outcome<nat>)
    requires NoDuplicates(denoms) && Balances(denoms, balance).Ok? && Balances(denoms, balance).value != []
    ensures Splittable(Balances(denoms, balance).value)
  {
    BalancesAre(denoms, balance);
  }

  /** A last destination with shares gets at least its part of every balance, so it always receives something. */
  lemma {:induction false} LastReceives(ds: seq<Destination>, balances: seq<Coin>)
    requires Splittable(balances) && ds != [] && ds[|ds| - 1].shares > 0 && TotalShares(ds) > 0
    ensures Receives(balances, ByShares(Shares(ds)), |ds| - 1)
  {
    var b, last := balances[0].amount, |ds| - 1;
    AmountIsProRata(b, Shares(ds), last);
    MulMonotone(1, b, ds[last].shares);
    assert ByShares(Shares(ds))(last, b) > 0;
  }

  lemma {:induction false} LastStays(ds: seq<Destination>, balances: seq<Coin>, plan: Plan)
    requires ds != [] && Receives(balances, plan, |ds| - 1) && Kept(ds, balances, plan, |ds|).Ok?
    ensures var kept := Kept(ds, balances, plan, |ds|).value;
      kept != [] && kept[|kept| - 1].shares == ds[|ds| - 1].shares
  {
    ReceivesSomething(balances, plan, |ds| - 1);
  }

  lemma {:induction false} OthersHaveNone(xs: seq<nat>, i: nat, j: nat)
    requires i < |xs| && j < |xs| && i != j
    ensures xs[i] + xs[j] <= Sum(xs)
  {
    var last := |xs| - 1;
    if i == last {
      PositiveMemberPositiveSum(xs[..last], j);
    } else if j == last {
      PositiveMemberPositiveSum(xs[..last], i);
    } else {
      OthersHaveNone(xs[..last], i, j);
    }
  }

  lemma {:induction false} CutOfAll(b: nat, total: nat)
    requires total > 0
    ensures Cut(b, total, total) == b
  {
    MultipleMod(ONE, total);
    MultipleMod(b, ONE);
  }

  lemma {:induction false} TakenIncludes(b: nat, shares: seq<nat>, n: nat, j: nat)
    requires j < n <= |shares| && Sum(shares) > 0
    ensures Taken(b, shares, n, Sum(shares)) >= Cut(b, shares[j], Sum(shares))
  {
    if j < n - 1 {
      TakenIncludes(b, shares, n - 1, j);
    }
  }

  /** One destination with all the shares takes everything. */
  lemma {:induction false} OnlyHolderReceives(ds: seq<Destination>, balances: seq<Coin>, j: nat, i: nat)
    requires i < |ds| && j < |ds| - 1 && i != j && ds[j].shares == TotalShares(ds) > 0
    ensures !Receives(balances, ByShares(Shares(ds)), i)
  {
    var shares, plan := Shares(ds), ByShares(Shares(ds));
    OthersHaveNone(shares, i, j);
    forall k | 0 <= k < |balances| ensures plan(i, balances[k].amount) == 0 {
      var b := balances[k].amount;
      if i < |ds| - 1 {
        EarlierAmount(b, shares, i);
        NoShareNoCut(b, Sum(shares));
      } else {
        LastAmount(b, shares);
        PlannedIsTaken(b, shares, i);
        TakenIncludes(b, shares, i, j);
        CutOfAll(b, Sum(shares));
      }
    }
  }

  lemma {:induction false} HolderStays(ds: seq<Destination>, balances: seq<Coin>, j: nat)
    requires Splittable(balances) && j < |ds| - 1 && ds[j].shares == TotalShares(ds) > 0
    requires Kept(ds, balances, ByShares(Shares(ds)), |ds|).Ok?
    ensures var kept := Kept(ds, balances, ByShares(Shares(ds)), |ds|).value;
      kept != [] && kept[|kept| - 1].shares > 0
  {
    var plan := ByShares(Shares(ds));
    SomebodyIsKept(ds, balances);
    KeptAreReceivers(ds, balances, plan, |ds|);
    var kept, ps := Kept(ds, balances, plan, |ds|).value, Payments(ds, balances, plan, |ds|);
    var rs, top := Receivers(balances, plan, |ds|), |kept| - 1;
    ReceiversAre(balances, plan, |ds|, rs[top]);
    if rs[top] != j {
      OnlyHolderReceives(ds, balances, j, rs[top]);
      assert false;
    }
    assert KeptAs(ds, balances, plan, kept[top], ps[top], rs[top]);
  }

  /** After any split of a viable action the last destination has shares. */
  lemma {:induction false} ViableStays(ds: seq<Destination>, balances: seq<Coin>)
    requires Splittable(balances) && Viable(ds) && Kept(ds, balances, ByShares(Shares(ds)), |ds|).Ok?
    ensures Viable(Kept(ds, balances, ByShares(Shares(ds)), |ds|).value)
  {
    var plan := ByShares(Shares(ds));
    var kept := Kept(ds, balances, plan, |ds|).value;
    if ds[|ds| - 1].shares > 0 {
      LastReceives(ds, balances);
      LastStays(ds, balances, plan);
    } else {
      var j :| 0 <= j < |ds| && ds[j].shares == TotalShares(ds);
      HolderStays(ds, balances, j);
    }
    PositiveMemberPositiveSum(Shares(kept), |kept| - 1);
  }

  lemma {:induction false} KeptDoNotRepeat(ds: seq<Destination>, balances: seq<Coin>, plan: Plan)
    requires Kept(ds, balances, plan, |ds|).Ok?
    ensures NoRepeats(Kept(ds, balances, plan, |ds|).value)
  {
    var kept := Kept(ds, balances, plan, |ds|).value;
    KeptAreClean(ds, balances, plan);
    forall i | 0 <= i < |kept| ensures !Repeats(Recorded(kept[i])) {
      CleanDoesNotRepeat(Recorded(kept[i]));
    }
  }

  /** A serviceable action executes exactly when its balances can be queried, and stays serviceable. */
  lemma {:induction false} ServiceableExecutes(d: Distribution, balance: Denom -> Outcome<nat>)
    requires Serviceable(d) && QueriesAnswer(balance)
    ensures Execute(d, balance).Ok? <==> Balances(d.denoms, balance).Ok?
    ensures !Execute(d, balance).Panic?
    ensures Execute(d, balance).Ok? ==>
              var d' := Execute(d, balance).value.1; d'.denoms == d.denoms && Serviceable(d')
  {
    BalancesAnswer(d.denoms, balance);
    if Balances(d.denoms, balance).Ok? && Balances(d.denoms, balance).value != [] {
      ServiceableSplits(d, balance);
    }
  }

  lemma {:induction false} ServiceableSplits(d: Distribution, balance: Denom -> Outcome<nat>)
    requires Serviceable(d) && Balances(d.denoms, balance).Ok? && Balances(d.denoms, balance).value != []
    ensures Execute(d, balance).Ok?
    ensures var d' := Execute(d, balance).value.1; d'.denoms == d.denoms && Serviceable(d')
  {
    var ds, bs := d.destinations, Balances(d.denoms, balance).value;
    var plan := ByShares(Shares(ds));
    FailsExactly(d, balance);
    assert forall i :: 0 <= i < |ds| ==> !Stops(ds, bs, plan, i);
    BalancesSplit(d.denoms, balance);
    ViableStays(ds, bs);
    KeptDoNotRepeat(ds, bs, plan);
    assert Execute(d, balance).value.1 == d.(destinations := Kept(ds, bs, plan, |ds|).value);
  }

  lemma {:induction false} ServiceablePays(d: Distribution, balance: Denom -> Outcome<nat>, denom: Denom)
    requires Serviceable(d) && QueriesAnswer(balance) && Execute(d, balance).Ok?
    ensures Paid(Execute(d, balance).value.0, denom) == Spendable(d.denoms, balance, denom)
  {
    ServiceableExecutes(d, balance);
    BalancesAnswer(d.denoms, balance);
    if denom in d.denoms {
      DistributionConserves(d, balance, denom);
    } else if Balances(d.denoms, balance).value != [] {
      BalancesAre(d.denoms, balance);
      var ds := d.destinations;
      NothingPaid(ds, Balances(d.denoms, balance).value, ByShares(Shares(ds)), |ds|, denom);
    }
  }

  lemma {:induction false} PaidConcat(a: seq<Payment>, b: seq<Payment>, d: Denom)
    ensures Paid(a + b, d) == Paid(a, d) + Paid(b, d)
  {
    if b == [] {
      assert a + b == a;
    } else {
      PaidConcat(a, b[..|b| - 1], d);
      assert (a + b)[..|a + b| - 1] == a + b[..|b| - 1];
    }
  }

  /** What holds of a serviceable action once it has been through some executes. */
  ghost predicate InService(d: Distribution, s: Paying, inputs: seq<Denom -> Outcome<nat>>) {
    && s.distribution.denoms == d.denoms && Serviceable(s.distribution)
    && forall denom :: Paid(s.paid, denom) == AllSpendable(d.denoms, inputs, denom)
  }

  lemma {:induction false} StepInService(d: Distribution, s: Paying, inputs: seq<Denom -> Outcome<nat>>,
                                         balance: Denom -> Outcome<nat>)
    requires InService(d, s, inputs) && QueriesAnswer(balance)
    ensures InService(d, PayStep()(s, balance).value.0, inputs + [balance])
  {
    var s' := PayStep()(s, balance).value.0;
    ServiceableExecutes(s.distribution, balance);
    forall denom ensures Paid(s'.paid, denom) == AllSpendable(d.denoms, inputs + [balance], denom) {
      assert (inputs + [balance])[..|inputs|] == inputs;
      if Execute(s.distribution, balance).Ok? {
        ServiceablePays(s.distribution, balance, denom);
        PaidConcat(s.paid, Execute(s.distribution, balance).value.0, denom);
      } else {
        NothingSpendable(d.denoms, balance, denom);
      }
    }
  }

  ghost predicate AllAnswer(inputs: seq<Denom -> Outcome<nat>>) {
    forall k :: 0 <= k < |inputs| ==> QueriesAnswer(inputs[k])
  }

  /**
   * Over every sequence of executes of a serviceable action: none of them divides by zero, every one whose balances
   * can be queried pays them all out, and the action stays serviceable.
   */
  lemma {:induction false} PaysForEver(d: Distribution, inputs: seq<Denom -> Outcome<nat>>)
    requires Serviceable(d) && AllAnswer(inputs)
    ensures Repeat(PayStep(), Paying(d, []), inputs).Ok?
    ensures var s := Repeat(PayStep(), Paying(d, []), inputs).value.0;
      InService(d, s, inputs) && forall balance :: QueriesAnswer(balance) ==> !Execute(s.distribution, balance).Panic?
  {
    if inputs != [] {
      var rest, last := inputs[..|inputs| - 1], inputs[|inputs| - 1];
      forall k | 0 <= k < |rest| ensures QueriesAnswer(rest[k]) {
        assert rest[k] == inputs[k];
      }
      PaysForEver(d, rest);
      StepInService(d, Repeat(PayStep(), Paying(d, []), rest).value.0, rest, last);
      assert rest + [last] == inputs;
    }
    var s := Repeat(PayStep(), Paying(d, []), inputs).value.0;
    forall balance | QueriesAnswer(balance) ensures !Execute(s.distribution, balance).Panic? {
      ServiceableExecutes(s.distribution, balance);
    }
  }

  // ---- How an action dies ----

  /** Without shares, every split of something panics and no execute changes or pays anything, ever. */
  lemma {:induction false} NoSharesForEver(d: Distribution, inputs: seq<Denom -> Outcome<nat>>)
    requires d.destinations != [] && TotalShares(d.destinations) == 0
    ensures forall balance :: Balances(d.denoms, balance).Ok? && Balances(d.denoms, balance).value != [] ==>
              Execute(d, balance).Panic?
    ensures Repeat(PayStep(), Paying(d, []), inputs).Ok?
    ensures Repeat(PayStep(), Paying(d, []), inputs).value.0 == Paying(d, [])
  {
    if inputs != [] {
      NoSharesForEver(d, inputs[..|inputs| - 1]);
      var none: seq<Payment> := [];
      assert none + none == none;
    }
  }

  /**
   * An execute that splits something goes through unless a receiver's record repeats a denom. It leaves the action
   * dead, paying nothing ever again whatever it is offered, exactly when its last destination had no shares and every
   * cut came to zero.
   */
  lemma {:induction false} DiesExactly(d: Distribution, balance: Denom -> Outcome<nat>,
                                       later: seq<Denom -> Outcome<nat>>)
    requires NoDuplicates(d.denoms) && d.destinations != [] && TotalShares(d.destinations) > 0
    requires Balances(d.denoms, balance).Ok? && Balances(d.denoms, balance).value != []
    ensures var ds, bs := d.destinations, Balances(d.denoms, balance).value;
      var dead := ds[|ds| - 1].shares == 0 && NoCuts(ds, bs);
      && (Execute(d, balance).Ok? <==> forall i :: 0 <= i < |ds| ==> !Stops(ds, bs, ByShares(Shares(ds)), i))
      && (Execute(d, balance).Ok? ==>
            var d' := Execute(d, balance).value.1;
            && d'.destinations != []
            && (TotalShares(d'.destinations) == 0 <==> dead)
            && (dead ==> Repeat(PayStep(), Paying(d', []), later).Ok? &&
                         Repeat(PayStep(), Paying(d', []), later).value.0 == Paying(d', [])))
  {
    var bs := Balances(d.denoms, balance).value;
    FailsExactly(d, balance);
    if Execute(d, balance).Ok? {
      BalancesAre(d.denoms, balance);
      SharesLostExactly(d.destinations, bs);
      SomebodyIsKept(d.destinations, bs);
      var d' := Execute(d, balance).value.1;
      if TotalShares(d'.destinations) == 0 {
        NoSharesForEver(d', later);
      }
    }
  }

  /** A balance of one in the first denom, and of nothing in the others. */
  function OneUnit(denom: Denom): Denom -> Outcome<nat> {
    (x: Denom) => Ok(if x == denom then 1 else 0)
  }

  lemma {:induction false} OneUnitBalances(denoms: seq<Denom>)
    requires NoDuplicates(denoms) && denoms != []
    ensures Balances(denoms, OneUnit(denoms[0])) == Ok([Coin(denoms[0], 1)])
  {
    var rest, last := denoms[..|denoms| - 1], denoms[|denoms| - 1];
    var balance := OneUnit(denoms[0]);
    if rest == [] {
      assert Balances(rest, balance) == Ok([]);
      assert Push([], denoms[0], 1) == [Coin(denoms[0], 1)];
    } else {
      assert rest[0] == denoms[0];
      OneUnitBalances(rest);
    }
  }

  lemma {:induction false} PartOfOneIsNothing(share: nat, total: nat)
    requires share < total
    ensures Cut(1, share, total) == 0
  {
    var ratio := share * ONE / total;
    MulMonotone(share + 1, total, ONE);
    DivAtLeast(share * ONE, total, ONE);
    assert ONE * total == total * ONE;
    DivModUnique(ratio, ONE, 0, ratio);
  }

  lemma {:induction false} OneUnitKills(d: Distribution)
    requires NoDuplicates(d.denoms) && d.denoms != [] && NoRepeats(d.destinations)
    requires d.destinations != [] && TotalShares(d.destinations) > 0 && !Viable(d.destinations)
    ensures Execute(d, OneUnit(d.denoms[0])).Ok?
    ensures TotalShares(Execute(d, OneUnit(d.denoms[0])).value.1.destinations) == 0
  {
    var ds, bs := d.destinations, [Coin(d.denoms[0], 1)];
    OneUnitBalances(d.denoms);
    forall i | 0 <= i < |ds| - 1 ensures Cut(1, ds[i].shares, TotalShares(ds)) == 0 {
      PositiveMemberPositiveSum(Shares(ds), i);
      PartOfOneIsNothing(ds[i].shares, TotalShares(ds));
    }
    assert NoCuts(ds, bs);
    DiesExactly(d, OneUnit(d.denoms[0]), []);
  }

  lemma {:induction false} StepsGoOn(s: Paying, inputs: seq<Denom -> Outcome<nat>>)
    ensures Repeat(PayStep(), s, inputs).Ok?
  {
    if inputs != [] {
      StepsGoOn(s, inputs[..|inputs| - 1]);
    }
  }

  /** A sequence of executes, all of whose queries answer, that leaves nobody with shares. */
  ghost predicate Kills(d: Distribution, inputs: seq<Denom -> Outcome<nat>>) {
    && AllAnswer(inputs)
    && Repeat(PayStep(), Paying(d, []), inputs).Ok?
    && TotalShares(Repeat(PayStep(), Paying(d, []), inputs).value.0.distribution.destinations) == 0
  }

  /**
   * An action with shares and no repeated record can be killed, by some sequence of executes, exactly when its last
   * destination has no shares and no destination has them all; otherwise it pays for ever.
   */
  lemma {:induction false} KillableExactly(d: Distribution)
    requires NoDuplicates(d.denoms) && d.denoms != [] && NoRepeats(d.destinations)
    requires d.destinations != [] && TotalShares(d.destinations) > 0
    ensures var ds := d.destinations;
      (exists inputs :: Kills(d, inputs)) <==>
      ds[|ds| - 1].shares == 0 && forall j :: 0 <= j < |ds| ==> ds[j].shares < TotalShares(ds)
  {
    var ds := d.destinations;
    forall j | 0 <= j < |ds| ensures ds[j].shares <= TotalShares(ds) {
      PositiveMemberPositiveSum(Shares(ds), j);
    }
    if Viable(ds) {
      forall inputs ensures !Kills(d, inputs) {
        if AllAnswer(inputs) {
          PaysForEver(d, inputs);
        }
      }
    } else {
      var inputs := [OneUnit(d.denoms[0])];
      OneUnitKills(d);
      assert inputs[..0] == [];
      StepsGoOn(Paying(d, []), inputs);
      assert Repeat(PayStep(), Paying(d, []), inputs[..0]) == Ok((Paying(d, []), 0));
      assert Kills(d, inputs);
    }
  }

  /** While every split has a receiver whose record repeats a denom, nothing changes and nobody is paid. */
  lemma {:induction false} BlockedForEver(d: Distribution, inputs: seq<Denom -> Outcome<nat>>)
    requires d.destinations != [] && TotalShares(d.destinations) > 0
    requires forall k :: 0 <= k < |inputs| ==> Blocked(d, inputs[k])
    ensures Repeat(PayStep(), Paying(d, []), inputs).Ok?
    ensures Repeat(PayStep(), Paying(d, []), inputs).value.0 == Paying(d, [])
  {
    if inputs != [] {
      var rest, last := inputs[..|inputs| - 1], inputs[|inputs| - 1];
      forall k | 0 <= k < |rest| ensures Blocked(d, rest[k]) {
        assert rest[k] == inputs[k];
      }
      BlockedForEver(d, rest);
      assert Blocked(d, last);
      FailsExactly(d, last);
    }
  }

  /** The balances can be queried, and one who would receive something has a record that repeats a denom. */
  ghost predicate Blocked(d: Distribution, balance: Denom -> Outcome<nat>)
    requires TotalShares(d.destinations) > 0
  {
    && Balances(d.denoms, balance).Ok? && Balances(d.denoms, balance).value != []
    && exists i :: Stops(d.destinations, Balances(d.denoms, balance).value, ByShares(Shares(d.destinations)), i)
  }

  // ---- Examples ----

  /** Two destinations with 5000 shares each, initialised with affiliates of 25 and of no basis points. */
  function Halves(first: Option<seq<Coin>>): Distribution {
    Distribution(["rune"], [Destination(5000, Bank("a"), None, first), Destination(5000, Bank("b"), None, None)])
  }

  function TwoAffiliates(): seq<Affiliate> {
    [Affiliate("CALC", "c", 25), Affiliate("free", "d", 0)]
  }

  /** An input for dying: `init` accepts it, and a balance of one goes to the affiliate that has no shares. */
  lemma {:induction false} FreeAffiliateKills(balance: Denom -> Outcome<nat>)
    requires balance("rune") == Ok(1)
    ensures InitAccepts(Halves(None), (a: Address) => true)
    ensures var d := WithAffiliates(Halves(None), TwoAffiliates());
      && Shares(d.destinations) == [5000, 5000, 25, 0]
      && Execute(d, balance).Ok? && TotalShares(Execute(d, balance).value.1.destinations) == 0
  {
    HalvesShares(None);
    var d := WithAffiliates(Halves(None), TwoAffiliates());
    var bs := [Coin("rune", 1)];
    OneBalance("rune", balance);
    NoCutOfOne(d.destinations);
    NothingRepeated(TwoAffiliates());
    DiesExactly(d, balance, []);
  }

  lemma {:induction false} NothingRepeated(affiliates: seq<Affiliate>)
    ensures NoRepeats(WithAffiliates(Halves(None), affiliates).destinations)
  {
    var ds := WithAffiliates(Halves(None), affiliates).destinations;
    forall i | 0 <= i < |ds| ensures !Repeats(Recorded(ds[i])) {
      assert Recorded(ds[i]) == [];
      CleanDoesNotRepeat([]);
    }
  }

  function RuneTwice(): seq<Coin> {
    [Coin("rune", 1), Coin("rune", 1)]
  }

  /**
   * An input for being stopped: `init` accepts a destination submitted with a record that names rune twice, and from
   * then on no execute with three rune or more to split pays anybody.
   */
  lemma {:induction false} RepeatedRecordStops(inputs: seq<Denom -> Outcome<nat>>)
    requires forall k :: 0 <= k < |inputs| ==> inputs[k]("rune").Ok? && inputs[k]("rune").value >= 3
    ensures InitAccepts(Halves(Some(RuneTwice())), (a: Address) => true)
    ensures var d := WithAffiliates(Halves(Some(RuneTwice())), TwoAffiliates());
      && Repeat(PayStep(), Paying(d, []), inputs).Ok?
      && Repeat(PayStep(), Paying(d, []), inputs).value.0 == Paying(d, [])
  {
    HalvesShares(Some(RuneTwice()));
    var d := WithAffiliates(Halves(Some(RuneTwice())), TwoAffiliates());
    SumOfFour(5000, 5000, 25, 0);
    forall k | 0 <= k < |inputs| ensures Blocked(d, inputs[k]) {
      RuneStops(d, inputs[k]);
    }
    BlockedForEver(d, inputs);
  }

  lemma {:induction false} RuneStops(d: Distribution, balance: Denom -> Outcome<nat>)
    requires d == WithAffiliates(Halves(Some(RuneTwice())), TwoAffiliates())
    requires Shares(d.destinations) == [5000, 5000, 25, 0]
    requires balance("rune").Ok? && balance("rune").value >= 3 && TotalShares(d.destinations) == 10_025
    ensures Blocked(d, balance)
  {
    var b, shares := balance("rune").value, Shares(d.destinations);
    OneBalance("rune", balance);
    EarlierAmount(b, shares, 0);
    HalfOfThree(b);
    var bs := [Coin("rune", b)];
    assert bs[0].amount == b && ByShares(shares)(0, bs[0].amount) > 0;
    assert Twice(RuneTwice(), 0, 1);
    assert Stops(d.destinations, bs, ByShares(shares), 0);
  }

  lemma {:induction false} HalfOfThree(b: nat)
    requires b >= 3
    ensures Cut(b, 5000, 10_025) > 0
  {
    var ratio := 5000 * ONE / 10_025;
    MulMonotone(3, b, ratio);
    DivAtLeast(b * ratio, ONE, 1);
  }

  lemma {:induction false} OneBalance(denom: Denom, balance: Denom -> Outcome<nat>)
    requires balance(denom).Ok? && balance(denom).value > 0
    ensures Balances([denom], balance) == Ok([Coin(denom, balance(denom).value)])
  {
    assert [denom][..0] == [];
    assert Balances([], balance) == Ok([]);
    assert Push([], denom, balance(denom).value) == [Coin(denom, balance(denom).value)];
  }

  lemma {:induction false} NoCutOfOne(ds: seq<Destination>)
    requires Shares(ds) == [5000, 5000, 25, 0]
    ensures TotalShares(ds) == 10_025 && NoCuts(ds, [Coin("rune", 1)])
  {
    SumOfFour(5000, 5000, 25, 0);
    assert forall i :: 0 <= i < 4 ==> ds[i].shares == Shares(ds)[i];
  }

  lemma {:induction false} SumOfFour(a: nat, b: nat, c: nat, d: nat)
    ensures Sum([a, b, c, d]) == a + b + c + d && Sum([a, b]) == a + b
  {
    assert [a, b, c, d][..3] == [a, b, c] && [a, b, c][..2] == [a, b] && [a, b][..1] == [a] && [a][..0] == [];
    assert Sum([a]) == a && Sum([a, b]) == a + b;
  }

  lemma {:induction false} HalvesShares(first: Option<seq<Coin>>)
    ensures InitAccepts(Halves(first), (a: Address) => true)
    ensures Shares(WithAffiliates(Halves(first), TwoAffiliates()).destinations) == [5000, 5000, 25, 0]
  {
    SumOfFour(5000, 5000, 0, 0);
    assert Shares(Halves(first).destinations) == [5000, 5000];
  }
}
