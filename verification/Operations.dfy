/** Runs whose schedules, limit orders and distributions behave as their own modules say. */
module Operations {
  import opened Outcomes
  import opened Cadences
  import opened Money
  import opened Nodes
  import opened Traversal
  import opened Runs
  import Schedules
  import LimitOrders
  import Distributions
  import Payouts
  import Records

  /** What the chain shows at one moment of a run. */
  datatype View = View(env: Env, balance: Denom -> Outcome<nat>, market: LimitOrders.Market)

  /**
   * The answers of one run: the view each visit starts from, the view once its messages have run, and what is not
   * modelled here, namely the outcome of each swap and of each condition that only looks.
   */
  datatype Views = Views(
    before: nat -> View,
    after: nat -> View,
    swap: (nat, nat) -> Outcome<seq<Message>>,
    check: (nat, bool) -> Outcome<bool>)

  function ScheduleView(v: View): Schedules.View {
    Schedules.View(v.env, v.balance)
  }

  function Key(r: Distributions.Recipient): string {
    if r.Deposit? then r.memo else r.address
  }

  /** Coins as they arrive, whatever their order in the message. */
  function AddAll(cs: Coins, coins: seq<Coin>): Coins {
    if coins == [] then cs
    else Add(AddAll(cs, coins[..|coins| - 1]), coins[|coins| - 1].denom, coins[|coins| - 1].amount)
  }

  function Sends(ps: seq<Distributions.Payment>): seq<Message> {
    seq(|ps|, i requires 0 <= i < |ps| => Send(Key(ps[i].recipient), AddAll(map[], ps[i].coins)))
  }

  /** Dispatch of `execute` over the operations. */
  function ExecuteOp(k: nat, op: Operation, vs: Views): Outcome<(seq<Message>, Operation)> {
    match op
    case Schedule(s) =>
      var (messages, s') :- Schedules.Execute(s, ScheduleView(vs.before(k)));
      Ok((messages, Schedule(s')))
    case LimitOrder(o) =>
      var (messages, o') :- LimitOrders.Execute(o, vs.before(k).market);
      Ok((messages, LimitOrder(o')))
    case Distribute(d) =>
      var (payments, d') :- Distributions.Execute(d, vs.before(k).balance);
      Ok((Sends(payments), Distribute(d')))
    case Swap(routes) =>
      var messages :- vs.swap(k, routes);
      Ok((messages, op))
    case Check(_) => Ok(([], op))
  }

  /** Only limit orders do anything when cancelled. */
  function CancelOp(k: nat, op: Operation, vs: Views): Outcome<(seq<Message>, Operation)> {
    match op
    case LimitOrder(o) =>
      var (messages, o') :- LimitOrders.Cancel(o, vs.before(k).market);
      Ok((messages, LimitOrder(o')))
    case _ => Ok(([], op))
  }

  /** Whether a condition holds after its visit; actions are never asked. */
  function SatisfiedOp(k: nat, op: Operation, vs: Views): Outcome<bool> {
    match op
    case Schedule(s) => Schedules.CanExecute(s, vs.after(k).env)
    case Check(large) => vs.check(k, large)
    case _ => Err
  }

  /** Only schedules and limit orders have anything to commit. */
  function CommitOp(k: nat, op: Operation, vs: Views): Outcome<Operation> {
    match op
    case Schedule(s) =>
      var s' :- Schedules.Commit(s);
      Ok(Schedule(s'))
    case LimitOrder(o) =>
      var o' :- LimitOrders.Commit(o, vs.after(k).market);
      Ok(LimitOrder(o'))
    case _ => Ok(op)
  }

  function WorldOf(vs: Views): World {
    World(
      (k: nat, op: Operation) => ExecuteOp(k, op, vs),
      (k: nat, op: Operation) => CancelOp(k, op, vs),
      (k: nat, op: Operation) => SatisfiedOp(k, op, vs),
      (k: nat, op: Operation) => CommitOp(k, op, vs))
  }

  /** One run is one transaction: the same block throughout. */
  ghost predicate OneBlock(vs: Views, env: Env) {
    forall k :: vs.before(k).env == env && vs.after(k).env == env
  }

  // ---- Schedules ----

  /** A schedule node with nothing staged by the user and a limit, if any, of at least one. */
  predicate SoundSchedule(n: Node) {
    n.Condition? && n.op.Schedule? && n.op.schedule.next.None? && n.op.schedule.maxExecutions != Some(0)
  }

  predicate SoundSchedules(nodes: Store) {
    forall i :: i in nodes && nodes[i].op.Schedule? ==> SoundSchedule(nodes[i])
  }

  /** Rebate balances can be queried and cron expressions parse, at every visit of the run. */
  ghost predicate AnswersSchedule(s: Schedules.Schedule, vs: Views) {
    forall k {:trigger vs.before(k)} :: Schedules.GoodView(s, ScheduleView(vs.before(k)))
  }

  ghost predicate QueriesSucceed(nodes: Store, vs: Views) {
    forall i :: i in nodes && nodes[i].op.Schedule? ==> AnswersSchedule(nodes[i].op.schedule, vs)
  }

  function VisitSchedule(s: Schedules.Schedule, k: nat, vs: Views): Outcome<Schedules.Result> {
    Schedules.Visit(s, ScheduleView(vs.before(k)), vs.after(k).env)
  }

  /** The engine's visit of a schedule node is the schedule's own visit: what is stored, and the side taken. */
  lemma {:induction false} ScheduleNodeVisit(n: Node, k: nat, vs: Views)
    requires n.op.Schedule? && Settled(n, k, Execute, WorldOf(vs)).Ok?
    requires NextIndex(Visit(n, k, Execute, WorldOf(vs)).value.saved, k, WorldOf(vs)).Ok?
    ensures var r := VisitSchedule(n.op.schedule, k, vs);
      n.Condition? ==>
        && r.Ok?
        && Settled(n, k, Execute, WorldOf(vs)) == Ok(WithOp(n, Schedule(r.value.schedule)))
        && NextIndex(Visit(n, k, Execute, WorldOf(vs)).value.saved, k, WorldOf(vs)) ==
            Ok(if r.value.success then n.onSuccess else n.onFailure)
  {
    var s := n.op.schedule;
    var executed := Schedules.Execute(s, ScheduleView(vs.before(k)));
    if executed.Ok? {
      assert executed.value.0 != [];
    }
  }

  /** What a run does to a schedule node that it visits at position `k`: what it stores, and where it goes next. */
  ghost predicate ScheduleOutcome(nodes: Store, nodes': Store, p: seq<nat>, k: nat, vs: Views, env: Env)
    requires k < |p| && p[k] in nodes && nodes[p[k]].op.Schedule? && nodes[p[k]].Condition?
  {
    var n := nodes[p[k]];
    var r := VisitSchedule(n.op.schedule, k, vs);
    && r.Ok? && p[k] in nodes'
    && nodes'[p[k]] == WithOp(n, Schedule(r.value.schedule))
    && After(p, k) == Present(nodes, if r.value.success then n.onSuccess else n.onFailure)
    && CommitsOnSuccess(n.op.schedule, r.value, env)
  }

  /**
   * The success side goes with being due within the limit and with a committed crank; the other side with no change.
   */
  predicate CommitsOnSuccess(s: Schedules.Schedule, v: Schedules.Result, env: Env) {
    && v.schedule.next.None?
    && (v.success <==> s.cadence.IsDue(env) == Ok(true) && Schedules.WithinMax(s))
    && (v.success ==>
          && s.cadence.Crank(env).Ok?
          && v.schedule == s.(cadence := s.cadence.Crank(env).value, executions := Some(Schedules.Executions(s) + 1)))
    && (!v.success ==> v.schedule == s)
  }

  lemma {:induction false} VisitCommits(s: Schedules.Schedule, k: nat, vs: Views, env: Env)
    requires s.next.None? && s.maxExecutions != Some(0) && OneBlock(vs, env) && AnswersSchedule(s, vs)
    requires VisitSchedule(s, k, vs).Ok?
    ensures CommitsOnSuccess(s, VisitSchedule(s, k, vs).value, env)
  {
    var view := ScheduleView(vs.before(k));
    assert Schedules.GoodView(s, view);
    assert VisitSchedule(s, k, vs) == Schedules.Visit(s, view, view.env);
    Schedules.VisitCommitsOnSuccess(s, view);
  }

  /**
   * A run along `p` left `nodes'`: every schedule it visited has its outcome, every node it did not is as it was, and
   * nothing stays staged.
   */
  ghost predicate SchedulesRan(nodes: Store, nodes': Store, p: seq<nat>, vs: Views, env: Env) {
    && nodes'.Keys == nodes.Keys && SoundSchedules(nodes')
    && (forall k :: 0 <= k < |p| ==> p[k] in nodes)
    && SchedulesVisited(nodes, nodes', p, vs, env)
    && (forall i :: i in nodes && i !in p ==> nodes'[i] == nodes[i])
  }

  ghost predicate SchedulesVisited(nodes: Store, nodes': Store, p: seq<nat>, vs: Views, env: Env) {
    forall k :: 0 <= k < |p| && p[k] in nodes && nodes[p[k]].op.Schedule? ==>
      nodes[p[k]].Condition? && ScheduleOutcome(nodes, nodes', p, k, vs, env)
  }

  /**
   * In every execute run, each schedule node it visits takes its success side exactly when the schedule is due and
   * within its limit, which is exactly when a crank is committed and counted; otherwise the node is left as it was.
   * No cadence stays staged after the run, and nodes that are not visited do not change.
   */
  lemma {:induction false} ScheduleRun(nodes: Store, path: seq<nat>, vs: Views, env: Env)
    requires WellFormed(nodes) && SoundSchedules(nodes) && OneBlock(vs, env) && QueriesSucceed(nodes, vs)
    requires Run(nodes, path, Execute, WorldOf(vs)).Ok?
    ensures var Ran(nodes', p, _) := Run(nodes, path, Execute, WorldOf(vs)).value;
      SchedulesRan(nodes, nodes', p, vs, env)
  {
    RunIsTraced(nodes, path, Execute, WorldOf(vs));
    var Ran(nodes', p, _) := Run(nodes, path, Execute, WorldOf(vs)).value;
    TracedSchedules(nodes, nodes', p, vs, env);
  }

  lemma {:induction false} TracedSchedules(nodes: Store, nodes': Store, p: seq<nat>, vs: Views, env: Env)
    requires Traced(nodes, nodes', p, 0, Execute, WorldOf(vs))
    requires SoundSchedules(nodes) && OneBlock(vs, env) && QueriesSucceed(nodes, vs)
    ensures SchedulesRan(nodes, nodes', p, vs, env)
  {
    forall k | 0 <= k < |p| && p[k] in nodes && nodes[p[k]].op.Schedule?
      ensures nodes[p[k]].Condition? && ScheduleOutcome(nodes, nodes', p, k, vs, env)
    {
      ScheduleVisited(nodes, nodes', p, k, vs, env);
    }
    StillSound(nodes, nodes', p, vs, env);
  }

  lemma {:induction false} StillSound(nodes: Store, nodes': Store, p: seq<nat>, vs: Views, env: Env)
    requires Settles(nodes, nodes', p, 0, Execute, WorldOf(vs)) && SoundSchedules(nodes)
    requires SchedulesVisited(nodes, nodes', p, vs, env)
    ensures SoundSchedules(nodes')
  {
    forall i | i in nodes' && nodes'[i].op.Schedule? ensures SoundSchedule(nodes'[i]) {
      KindKept(nodes, nodes', p, i, Execute, vs);
      if i in p {
        var k :| 0 <= k < |p| && p[k] == i;
        assert ScheduleOutcome(nodes, nodes', p, k, vs, env);
        assert SoundSchedule(nodes[i]);
      }
    }
  }

  lemma {:induction false} ScheduleVisited(nodes: Store, nodes': Store, p: seq<nat>, k: nat, vs: Views, env: Env)
    requires Traced(nodes, nodes', p, 0, Execute, WorldOf(vs)) && k < |p|
    requires OneBlock(vs, env) && SoundSchedules(nodes) && QueriesSucceed(nodes, vs)
    requires p[k] in nodes && nodes[p[k]].op.Schedule?
    ensures nodes[p[k]].Condition? && ScheduleOutcome(nodes, nodes', p, k, vs, env)
  {
    assert FollowsAt(nodes, p, k, Execute, WorldOf(vs));
    var n := nodes[p[k]];
    assert SoundSchedule(n) && AnswersSchedule(n.op.schedule, vs);
    ScheduleNodeVisit(n, k, vs);
    VisitCommits(n.op.schedule, k, vs, env);
  }

  /** Visits never turn a schedule into something else, nor something else into a schedule. */
  lemma {:induction false} SettledKind(n: Node, k: nat, mode: Mode, vs: Views)
    requires Settled(n, k, mode, WorldOf(vs)).Ok?
    ensures Settled(n, k, mode, WorldOf(vs)).value.op.Schedule? <==> n.op.Schedule?
  {
  }

  // ---- Schedules over many runs ----

  datatype Execution = Execution(mode: Mode, views: Views, env: Env)

  /** A run that reverts leaves storage as it was. */
  ghost function RunOnce(nodes: Store, e: Execution): (r: Store)
    requires WellFormed(nodes)
    ensures WellFormed(r) && Shape(r) == Shape(nodes)
  {
    var r := Run(nodes, [], e.mode, WorldOf(e.views));
    if r.Ok? then
      RunIsTraced(nodes, [], e.mode, WorldOf(e.views));
      r.value.nodes
    else nodes
  }

  /** The run visits schedule node `i` and takes its success side. */
  ghost predicate Succeeds(nodes: Store, e: Execution, i: nat)
    requires WellFormed(nodes)
  {
    var r := Run(nodes, [], e.mode, WorldOf(e.views));
    e.mode.Execute? && r.Ok? && i in nodes && nodes[i].op.Schedule? &&
    exists k :: 0 <= k < |r.value.path| && r.value.path[k] == i && SucceedsAt(nodes[i].op.schedule, k, e.views)
  }

  predicate SucceedsAt(s: Schedules.Schedule, k: nat, vs: Views) {
    VisitSchedule(s, k, vs).Ok? && VisitSchedule(s, k, vs).value.success
  }

  /** A run as a step that counts when schedule node `i` takes its success side. */
  ghost function RunStep(i: nat): (Store, Execution) -> Outcome<(Store, bool)> {
    (nodes: Store, e: Execution) => if WellFormed(nodes) then Ok((RunOnce(nodes, e), Succeeds(nodes, e, i))) else Panic
  }

  ghost predicate AgedBy(n: Node, n': Node, count: nat) {
    SoundSchedule(n) && n'.op.Schedule? && SameEdges(n, n') && Schedules.Aged(n.op.schedule, n'.op.schedule, count)
  }

  ghost predicate GoodExecution(nodes: Store, e: Execution) {
    OneBlock(e.views, e.env) && QueriesSucceed(nodes, e.views)
  }

  lemma {:induction false} AnswersAgain(s: Schedules.Schedule, s': Schedules.Schedule, vs: Views)
    requires Schedules.SameTerms(s, s') && AnswersSchedule(s, vs)
    ensures AnswersSchedule(s', vs)
  {
    forall k ensures Schedules.GoodView(s', ScheduleView(vs.before(k))) {
      assert Schedules.GoodView(s, ScheduleView(vs.before(k)));
    }
  }

  /** One more run ages a schedule node by one if it succeeds in it, and otherwise not at all. */
  lemma {:induction false} RunAges(nodes: Store, e: Execution, i: nat, n: Node, count: nat)
    requires WellFormed(nodes) && SoundSchedules(nodes) && i in nodes && AgedBy(n, nodes[i], count)
    requires GoodExecution(nodes, e)
    ensures i in RunOnce(nodes, e) &&
        AgedBy(n, RunOnce(nodes, e)[i], if Succeeds(nodes, e, i) then count + 1 else count)
  {
    if !Run(nodes, [], e.mode, WorldOf(e.views)).Ok? {
      assert RunOnce(nodes, e) == nodes;
    } else {
      match e.mode
      case Execute => ExecuteAges(nodes, e, i, n, count);
      case Cancel => CancelAges(nodes, e, i, n, count);
    }
  }

  lemma {:induction false} CancelAges(nodes: Store, e: Execution, i: nat, n: Node, count: nat)
    requires WellFormed(nodes) && i in nodes && AgedBy(n, nodes[i], count)
    requires e.mode.Cancel? && Run(nodes, [], Cancel, WorldOf(e.views)).Ok?
    ensures i in RunOnce(nodes, e) && AgedBy(n, RunOnce(nodes, e)[i], count) && !Succeeds(nodes, e, i)
  {
    CancelKeepsSchedules(nodes, e.views);
  }

  /** In an execute run a schedule node is visited once, and that visit decides whether it succeeds, or not at all. */
  lemma {:induction false} ScheduleInRun(nodes: Store, e: Execution, i: nat) returns (visit: Option<nat>)
    requires WellFormed(nodes) && SoundSchedules(nodes) && i in nodes && nodes[i].op.Schedule?
    requires GoodExecution(nodes, e) && e.mode.Execute? && Run(nodes, [], Execute, WorldOf(e.views)).Ok?
    ensures var Ran(nodes', p, _) := Run(nodes, [], Execute, WorldOf(e.views)).value;
      && i in nodes' && nodes[i].Condition?
      && (visit.None? ==> nodes'[i] == nodes[i] && !Succeeds(nodes, e, i))
      && (visit.Some? ==>
            && visit.value < |p| && p[visit.value] == i
            && ScheduleOutcome(nodes, nodes', p, visit.value, e.views, e.env)
            && (Succeeds(nodes, e, i) <==> SucceedsAt(nodes[i].op.schedule, visit.value, e.views)))
  {
    ScheduleRun(nodes, [], e.views, e.env);
    var p := Run(nodes, [], Execute, WorldOf(e.views)).value.path;
    visit := None;
    assert SoundSchedule(nodes[i]);
    if i in p {
      var k :| 0 <= k < |p| && p[k] == i;
      visit := Some(k);
      OnlyVisit(nodes, p, k, i, e.views);
    }
  }

  lemma {:induction false} ExecuteAges(nodes: Store, e: Execution, i: nat, n: Node, count: nat)
    requires WellFormed(nodes) && SoundSchedules(nodes) && i in nodes && AgedBy(n, nodes[i], count)
    requires GoodExecution(nodes, e) && e.mode.Execute? && Run(nodes, [], Execute, WorldOf(e.views)).Ok?
    ensures var nodes' := Run(nodes, [], Execute, WorldOf(e.views)).value.nodes;
      i in nodes' && AgedBy(n, nodes'[i], if Succeeds(nodes, e, i) then count + 1 else count)
  {
    var visit := ScheduleInRun(nodes, e, i);
    if visit.Some? {
      AgeOnce(n, nodes[i], count, visit.value, e.views, e.env);
    }
  }

  lemma {:induction false} OnlyVisit(nodes: Store, p: seq<nat>, k: nat, i: nat, vs: Views)
    requires WellFormed(nodes) && i in nodes && nodes[i].op.Schedule?
    requires Run(nodes, [], Execute, WorldOf(vs)).Ok? && p == Run(nodes, [], Execute, WorldOf(vs)).value.path
    requires k < |p| && p[k] == i
    ensures forall j :: 0 <= j < |p| && p[j] == i ==> j == k
  {
    ExecuteRunIsPath(nodes, [], WorldOf(vs));
  }

  lemma {:induction false} AgeOnce(n: Node, now: Node, count: nat, k: nat, vs: Views, env: Env)
    requires AgedBy(n, now, count) && OneBlock(vs, env) && AnswersSchedule(now.op.schedule, vs)
    requires VisitSchedule(now.op.schedule, k, vs).Ok?
    ensures var v := VisitSchedule(now.op.schedule, k, vs).value;
      AgedBy(n, WithOp(now, Schedule(v.schedule)), if v.success then count + 1 else count)
  {
    var s := n.op.schedule;
    var view := ScheduleView(vs.before(k));
    assert Schedules.GoodView(now.op.schedule, view);
    assert Schedules.GoodView(s, view);
    Schedules.VisitAges(s, now.op.schedule, count, view);
  }

  /** A cancel run leaves every schedule node as it was. */
  lemma {:induction false} CancelKeepsSchedules(nodes: Store, vs: Views)
    requires WellFormed(nodes) && Run(nodes, [], Cancel, WorldOf(vs)).Ok?
    ensures var nodes' := Run(nodes, [], Cancel, WorldOf(vs)).value.nodes;
      nodes'.Keys == nodes.Keys && forall i :: i in nodes && !nodes[i].op.LimitOrder? ==> nodes'[i] == nodes[i]
  {
    var w := WorldOf(vs);
    RunIsTraced(nodes, [], Cancel, w);
    var Ran(nodes', p, _) := Run(nodes, [], Cancel, w).value;
    forall i | i in nodes && !nodes[i].op.LimitOrder? ensures nodes'[i] == nodes[i] {
      if nodes'[i] != nodes[i] {
        var k :| 0 <= k < |p| && p[k] == i;
        assert Settled(nodes[p[k]], k, Cancel, w) == Ok(nodes'[p[k]]);
        CancelSettles(nodes[i], k, vs);
      }
    }
  }

  lemma {:induction false} CancelSettles(n: Node, k: nat, vs: Views)
    requires !n.op.LimitOrder?
    ensures Settled(n, k, Cancel, WorldOf(vs)) == Ok(n)
  {
    assert WithOp(n, n.op) == n;
  }

  /** The same schedule nodes, on the same terms, with nothing staged. */
  ghost predicate KeptTerms(nodes: Store, nodes': Store) {
    && nodes'.Keys == nodes.Keys && SoundSchedules(nodes')
    && forall i :: i in nodes ==> KeptTerm(nodes[i], nodes'[i])
  }

  predicate KeptTerm(n: Node, n': Node) {
    && (n'.op.Schedule? <==> n.op.Schedule?)
    && (n.op.Schedule? ==> Schedules.SameTerms(n.op.schedule, n'.op.schedule))
  }

  lemma {:induction false} KeptAnswers(nodes: Store, nodes': Store, e: Execution)
    requires KeptTerms(nodes, nodes') && GoodExecution(nodes, e)
    ensures GoodExecution(nodes', e)
  {
    forall i | i in nodes' && nodes'[i].op.Schedule? ensures AnswersSchedule(nodes'[i].op.schedule, e.views) {
      assert KeptTerm(nodes[i], nodes'[i]);
      AnswersAgain(nodes[i].op.schedule, nodes'[i].op.schedule, e.views);
    }
  }

  lemma {:induction false} RunKeepsTerms(nodes: Store, e: Execution)
    requires WellFormed(nodes) && SoundSchedules(nodes) && GoodExecution(nodes, e)
    ensures KeptTerms(nodes, RunOnce(nodes, e))
  {
    if !Run(nodes, [], e.mode, WorldOf(e.views)).Ok? {
      KeptReflexive(nodes);
    } else {
      match e.mode
      case Execute => ExecuteKeepsTerms(nodes, e);
      case Cancel => CancelKeepsTerms(nodes, e);
    }
  }

  lemma {:induction false} KeptReflexive(nodes: Store)
    requires SoundSchedules(nodes)
    ensures KeptTerms(nodes, nodes)
  {
  }

  lemma {:induction false} ExecuteKeepsTerms(nodes: Store, e: Execution)
    requires WellFormed(nodes) && SoundSchedules(nodes) && GoodExecution(nodes, e)
    requires Run(nodes, [], Execute, WorldOf(e.views)).Ok?
    ensures KeptTerms(nodes, Run(nodes, [], Execute, WorldOf(e.views)).value.nodes)
  {
    RunIsTraced(nodes, [], Execute, WorldOf(e.views));
    ScheduleRun(nodes, [], e.views, e.env);
    var Ran(nodes', p, _) := Run(nodes, [], Execute, WorldOf(e.views)).value;
    RanKeepsTerms(nodes, nodes', p, e.views, e.env);
  }

  lemma {:induction false} RanKeepsTerms(nodes: Store, nodes': Store, p: seq<nat>, vs: Views, env: Env)
    requires Settles(nodes, nodes', p, 0, Execute, WorldOf(vs)) && SoundSchedules(nodes)
    requires SchedulesRan(nodes, nodes', p, vs, env)
    ensures KeptTerms(nodes, nodes')
  {
    forall i | i in nodes ensures KeptTerm(nodes[i], nodes'[i]) {
      if i in p {
        var k :| 0 <= k < |p| && p[k] == i;
        VisitKeepsTerm(nodes, nodes', p, k, vs, env);
      }
    }
  }

  lemma {:induction false} CancelKeepsTerms(nodes: Store, e: Execution)
    requires WellFormed(nodes) && SoundSchedules(nodes)
    requires Run(nodes, [], Cancel, WorldOf(e.views)).Ok?
    ensures KeptTerms(nodes, Run(nodes, [], Cancel, WorldOf(e.views)).value.nodes)
  {
    RunIsTraced(nodes, [], Cancel, WorldOf(e.views));
    CancelKeepsSchedules(nodes, e.views);
    var Ran(nodes', p, _) := Run(nodes, [], Cancel, WorldOf(e.views)).value;
    SweptKeepsTerms(nodes, nodes', p, e.views);
  }

  lemma {:induction false} SweptKeepsTerms(nodes: Store, nodes': Store, p: seq<nat>, vs: Views)
    requires Settles(nodes, nodes', p, 0, Cancel, WorldOf(vs)) && SoundSchedules(nodes)
    requires forall i :: i in nodes && !nodes[i].op.LimitOrder? ==> nodes'[i] == nodes[i]
    ensures KeptTerms(nodes, nodes')
  {
    forall i | i in nodes ensures KeptTerm(nodes[i], nodes'[i]) {
      KindKept(nodes, nodes', p, i, Cancel, vs);
    }
  }

  lemma {:induction false} KindKept(nodes: Store, nodes': Store, p: seq<nat>, i: nat, mode: Mode, vs: Views)
    requires Settles(nodes, nodes', p, 0, mode, WorldOf(vs)) && i in nodes
    ensures nodes'[i].op.Schedule? <==> nodes[i].op.Schedule?
  {
    if nodes'[i] != nodes[i] {
      var k :| 0 <= k < |p| && p[k] == i;
      assert Settled(nodes[p[k]], k, mode, WorldOf(vs)) == Ok(nodes'[p[k]]);
      SettledKind(nodes[i], k, mode, vs);
    }
  }

  lemma {:induction false} VisitKeepsTerm(nodes: Store, nodes': Store, p: seq<nat>, k: nat, vs: Views, env: Env)
    requires k < |p| && p[k] in nodes && Settles(nodes, nodes', p, 0, Execute, WorldOf(vs)) && SoundSchedules(nodes)
    requires nodes[p[k]].op.Schedule? ==> ScheduleOutcome(nodes, nodes', p, k, vs, env)
    ensures KeptTerm(nodes[p[k]], nodes'[p[k]])
  {
    KindKept(nodes, nodes', p, p[k], Execute, vs);
    if nodes[p[k]].op.Schedule? {
      var s := nodes[p[k]].op.schedule;
      if s.cadence.Crank(env).Ok? {
        Schedules.CrankSameInterval(s.cadence, env);
      }
    }
  }

  lemma {:induction false} KeptTransitive(a: Store, b: Store, c: Store)
    requires KeptTerms(a, b) && KeptTerms(b, c)
    ensures KeptTerms(a, c)
  {
    forall i | i in a ensures KeptTerm(a[i], c[i]) {
      assert KeptTerm(a[i], b[i]) && KeptTerm(b[i], c[i]);
    }
  }

  /** What holds of the store, and of the successes of schedule node `i`, throughout the life of a list. */
  ghost predicate Lived(nodes: Store, i: nat, nodes': Store, count: nat)
    requires i in nodes
  {
    WellFormed(nodes') && KeptTerms(nodes, nodes') && AgedBy(nodes[i], nodes'[i], count)
  }

  lemma {:induction false} RunLives(nodes: Store, i: nat, mid: Store, count: nat, e: Execution)
    requires i in nodes && Lived(nodes, i, mid, count) && GoodExecution(nodes, e)
    ensures Lived(nodes, i, RunOnce(mid, e), if Succeeds(mid, e, i) then count + 1 else count)
  {
    KeptAnswers(nodes, mid, e);
    RunKeepsTerms(mid, e);
    KeptTransitive(nodes, mid, RunOnce(mid, e));
    RunAges(mid, e, i, nodes[i], count);
  }

  lemma {:induction false} JustInitialised(nodes: Store, i: nat)
    requires WellFormed(nodes) && SoundSchedules(nodes) && i in nodes && nodes[i].op.Schedule?
    ensures Lived(nodes, i, nodes, 0)
  {
    KeptReflexive(nodes);
  }

  lemma {:induction false} StoresStayWellFormed(nodes: Store, i: nat, es: seq<Execution>)
    requires WellFormed(nodes)
    ensures Repeat(RunStep(i), nodes, es).Ok? && WellFormed(Repeat(RunStep(i), nodes, es).value.0)
  {
    if es != [] {
      StoresStayWellFormed(nodes, i, es[..|es| - 1]);
    }
  }

  /**
   * Over any sequence of runs of one list, execute and cancel mixed and reverted ones included: nothing is left
   * staged between transactions, and each schedule node counts in `executions` exactly the runs that took its
   * success side, never more than its limit allows.
   */
  lemma {:induction false} ExecutionsCountSuccesses(nodes: Store, es: seq<Execution>, i: nat)
    requires WellFormed(nodes) && SoundSchedules(nodes) && i in nodes && nodes[i].op.Schedule?
    requires forall j :: 0 <= j < |es| ==> GoodExecution(nodes, es[j])
    ensures Repeat(RunStep(i), nodes, es).Ok?
    ensures var (nodes', count) := Repeat(RunStep(i), nodes, es).value; Lived(nodes, i, nodes', count)
  {
    StoresStayWellFormed(nodes, i, es);
    JustInitialised(nodes, i);
    var inv := (nodes': Store, count: nat) => Lived(nodes, i, nodes', count);
    forall j, mid, count | 0 <= j < |es| ensures StepKeeps(RunStep(i), es[j], inv, mid, count) {
      if Lived(nodes, i, mid, count) {
        RunLives(nodes, i, mid, count, es[j]);
      }
    }
    RepeatKeeps(RunStep(i), nodes, es, inv);
  }

  // ---- How often schedules fire ----

  /** A success leaves the cadence cranked from being due; a run without one leaves it as it was. */
  lemma {:induction false} CadenceMoves(nodes: Store, e: Execution, i: nat)
    requires WellFormed(nodes) && SoundSchedules(nodes) && i in nodes && nodes[i].op.Schedule?
    requires GoodExecution(nodes, e)
    ensures i in RunOnce(nodes, e) && RunOnce(nodes, e)[i].op.Schedule?
    ensures var c, c' := nodes[i].op.schedule.cadence, RunOnce(nodes, e)[i].op.schedule.cadence;
      if Succeeds(nodes, e, i) then c.IsDue(e.env) == Ok(true) && c.Crank(e.env) == Ok(c') else c' == c
  {
    if Run(nodes, [], e.mode, WorldOf(e.views)).Ok? {
      match e.mode
      case Cancel => CancelKeepsSchedules(nodes, e.views);
      case Execute => ExecuteMoves(nodes, e, i);
    }
  }

  lemma {:induction false} ExecuteMoves(nodes: Store, e: Execution, i: nat)
    requires WellFormed(nodes) && SoundSchedules(nodes) && i in nodes && nodes[i].op.Schedule?
    requires GoodExecution(nodes, e) && e.mode.Execute? && Run(nodes, [], Execute, WorldOf(e.views)).Ok?
    ensures i in RunOnce(nodes, e) && RunOnce(nodes, e)[i].op.Schedule?
    ensures var c, c' := nodes[i].op.schedule.cadence, RunOnce(nodes, e)[i].op.schedule.cadence;
      if Succeeds(nodes, e, i) then c.IsDue(e.env) == Ok(true) && c.Crank(e.env) == Ok(c') else c' == c
  {
    var visit := ScheduleInRun(nodes, e, i);
  }

  /** A schedule node whose block or time cadence has fired before. */
  predicate SteadyNode(nodes: Store, i: nat) {
    i in nodes && nodes[i].op.Schedule? && Steady(nodes[i].op.schedule.cadence)
  }

  /** `nodes'` after `count` successes of node `i`, none of them later than `end`. */
  ghost predicate FiresOnTime(nodes: Store, i: nat, nodes': Store, count: nat, end: Env)
    requires SteadyNode(nodes, i)
  {
    && Lived(nodes, i, nodes', count)
    && var c, c' := nodes[i].op.schedule.cadence, nodes'[i].op.schedule.cadence;
    && Advanced(c, c', count)
    && (count > 0 ==> Last(c') <= Now(c, end))
  }

  ghost predicate Before(e: Execution, end: Env) {
    e.env.Valid() && e.env.height <= end.height && e.env.time <= end.time
  }

  lemma {:induction false} RunOnTime(nodes: Store, i: nat, mid: Store, count: nat, e: Execution, end: Env)
    requires SteadyNode(nodes, i) && FiresOnTime(nodes, i, mid, count, end) && GoodExecution(nodes, e) && Before(e, end)
    ensures FiresOnTime(nodes, i, RunOnce(mid, e), if Succeeds(mid, e, i) then count + 1 else count, end)
  {
    RunLives(nodes, i, mid, count, e);
    KeptAnswers(nodes, mid, e);
    CadenceMoves(mid, e, i);
    if Succeeds(mid, e, i) {
      AdvancedAgain(nodes[i].op.schedule.cadence, mid[i].op.schedule.cadence, count, e.env, end);
    }
  }

  lemma {:induction false} StartsOnTime(nodes: Store, i: nat, end: Env)
    requires WellFormed(nodes) && SoundSchedules(nodes) && SteadyNode(nodes, i)
    ensures FiresOnTime(nodes, i, nodes, 0, end)
  {
    JustInitialised(nodes, i);
    NotYet(nodes[i].op.schedule.cadence);
  }

  lemma {:induction false} RunsOnTime(nodes: Store, es: seq<Execution>, i: nat, end: Env)
    requires WellFormed(nodes) && SoundSchedules(nodes) && SteadyNode(nodes, i)
    requires forall j :: 0 <= j < |es| ==> GoodExecution(nodes, es[j]) && Before(es[j], end)
    ensures Repeat(RunStep(i), nodes, es).Ok?
    ensures FiresOnTime(nodes, i, Repeat(RunStep(i), nodes, es).value.0, Repeat(RunStep(i), nodes, es).value.1, end)
  {
    StoresStayWellFormed(nodes, i, es);
    StartsOnTime(nodes, i, end);
    var inv := (nodes': Store, count: nat) => FiresOnTime(nodes, i, nodes', count, end);
    forall j, mid, count | 0 <= j < |es| ensures StepKeeps(RunStep(i), es[j], inv, mid, count) {
      if inv(mid, count) {
        RunOnTime(nodes, i, mid, count, es[j], end);
      }
    }
    RepeatKeeps(RunStep(i), nodes, es, inv);
  }

  /**
   * Over any sequence of runs up to `end`, in whatever order: a schedule that has fired before keeps its phase, and
   * takes its success side at most once per period, (now - start) / period times in all.
   */
  lemma {:induction false} SuccessRate(nodes: Store, es: seq<Execution>, i: nat, end: Env)
    requires WellFormed(nodes) && SoundSchedules(nodes) && SteadyNode(nodes, i)
    requires forall j :: 0 <= j < |es| ==> GoodExecution(nodes, es[j]) && Before(es[j], end)
    ensures Repeat(RunStep(i), nodes, es).Ok?
    ensures var (nodes', count) := Repeat(RunStep(i), nodes, es).value;
      FiresOnTime(nodes, i, nodes', count, end) && WithinRate(nodes[i].op.schedule.cadence, count, end)
  {
    RunsOnTime(nodes, es, i, end);
    var (nodes', count) := Repeat(RunStep(i), nodes, es).value;
    RateBound(nodes[i].op.schedule.cadence, nodes'[i].op.schedule.cadence, count, end);
  }

  // ---- A trigger keeps its promise ----

  /** The schedule of node `i` as a run left it, and the trigger that its visit in the run emitted. */
  ghost predicate Armed(nodes: Store, e: Execution, i: nat, k: nat, condition: TriggerCondition)
    requires WellFormed(nodes)
  {
    var r := Run(nodes, [], Execute, WorldOf(e.views));
    && e.mode.Execute? && r.Ok? && k < |r.value.path| && r.value.path[k] == i
    && i in nodes && nodes[i].op.Schedule?
    && var emitted := EmittedAt(nodes, r.value.path, k, Execute, WorldOf(e.views));
    && emitted != [] && emitted[0].CreateTrigger? && emitted[0].condition == condition
  }

  lemma {:induction false} ArmedIsDue(nodes: Store, e: Execution, i: nat, k: nat, condition: TriggerCondition,
                                      later: Env)
    requires WellFormed(nodes) && SoundSchedules(nodes) && GoodExecution(nodes, e) && Armed(nodes, e, i, k, condition)
    requires !nodes[i].op.schedule.cadence.Cron? && condition.IsSatisfied(later)
    ensures i in RunOnce(nodes, e) && RunOnce(nodes, e)[i].op.Schedule?
    ensures RunOnce(nodes, e)[i].op.schedule.cadence.IsDue(later) == Ok(true)
  {
    ScheduleRun(nodes, [], e.views, e.env);
    var Ran(nodes', p, _) := Run(nodes, [], Execute, WorldOf(e.views)).value;
    assert ScheduleOutcome(nodes, nodes', p, k, e.views, e.env);
    ArmedVisit(nodes[i], k, e.views, e.env, later);
  }

  lemma {:induction false} ArmedVisit(n: Node, k: nat, vs: Views, env: Env, later: Env)
    requires n.op.Schedule? && n.op.schedule.next.None? && !n.op.schedule.cadence.Cron? && OneBlock(vs, env)
    requires VisitSchedule(n.op.schedule, k, vs).Ok? && Visit(n, k, Execute, WorldOf(vs)).Ok?
    requires var ms := Visit(n, k, Execute, WorldOf(vs)).value.messages;
      ms != [] && ms[0].CreateTrigger? && ms[0].condition.IsSatisfied(later)
    ensures VisitSchedule(n.op.schedule, k, vs).value.schedule.cadence.IsDue(later) == Ok(true)
  {
    Schedules.TriggerFiresWhenDue(n.op.schedule, ScheduleView(vs.before(k)), later);
  }

  /**
   * When a run in a block that satisfies a schedule's last trigger visits the schedule again, and the schedule is
   * within its limit, it takes the success side, and cranks and counts.
   */
  lemma {:induction false} TriggerKeepsItsPromise(nodes: Store, e: Execution, e': Execution, i: nat, k: nat, k': nat,
                                                  condition: TriggerCondition)
    requires WellFormed(nodes) && SoundSchedules(nodes) && GoodExecution(nodes, e) && GoodExecution(nodes, e')
    requires Armed(nodes, e, i, k, condition) && !nodes[i].op.schedule.cadence.Cron?
    requires condition.IsSatisfied(e'.env) && e'.mode.Execute?
    requires var r := Run(RunOnce(nodes, e), [], Execute, WorldOf(e'.views));
      r.Ok? && k' < |r.value.path| && r.value.path[k'] == i
    ensures var nodes' := RunOnce(nodes, e);
      var Ran(nodes'', p, _) := Run(nodes', [], Execute, WorldOf(e'.views)).value;
      && i in nodes' && nodes'[i].op.Schedule? && nodes'[i].Condition? && i in nodes'' && nodes''[i].op.Schedule?
      && var s := nodes'[i].op.schedule;
      (Schedules.WithinMax(s) ==>
         && After(p, k') == Present(nodes', nodes'[i].onSuccess)
         && s.cadence.Crank(e'.env).Ok?
         && nodes''[i].op.schedule == Schedules.Committed(s, s.cadence.Crank(e'.env).value))
  {
    ArmedIsDue(nodes, e, i, k, condition, e'.env);
    var nodes' := RunOnce(nodes, e);
    RunKeepsTerms(nodes, e);
    KeptAnswers(nodes, nodes', e');
    ScheduleRun(nodes', [], e'.views, e'.env);
    var Ran(nodes'', p, _) := Run(nodes', [], Execute, WorldOf(e'.views)).value;
    assert ScheduleOutcome(nodes', nodes'', p, k', e'.views, e'.env);
  }

  // ---- Swaps, and conditions that only look ----

  /** A swap node emits what the swap answers, nothing if it fails; a condition that only looks, nothing. */
  ghost predicate SwapOrCheckOutcome(nodes: Store, nodes': Store, p: seq<nat>, k: nat, vs: Views)
    requires k < |p| && p[k] in nodes
  {
    var n, ms := nodes[p[k]], EmittedAt(nodes, p, k, Execute, WorldOf(vs));
    && p[k] in nodes' && nodes'[p[k]] == n
    && (n.op.Swap? ==> ms == if vs.swap(k, n.op.routes).Ok? then vs.swap(k, n.op.routes).value else [])
    && (n.op.Check? ==> ms == [])
    && (n.op.Check? && n.Condition? ==>
          GoesAlong(nodes, p, k, if vs.check(k, n.op.large) == Ok(true) then n.onSuccess else n.onFailure))
  }

  /**
   * In every execute run, swaps and conditions that only look stay as they are and emit as said, and such a condition
   * takes its success side exactly when it holds.
   */
  lemma {:induction false} SwapOrCheckRun(nodes: Store, path: seq<nat>, vs: Views, k: nat)
    requires WellFormed(nodes) && Run(nodes, path, Execute, WorldOf(vs)).Ok?
    requires var p := Run(nodes, path, Execute, WorldOf(vs)).value.path;
      k < |p| && p[k] in nodes && (nodes[p[k]].op.Swap? || nodes[p[k]].op.Check?)
    ensures var Ran(nodes', p, _) := Run(nodes, path, Execute, WorldOf(vs)).value;
      SwapOrCheckOutcome(nodes, nodes', p, k, vs)
  {
    ExecuteRunFollowsEdges(nodes, path, WorldOf(vs));
    var Ran(nodes', p, _) := Run(nodes, path, Execute, WorldOf(vs)).value;
    SwapOrCheckVisited(nodes, nodes', p, k, vs);
  }

  lemma {:induction false} SwapOrCheckVisited(nodes: Store, nodes': Store, p: seq<nat>, k: nat, vs: Views)
    requires k < |p| && p[k] in nodes && (nodes[p[k]].op.Swap? || nodes[p[k]].op.Check?)
    requires Executed(nodes, nodes', p, k, WorldOf(vs))
    ensures SwapOrCheckOutcome(nodes, nodes', p, k, vs)
  {
    var n := nodes[p[k]];
    assert n.(op := n.op) == n;
    assert SavedOp(n, k, WorldOf(vs)) == n.op;
  }

  // ---- Distributions ----

  lemma {:induction false} CoinsAddUp(coins: seq<Coin>, d: Denom)
    ensures AmountOf(AddAll(map[], coins), d) == Records.CoinTotal(coins, d)
  {
    if coins != [] {
      var rest, last := coins[..|coins| - 1], coins[|coins| - 1];
      CoinsAddUp(rest, d);
      AddAmount(AddAll(map[], rest), last.denom, last.amount, d);
    }
  }

  lemma {:induction false} SendsPay(ps: seq<Distributions.Payment>, d: Denom)
    ensures Sent(Sends(ps), d) == Distributions.Paid(ps, d)
  {
    if ps != [] {
      var rest, last := ps[..|ps| - 1], ps[|ps| - 1];
      SendsPay(rest, d);
      CoinsAddUp(last.coins, d);
      assert Sends(ps)[..|ps| - 1] == Sends(rest);
    }
  }

  /** A distribution that can be served, whose balance queries answer with a value or an error. */
  ghost predicate Distributes(n: Node, k: nat, vs: Views) {
    n.op.Distribute? && Payouts.Serviceable(n.op.distribution) && Payouts.QueriesAnswer(vs.before(k).balance)
  }

  lemma {:induction false} DistributionVisit(n: Node, k: nat, vs: Views)
    requires Distributes(n, k, vs) && Settled(n, k, Execute, WorldOf(vs)).Ok?
    ensures var d, balance := n.op.distribution, vs.before(k).balance;
      var r := Distributions.Execute(d, balance);
      && !r.Panic?
      && Visit(n, k, Execute, WorldOf(vs)).Ok?
      && Visit(n, k, Execute, WorldOf(vs)).value.messages == (if r.Ok? then Sends(r.value.0) else [])
      && Settled(n, k, Execute, WorldOf(vs)) == Ok(WithOp(n, Distribute(if r.Ok? then r.value.1 else d)))
  {
    Payouts.ServiceableExecutes(n.op.distribution, vs.before(k).balance);
  }

  lemma {:induction false} VisitPays(n: Node, k: nat, vs: Views, denom: Denom)
    requires Distributes(n, k, vs) && Settled(n, k, Execute, WorldOf(vs)).Ok?
    ensures var d, n' := n.op.distribution, Settled(n, k, Execute, WorldOf(vs)).value;
      && Visit(n, k, Execute, WorldOf(vs)).Ok?
      && Sent(Visit(n, k, Execute, WorldOf(vs)).value.messages, denom) ==
         Payouts.Spendable(d.denoms, vs.before(k).balance, denom)
      && n'.op.Distribute? && n'.op.distribution.denoms == d.denoms && Payouts.Serviceable(n'.op.distribution)
  {
    var d, balance := n.op.distribution, vs.before(k).balance;
    DistributionVisit(n, k, vs);
    Payouts.ServiceableExecutes(d, balance);
    if Distributions.Execute(d, balance).Ok? {
      Payouts.ServiceablePays(d, balance, denom);
      SendsPay(Distributions.Execute(d, balance).value.0, denom);
    } else {
      Payouts.NothingSpendable(d.denoms, balance, denom);
    }
  }

  /**
   * In every execute run, a distribution node that is serviceable sends, at its visit, exactly the balances it can
   * query, and it is still serviceable when the run is over.
   */
  lemma {:induction false} DistributionRun(nodes: Store, path: seq<nat>, vs: Views, k: nat, denom: Denom)
    requires WellFormed(nodes) && Run(nodes, path, Execute, WorldOf(vs)).Ok?
    requires var p := Run(nodes, path, Execute, WorldOf(vs)).value.path;
      k < |p| && p[k] in nodes && Distributes(nodes[p[k]], k, vs)
    ensures var Ran(nodes', p, log) := Run(nodes, path, Execute, WorldOf(vs)).value;
      var d := nodes[p[k]].op.distribution;
      && log == Emissions(nodes, p, 0, Execute, WorldOf(vs))
      && Sent(EmittedAt(nodes, p, k, Execute, WorldOf(vs)), denom) ==
         Payouts.Spendable(d.denoms, vs.before(k).balance, denom)
      && p[k] in nodes' && nodes'[p[k]].op.Distribute?
      && nodes'[p[k]].op.distribution.denoms == d.denoms
      && Payouts.Serviceable(nodes'[p[k]].op.distribution)
  {
    RunIsTraced(nodes, path, Execute, WorldOf(vs));
    var Ran(nodes', p, _) := Run(nodes, path, Execute, WorldOf(vs)).value;
    assert Settled(nodes[p[k]], k, Execute, WorldOf(vs)) == Ok(nodes'[p[k]]);
    VisitPays(nodes[p[k]], k, vs, denom);
  }

  /** The messages carry the payments, in order: to each recipient's address, or under its memo. */
  ghost predicate Carries(ms: seq<Message>, ps: seq<Distributions.Payment>) {
    && |ms| == |ps|
    && (forall j :: 0 <= j < |ms| ==> ms[j].Send? && IsFor(ms[j].recipient, ps[j].recipient))
    && forall j, denom :: 0 <= j < |ms| && ms[j].Send? ==>
         AmountOf(ms[j].coins, denom) == Records.CoinTotal(ps[j].coins, denom)
  }

  predicate IsFor(key: string, r: Distributions.Recipient) {
    match r
    case Bank(address) => key == address
    case Contract(address, _) => key == address
    case Deposit(memo) => key == memo
  }

  lemma {:induction false} SendsCarry(ps: seq<Distributions.Payment>)
    ensures Carries(Sends(ps), ps)
  {
    forall j, denom | 0 <= j < |ps|
      ensures AmountOf(Sends(ps)[j].coins, denom) == Records.CoinTotal(ps[j].coins, denom)
    {
      CoinsAddUp(ps[j].coins, denom);
    }
  }

  /** Every balance can be queried, and at least one of them is not zero. */
  ghost predicate Divides(d: Distributions.Distribution, balance: Denom -> Outcome<nat>) {
    (forall x :: x in d.denoms ==> balance(x).Ok?) && exists x :: x in d.denoms && balance(x).value > 0
  }

  /** Messages `ms` share the balances out among the destinations, and leave the action as `d'`. */
  ghost predicate Shares(d: Distributions.Distribution, balance: Denom -> Outcome<nat>, ms: seq<Message>,
                         d': Distributions.Distribution, ps: seq<Distributions.Payment>, rs: seq<nat>)
  {
    Distributions.SharedOut(d, balance, ps, d', rs) && Carries(ms, ps)
  }

  lemma {:induction false} DividesBalances(d: Distributions.Distribution, balance: Denom -> Outcome<nat>)
    requires Distributions.NoDuplicates(d.denoms) && Payouts.QueriesAnswer(balance)
    ensures var bs := Distributions.Balances(d.denoms, balance);
      Divides(d, balance) <==> bs.Ok? && bs.value != []
  {
    Payouts.BalancesAnswer(d.denoms, balance);
    var bs := Distributions.Balances(d.denoms, balance);
    if bs.Ok? {
      Distributions.BalancesAre(d.denoms, balance);
      if bs.value != [] {
        assert bs.value[0].denom in d.denoms;
      }
      if x :| x in d.denoms && balance(x).value > 0 {
        Distributions.BalanceListed(d.denoms, balance, x);
      }
    }
  }

  lemma {:induction false} VisitShares(n: Node, k: nat, vs: Views)
    returns (ps: seq<Distributions.Payment>, rs: seq<nat>)
    requires Distributes(n, k, vs) && Settled(n, k, Execute, WorldOf(vs)).Ok?
    ensures var d, n', balance := n.op.distribution, Settled(n, k, Execute, WorldOf(vs)).value, vs.before(k).balance;
      && Visit(n, k, Execute, WorldOf(vs)).Ok? && n'.op.Distribute?
      && var ms := Visit(n, k, Execute, WorldOf(vs)).value.messages;
      if Divides(d, balance) then Shares(d, balance, ms, n'.op.distribution, ps, rs)
      else ms == [] && n'.op.distribution == d
  {
    var d, balance := n.op.distribution, vs.before(k).balance;
    DistributionVisit(n, k, vs);
    Payouts.ServiceableExecutes(d, balance);
    DividesBalances(d, balance);
    ps, rs := [], [];
    if Divides(d, balance) {
      ps := Distributions.Execute(d, balance).value.0;
      rs := Distributions.ExecuteSharesOut(d, balance);
      SendsCarry(ps);
    }
  }

  /**
   * In every execute run, a serviceable distribution that has something to divide pays each destination its own due,
   * by its own shares, in one message to its own recipient; with nothing to divide it is left as it was, in silence.
   */
  lemma {:induction false} DistributionReaches(nodes: Store, path: seq<nat>, vs: Views, k: nat)
    returns (ps: seq<Distributions.Payment>, rs: seq<nat>)
    requires WellFormed(nodes) && Run(nodes, path, Execute, WorldOf(vs)).Ok?
    requires var p := Run(nodes, path, Execute, WorldOf(vs)).value.path;
      k < |p| && p[k] in nodes && Distributes(nodes[p[k]], k, vs)
    ensures var Ran(nodes', p, _) := Run(nodes, path, Execute, WorldOf(vs)).value;
      var d, balance := nodes[p[k]].op.distribution, vs.before(k).balance;
      var ms := EmittedAt(nodes, p, k, Execute, WorldOf(vs));
      && p[k] in nodes' && nodes'[p[k]].op.Distribute?
      && var d' := nodes'[p[k]].op.distribution;
      if Divides(d, balance) then Shares(d, balance, ms, d', ps, rs) else ms == [] && d' == d
  {
    RunIsTraced(nodes, path, Execute, WorldOf(vs));
    var Ran(nodes', p, _) := Run(nodes, path, Execute, WorldOf(vs)).value;
    assert Settled(nodes[p[k]], k, Execute, WorldOf(vs)) == Ok(nodes'[p[k]]);
    ps, rs := VisitShares(nodes[p[k]], k, vs);
  }

  /** No other destination is reached under the key of destination `i`. */
  ghost predicate OwnKey(ds: seq<Distributions.Destination>, i: nat, key: string)
    requires i < |ds|
  {
    forall j :: 0 <= j < |ds| ==> (IsFor(key, ds[j].recipient) <==> j == i)
  }

  /** A destination with a key of its own is sent what it is paid, and so its due. */
  lemma {:induction false} SentItsDue(d: Distributions.Distribution, balance: Denom -> Outcome<nat>, ms: seq<Message>,
                                      d': Distributions.Distribution, ps: seq<Distributions.Payment>, rs: seq<nat>,
                                      i: nat, key: string, denom: Denom)
    requires Shares(d, balance, ms, d', ps, rs) && i < |d.destinations| && OwnKey(d.destinations, i, key)
    ensures Distributions.DueIn(d, balance, i, denom, SentTo(ms, key, denom))
  {
    forall j | 0 <= j < |rs| ensures rs[j] < |d.destinations| && ps[j].recipient == d.destinations[rs[j]].recipient {
      assert Distributions.BelongsTo(d.destinations[rs[j]], ps[j], d'.destinations[j]);
    }
    SentIsPaid(d.destinations, ms, ps, rs, i, key, denom);
  }

  lemma {:induction false} SentIsPaid(ds: seq<Distributions.Destination>, ms: seq<Message>,
                                      ps: seq<Distributions.Payment>, rs: seq<nat>, i: nat, key: string, denom: Denom)
    requires Carries(ms, ps) && |rs| == |ps| && i < |ds| && OwnKey(ds, i, key) && Distributions.Increasing(rs, |ds|)
    requires forall j :: 0 <= j < |rs| ==> rs[j] < |ds| && ps[j].recipient == ds[rs[j]].recipient
    ensures SentTo(ms, key, denom) == Distributions.PaidTo(ps, rs, i, denom)
  {
    if ms != [] {
      var n := |ms| - 1;
      SentIsPaid(ds, ms[..n], ps[..n], rs[..n], i, key, denom);
      assert IsFor(ms[n].recipient, ps[n].recipient) && ps[n].recipient == ds[rs[n]].recipient;
      assert ms[n].recipient == key <==> rs[n] == i;
      assert AmountOf(ms[n].coins, denom) == Records.CoinTotal(ps[n].coins, denom);
      if rs[n] == i {
        Distributions.PaidToOther(ps[..n], rs[..n], i, denom);
      }
    }
  }
}
