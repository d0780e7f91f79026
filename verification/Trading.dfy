/** Limit orders in runs: what a cancel run withdraws, and one resting order at a time over all runs. */
module Trading {
  import opened Outcomes
  import opened Decimals
  import opened Money
  import opened Graph
  import opened Nodes
  import opened Traversal
  import opened Runs
  import opened Operations
  import LimitOrders

  // ---- Limit orders in a cancel run ----

  /** The order queries of a run may fail but do not abort it. */
  ghost predicate NoPanics(vs: Views) {
    forall k, p: Address, s: Side, x: nat ::
      !vs.before(k).market.order(p, s, x).Panic? && !vs.after(k).market.order(p, s, x).Panic?
  }

  /** The withdraw of a limit order, if it has an order cached that the book still has. */
  function WithdrawOf(op: Operation, v: View): seq<Message> {
    if op.LimitOrder? && op.order.current.Some? then
      var o := op.order;
      var price := o.current.value;
      if v.market.order(o.pair, o.side, price).Ok? then [Order(o.pair, o.side, price, 0, o.denom, 0)] else []
    else []
  }

  function WithdrawAt(nodes: Store, vs: Views, i: nat): seq<Message> {
    if i in nodes then WithdrawOf(nodes[i].op, vs.before(i)) else []
  }

  /** Those of the nodes from `i` on, in index order. */
  function WithdrawsFrom(nodes: Store, vs: Views, i: nat): seq<Message>
    decreases |nodes| - i
  {
    if i >= |nodes| then [] else WithdrawAt(nodes, vs, i) + WithdrawsFrom(nodes, vs, i + 1)
  }

  /** Each visit of a sweep settles its node. */
  ghost predicate Sweeps(nodes: Store, p: seq<nat>, vs: Views) {
    && |p| == |nodes|
    && forall k :: 0 <= k < |p| ==> p[k] == k && k in nodes && Settled(nodes[k], k, Cancel, WorldOf(vs)).Ok?
  }

  lemma {:induction false} SweepEmits(nodes: Store, p: seq<nat>, vs: Views, w: World, i: nat)
    requires |p| == |nodes|
    requires forall k :: 0 <= k < |p| ==> EmittedAt(nodes, p, k, Cancel, w) == WithdrawAt(nodes, vs, k)
    ensures Emissions(nodes, p, i, Cancel, w) == WithdrawsFrom(nodes, vs, i)
    decreases |nodes| - i
  {
    if i < |p| {
      SweepEmits(nodes, p, vs, w, i + 1);
    }
  }

  lemma {:induction false} SweepEmitsAt(nodes: Store, p: seq<nat>, vs: Views, k: nat)
    requires Sweeps(nodes, p, vs) && k < |p|
    ensures EmittedAt(nodes, p, k, Cancel, WorldOf(vs)) == WithdrawAt(nodes, vs, k)
  {
    CancelEmits(nodes[k], k, vs);
  }

  lemma {:induction false} CancelEmits(n: Node, k: nat, vs: Views)
    requires Settled(n, k, Cancel, WorldOf(vs)).Ok?
    ensures Visit(n, k, Cancel, WorldOf(vs)).Ok?
    ensures Visit(n, k, Cancel, WorldOf(vs)).value.messages == WithdrawOf(n.op, vs.before(k))
  {
    if n.op.LimitOrder? && n.op.order.current.Some? {
      CancelOrderSettles(n, k, vs);
    }
  }

  /**
   * A cancel run visits every node whatever fails, and what it emits is the withdraws of the orders the book still
   * has, one each, in index order. Once the book stops answering for an order, it is forgotten.
   */
  lemma {:induction false} CancelRunWithdraws(nodes: Store, path: seq<nat>, vs: Views)
    requires WellFormed(nodes) && Run(nodes, path, Cancel, WorldOf(vs)).Ok?
    ensures var Ran(nodes', p, log) := Run(nodes, path, Cancel, WorldOf(vs)).value;
      && log == WithdrawsFrom(nodes, vs, 0)
      && |p| == |nodes| && nodes'.Keys == nodes.Keys
      && forall i :: i in nodes && nodes[i].op.LimitOrder? && nodes[i].op.order.current.Some? ==>
           nodes'[i] == WithOp(nodes[i], LimitOrder(Remembered(nodes[i].op.order, vs.after(i))))
  {
    SweepSettles(nodes, path, vs);
    var Ran(nodes', p, _) := Run(nodes, path, Cancel, WorldOf(vs)).value;
    forall k | 0 <= k < |p| ensures EmittedAt(nodes, p, k, Cancel, WorldOf(vs)) == WithdrawAt(nodes, vs, k) {
      SweepEmitsAt(nodes, p, vs, k);
    }
    SweepEmits(nodes, p, vs, WorldOf(vs), 0);
    forall i | i in nodes && nodes[i].op.LimitOrder? && nodes[i].op.order.current.Some?
      ensures nodes'[i] == WithOp(nodes[i], LimitOrder(Remembered(nodes[i].op.order, vs.after(i))))
    {
      CancelOrderSettles(nodes[i], i, vs);
    }
  }

  /** A cancel run settles each node at the visit with its own index. */
  lemma {:induction false} SweepSettles(nodes: Store, path: seq<nat>, vs: Views)
    requires WellFormed(nodes) && Run(nodes, path, Cancel, WorldOf(vs)).Ok?
    ensures var Ran(nodes', p, log) := Run(nodes, path, Cancel, WorldOf(vs)).value;
      && |p| == |nodes| && nodes'.Keys == nodes.Keys && log == Emissions(nodes, p, 0, Cancel, WorldOf(vs))
      && Sweeps(nodes, p, vs)
      && (forall i :: i in nodes ==> Settled(nodes[i], i, Cancel, WorldOf(vs)) == Ok(nodes'[i]))
  {
    var w := WorldOf(vs);
    CancelRunSweeps(nodes, path, w);
    RunIsTraced(nodes, path, Cancel, w);
    var Ran(nodes', p, _) := Run(nodes, path, Cancel, w).value;
    forall i | i in nodes ensures Settled(nodes[i], i, Cancel, w) == Ok(nodes'[i]) {
      assert p[i] == i;
    }
  }

  /** The action as commit leaves it after a cancel. */
  function Remembered(o: LimitOrders.LimitOrder, v: View): LimitOrders.LimitOrder {
    if Forgotten(o, v) then o.(current := None) else o
  }

  lemma {:induction false} CancelOrderSettles(n: Node, k: nat, vs: Views)
    requires n.op.LimitOrder? && n.op.order.current.Some? && Settled(n, k, Cancel, WorldOf(vs)).Ok?
    ensures var o, w := n.op.order, WorldOf(vs);
      && Visit(n, k, Cancel, w).Ok?
      && Visit(n, k, Cancel, w).value.messages == WithdrawOf(n.op, vs.before(k))
      && Settled(n, k, Cancel, w) == Ok(WithOp(n, LimitOrder(Remembered(o, vs.after(k)))))
  {
    assert n.op == LimitOrder(n.op.order);
  }

  /** After the visit of each limit order the book no longer answers for the order it had cached. */
  ghost predicate WithdrawsHonoured(nodes: Store, vs: Views) {
    forall i :: i in nodes && nodes[i].op.LimitOrder? ==> Forgotten(nodes[i].op.order, vs.after(i))
  }

  /** If the book honours withdraws, no cached order survives a cancel run; if it does not, one does. */
  lemma {:induction false} CancelRunForgetsOrders(nodes: Store, path: seq<nat>, vs: Views)
    requires WellFormed(nodes) && Run(nodes, path, Cancel, WorldOf(vs)).Ok?
    ensures var nodes' := Run(nodes, path, Cancel, WorldOf(vs)).value.nodes;
      WithdrawsHonoured(nodes, vs) <==>
      forall i :: i in nodes' && nodes'[i].op.LimitOrder? ==> nodes'[i].op.order.current.None?
  {
    SweepSettles(nodes, path, vs);
    var nodes' := Run(nodes, path, Cancel, WorldOf(vs)).value.nodes;
    forall i | i in nodes
      ensures nodes'[i].op.LimitOrder? <==> nodes[i].op.LimitOrder?
      ensures nodes[i].op.LimitOrder? ==>
          (nodes'[i].op.order.current.None? <==> Forgotten(nodes[i].op.order, vs.after(i)))
    {
      CancelForgets(nodes[i], nodes'[i], i, vs);
    }
  }

  predicate Forgotten(o: LimitOrders.LimitOrder, v: View) {
    o.current.Some? ==> v.market.order(o.pair, o.side, o.current.value).Err?
  }

  lemma {:induction false} CancelForgets(n: Node, n': Node, k: nat, vs: Views)
    requires Settled(n, k, Cancel, WorldOf(vs)) == Ok(n')
    ensures n'.op.LimitOrder? <==> n.op.LimitOrder?
    ensures n.op.LimitOrder? ==> (n'.op.order.current.None? <==> Forgotten(n.op.order, vs.after(k)))
  {
    if !n.op.LimitOrder? {
      CancelSettles(n, k, vs);
    } else if n.op.order.current.Some? {
      CancelOrderSettles(n, k, vs);
    }
  }

  /** A cancel run is never reverted, as long as order queries answer. */
  lemma {:induction false} CancelRunGoesThrough(nodes: Store, path: seq<nat>, vs: Views)
    requires WellFormed(nodes) && NoPanics(vs)
    ensures Run(nodes, path, Cancel, WorldOf(vs)).Ok?
  {
    var w := WorldOf(vs);
    forall i, k: nat | i in nodes
      ensures Settled(nodes[i], k, Cancel, w).Ok? && Chosen(nodes, nodes[i], k, Cancel, w).Ok?
    {
      CancelVisitGoesThrough(nodes, i, k, vs);
    }
    ChainRefinesWalk(nodes, path, Cancel, w);
    WalkGoesThrough(nodes, [], Start(nodes), Cancel, w);
  }

  lemma {:induction false} CancelVisitGoesThrough(nodes: Store, i: nat, k: nat, vs: Views)
    requires WellFormed(nodes) && NoPanics(vs) && i in nodes
    ensures Settled(nodes[i], k, Cancel, WorldOf(vs)).Ok? && Chosen(nodes, nodes[i], k, Cancel, WorldOf(vs)).Ok?
  {
    if !nodes[i].op.LimitOrder? {
      CancelSettles(nodes[i], k, vs);
    } else {
      OrderGoesThrough(nodes[i], k, vs);
    }
  }

  lemma {:induction false} OrderGoesThrough(n: Node, k: nat, vs: Views)
    requires NoPanics(vs) && n.op.LimitOrder?
    ensures Visit(n, k, Cancel, WorldOf(vs)).Ok? && Settled(n, k, Cancel, WorldOf(vs)).Ok?
  {
    var o := n.op.order;
    assert n.op == LimitOrder(o);
    if o.current.Some? {
      assert !vs.before(k).market.order(o.pair, o.side, o.current.value).Panic?;
      assert !vs.after(k).market.order(o.pair, o.side, o.current.value).Panic?;
    }
  }

  // ---- One order at a time, over all runs ----

  /** What the book does with one node's orders during one run: accepts sets, honours withdraws, loses some to fills. */
  datatype Day = Day(accepted: bool, withdrawn: bool, gone: set<Decimal>)

  function VisitOf(mode: Mode, k: nat, vs: Views, day: Day): LimitOrders.Visit {
    LimitOrders.Visit(mode.Cancel?, vs.before(k).market, day.accepted, day.withdrawn, day.gone)
  }

  lemma {:induction false} SameCommit(o: LimitOrders.LimitOrder, m: LimitOrders.Market, resting: LimitOrders.Resting)
    requires LimitOrders.Reports(m, o, resting)
    ensures LimitOrders.Commit(o, m) == Ok(LimitOrders.Tracked(o, resting))
  {
    if o.current.Some? {
      assert if o.current.value in resting then m.order(o.pair, o.side, o.current.value).Ok?
             else m.order(o.pair, o.side, o.current.value).Err?;
    }
  }

  /** The engine's visit of a limit-order node is the order's own step, where the book reports what then rests. */
  lemma {:induction false} OrderNodeVisit(n: Node, k: nat, mode: Mode, vs: Views, day: Day,
                                          resting: LimitOrders.Resting)
    requires n.op.LimitOrder? && Settled(n, k, mode, WorldOf(vs)).Ok?
    requires var v := VisitOf(mode, k, vs, day);
      LimitOrders.Reports(vs.after(k).market, n.op.order, LimitOrders.AfterVisit(n.op.order, resting, v))
    ensures var v := VisitOf(mode, k, vs, day);
      var step := LimitOrders.Step((n.op.order, resting), v);
      && step.Ok? && step.value.0.1 == LimitOrders.AfterVisit(n.op.order, resting, v)
      && Settled(n, k, mode, WorldOf(vs)) == Ok(WithOp(n, LimitOrder(step.value.0.0)))
  {
    var o, v := n.op.order, VisitOf(mode, k, vs, day);
    var r := if v.cancel then LimitOrders.Cancel(o, v.market) else LimitOrders.Execute(o, v.market);
    SavedVisit(n, k, mode, vs);
    assert !r.Panic?;
    var after := LimitOrders.AfterVisit(o, resting, v);
    LimitOrders.CommitTracks(if r.Ok? then r.value.1 else o, v.market, after);
    LimitOrders.StepTracks(o, resting, v);
    SavedTerms(o, v);
    SameCommit(if r.Ok? then r.value.1 else o, vs.after(k).market, after);
  }

  lemma {:induction false} SavedTerms(o: LimitOrders.LimitOrder, v: LimitOrders.Visit)
    ensures var r := if v.cancel then LimitOrders.Cancel(o, v.market) else LimitOrders.Execute(o, v.market);
      r.Ok? ==> r.value.1 == o.(current := r.value.1.current)
  {
  }

  /** What the engine saves at a limit-order node. */
  lemma {:induction false} SavedVisit(n: Node, k: nat, mode: Mode, vs: Views)
    requires n.op.LimitOrder?
    ensures var o, m := n.op.order, vs.before(k).market;
      var r := if mode.Cancel? then LimitOrders.Cancel(o, m) else LimitOrders.Execute(o, m);
      Visit(n, k, mode, WorldOf(vs)) ==
      match r
      case Panic => Outcome.Panic
      case Err => Ok(Visited(n, [], true))
      case Ok((messages, o')) => Ok(Visited(WithOp(n, LimitOrder(o')), messages, messages != []))
  {
  }

  /** What a run does with a limit-order node at its visit: what it emits, and the action it stores. */
  ghost predicate OrderOutcome(o: LimitOrders.LimitOrder, v: View, after: View, ms: seq<Message>,
                               o': LimitOrders.LimitOrder)
  {
    var m := v.market;
    if LimitOrders.Answered(o, m) then
      exists wanted, offer, saved ::
        && LimitOrders.Executed(o, m, wanted, offer, ms, saved)
        && o' == if ms == [] then saved else Remembered(saved, after)
    else ms == [] && o' == Remembered(o, after)
  }

  /**
   * In every execute run, a limit-order node emits exactly what its own settings and the market ask for, or nothing if
   * a query fails; its order is forgotten once the book no longer has it.
   */
  lemma {:induction false} OrderRun(nodes: Store, path: seq<nat>, vs: Views, k: nat)
    requires WellFormed(nodes) && Run(nodes, path, Execute, WorldOf(vs)).Ok?
    requires var p := Run(nodes, path, Execute, WorldOf(vs)).value.path;
      && k < |p| && p[k] in nodes && nodes[p[k]].op.LimitOrder?
      && var o := nodes[p[k]].op.order;
      LimitOrders.Initialised(o) && LimitOrders.Sane(o, vs.before(k).market)
    ensures var Ran(nodes', p, _) := Run(nodes, path, Execute, WorldOf(vs)).value;
      && p[k] in nodes' && nodes'[p[k]].op.LimitOrder?
      && OrderOutcome(nodes[p[k]].op.order, vs.before(k), vs.after(k),
                      EmittedAt(nodes, p, k, Execute, WorldOf(vs)), nodes'[p[k]].op.order)
  {
    RunIsTraced(nodes, path, Execute, WorldOf(vs));
    var Ran(nodes', p, _) := Run(nodes, path, Execute, WorldOf(vs)).value;
    assert Settled(nodes[p[k]], k, Execute, WorldOf(vs)) == Ok(nodes'[p[k]]);
    OrderVisited(nodes[p[k]], k, vs);
  }

  lemma {:induction false} OrderVisited(n: Node, k: nat, vs: Views)
    requires n.op.LimitOrder? && Settled(n, k, Execute, WorldOf(vs)).Ok?
    requires LimitOrders.Initialised(n.op.order) && LimitOrders.Sane(n.op.order, vs.before(k).market)
    ensures Visit(n, k, Execute, WorldOf(vs)).Ok? && Settled(n, k, Execute, WorldOf(vs)).value.op.LimitOrder?
    ensures OrderOutcome(n.op.order, vs.before(k), vs.after(k), Visit(n, k, Execute, WorldOf(vs)).value.messages,
                         Settled(n, k, Execute, WorldOf(vs)).value.op.order)
  {
    var o, m := n.op.order, vs.before(k).market;
    SavedVisit(n, k, Execute, vs);
    LimitOrders.ExecutesWhen(o, m);
    if LimitOrders.Answered(o, m) {
      var wanted, offer := LimitOrders.ExecutesExactly(o, m);
    }
  }

  /** One run, and what the book does with node `i`'s orders meanwhile. */
  datatype Session = Session(execution: Execution, day: Day)

  /** The nodes, and where node `i`'s orders rest. */
  datatype Standing = Standing(nodes: Store, resting: LimitOrders.Resting)

  ghost predicate Visits(nodes: Store, e: Execution, i: nat)
    requires WellFormed(nodes)
  {
    var r := Run(nodes, [], e.mode, WorldOf(e.views));
    r.Ok? && i in r.value.path && i in nodes && nodes[i].op.LimitOrder?
  }

  /** The order's own view of the run's visit of node `i`. */
  ghost function VisitIn(nodes: Store, x: Session, i: nat): LimitOrders.Visit
    requires WellFormed(nodes) && Visits(nodes, x.execution, i)
  {
    var e := x.execution;
    VisitOf(e.mode, Graph.Position(Run(nodes, [], e.mode, WorldOf(e.views)).value.path, i), e.views, x.day)
  }

  ghost function BookAfter(s: Standing, x: Session, i: nat): LimitOrders.Resting
    requires WellFormed(s.nodes)
  {
    if Visits(s.nodes, x.execution, i)
    then LimitOrders.AfterVisit(s.nodes[i].op.order, s.resting, VisitIn(s.nodes, x, i))
    else s.resting - x.day.gone
  }

  /** When the run commits node `i`, the book reports the orders that rest by then. */
  ghost predicate BookReports(s: Standing, x: Session, i: nat)
    requires WellFormed(s.nodes)
  {
    var e := x.execution;
    Visits(s.nodes, e, i) ==>
      LimitOrders.Reports(
        e.views.after(Graph.Position(Run(s.nodes, [], e.mode, WorldOf(e.views)).value.path, i)).market,
        s.nodes[i].op.order, BookAfter(s, x, i))
  }

  /** The run resets an order that rests, and its withdraw fails. */
  ghost predicate SessionLosesTrack(s: Standing, x: Session, i: nat)
    requires WellFormed(s.nodes)
  {
    && Visits(s.nodes, x.execution, i)
    && LimitOrders.LosesTrack(s.nodes[i].op.order, s.resting, VisitIn(s.nodes, x, i))
  }

  /** A run as a step that counts when it loses track of an order of node `i`; a book that misreports is no step. */
  ghost function SessionStep(i: nat): (Standing, Session) -> Outcome<(Standing, bool)> {
    (s: Standing, x: Session) =>
      if !WellFormed(s.nodes) || !BookReports(s, x, i) then Panic
      else Ok((Standing(RunOnce(s.nodes, x.execution), BookAfter(s, x, i)), SessionLosesTrack(s, x, i)))
  }

  ghost predicate Trades(s: Standing, i: nat) {
    WellFormed(s.nodes) && i in s.nodes && s.nodes[i].op.LimitOrder?
  }

  /** At most one of node `i`'s orders rests, at its cached price. */
  predicate OneOrderOf(s: Standing, i: nat)
    requires i in s.nodes && s.nodes[i].op.LimitOrder?
  {
    LimitOrders.OneOrder(s.nodes[i].op.order, s.resting)
  }

  lemma {:induction false} VisitedOrder(s: Standing, x: Session, i: nat)
    requires WellFormed(s.nodes) && Visits(s.nodes, x.execution, i) && BookReports(s, x, i)
    ensures var step := LimitOrders.Step((s.nodes[i].op.order, s.resting), VisitIn(s.nodes, x, i));
      && i in RunOnce(s.nodes, x.execution) && step.Ok? && step.value.0.1 == BookAfter(s, x, i)
      && RunOnce(s.nodes, x.execution)[i] == WithOp(s.nodes[i], LimitOrder(step.value.0.0))
  {
    var e := x.execution;
    var w := WorldOf(e.views);
    RunIsTraced(s.nodes, [], e.mode, w);
    var Ran(nodes', p, _) := Run(s.nodes, [], e.mode, w).value;
    var k := Graph.Position(p, i);
    assert Settled(s.nodes[p[k]], k, e.mode, w) == Ok(nodes'[p[k]]);
    OrderNodeVisit(s.nodes[i], k, e.mode, e.views, x.day, s.resting);
  }

  lemma {:induction false} UnvisitedOrder(nodes: Store, e: Execution, i: nat)
    requires WellFormed(nodes) && i in nodes && nodes[i].op.LimitOrder? && !Visits(nodes, e, i)
    ensures i in RunOnce(nodes, e) && RunOnce(nodes, e)[i] == nodes[i]
  {
    if Run(nodes, [], e.mode, WorldOf(e.views)).Ok? {
      RunIsTraced(nodes, [], e.mode, WorldOf(e.views));
    }
  }

  lemma {:induction false} SessionGoesOn(s: Standing, x: Session, i: nat)
    requires Trades(s, i) && BookReports(s, x, i)
    ensures Trades(Standing(RunOnce(s.nodes, x.execution), BookAfter(s, x, i)), i)
  {
    if Visits(s.nodes, x.execution, i) {
      VisitedOrder(s, x, i);
    } else {
      UnvisitedOrder(s.nodes, x.execution, i);
    }
  }

  /** One run keeps one order exactly when it does not lose track of it. */
  lemma {:induction false} SessionKeeps(s: Standing, x: Session, i: nat)
    requires Trades(s, i) && OneOrderOf(s, i) && BookReports(s, x, i)
    requires Trades(Standing(RunOnce(s.nodes, x.execution), BookAfter(s, x, i)), i)
    ensures OneOrderOf(Standing(RunOnce(s.nodes, x.execution), BookAfter(s, x, i)), i) <==> !SessionLosesTrack(s, x, i)
  {
    if Visits(s.nodes, x.execution, i) {
      VisitedOrder(s, x, i);
      LimitOrders.VisitKeepsOneOrder(s.nodes[i].op.order, s.resting, VisitIn(s.nodes, x, i));
    } else {
      UnvisitedOrder(s.nodes, x.execution, i);
    }
  }

  lemma {:induction false} HonouredKeepsTrack(s: Standing, x: Session, i: nat)
    requires WellFormed(s.nodes) && x.day.withdrawn
    ensures !SessionLosesTrack(s, x, i)
  {
  }

  /** As long as no run lost track, one order is in hand. */
  ghost predicate InHand(s: Standing, i: nat, lost: nat) {
    Trades(s, i) && (lost == 0 ==> OneOrderOf(s, i))
  }

  lemma {:induction false} StepInHand(s: Standing, x: Session, i: nat, lost: nat)
    requires InHand(s, i, lost) && SessionStep(i)(s, x).Ok?
    ensures var (s', more) := SessionStep(i)(s, x).value;
      InHand(s', i, if more then lost + 1 else lost) && (x.day.withdrawn ==> !more)
  {
    SessionGoesOn(s, x, i);
    if lost == 0 {
      SessionKeeps(s, x, i);
    }
    if x.day.withdrawn {
      HonouredKeepsTrack(s, x, i);
    }
  }

  /**
   * Over every sequence of runs of one list, execute and cancel mixed and reverted ones included, under a book that
   * reports what rests: at most one order of each limit-order node rests, at its cached price, unless some run reset
   * it while its withdraw failed; and no run does that if withdraws succeed.
   */
  lemma {:induction false} AtMostOneOrderRests(nodes: Store, i: nat, sessions: seq<Session>)
    requires WellFormed(nodes) && i in nodes && nodes[i].op.LimitOrder? && nodes[i].op.order.current.None?
    requires Repeat(SessionStep(i), Standing(nodes, {}), sessions).Ok?
    ensures var (s, lost) := Repeat(SessionStep(i), Standing(nodes, {}), sessions).value;
      && InHand(s, i, lost)
      && (lost == 0 ==> |s.resting| <= 1)
      && ((forall j :: 0 <= j < |sessions| ==> sessions[j].day.withdrawn) ==> lost == 0)
  {
    var start := Standing(nodes, {});
    var honoured := forall j :: 0 <= j < |sessions| ==> sessions[j].day.withdrawn;
    var inv := (s: Standing, lost: nat) => InHand(s, i, lost) && (honoured ==> lost == 0);
    forall j, s, lost | 0 <= j < |sessions| ensures StepKeeps(SessionStep(i), sessions[j], inv, s, lost) {
      if inv(s, lost) && SessionStep(i)(s, sessions[j]).Ok? {
        StepInHand(s, sessions[j], i, lost);
      }
    }
    RepeatKeeps(SessionStep(i), start, sessions, inv);
  }

  /**
   * A cancel run whose withdraws succeed, under a book that reports what rests before and after, leaves no order of
   * the node resting and none cached.
   */
  lemma {:induction false} CancelRunClears(s: Standing, x: Session, i: nat)
    requires Trades(s, i) && OneOrderOf(s, i) && x.execution.mode.Cancel? && x.day.withdrawn && BookReports(s, x, i)
    requires Run(s.nodes, [], Cancel, WorldOf(x.execution.views)).Ok?
    requires LimitOrders.Reports(x.execution.views.before(i).market, s.nodes[i].op.order, s.resting - x.day.gone)
    ensures BookAfter(s, x, i) == {}
    ensures i in RunOnce(s.nodes, x.execution) && RunOnce(s.nodes, x.execution)[i].op.LimitOrder?
    ensures RunOnce(s.nodes, x.execution)[i].op.order.current.None?
  {
    var w := WorldOf(x.execution.views);
    CancelRunSweeps(s.nodes, [], w);
    var p := Run(s.nodes, [], Cancel, w).value.path;
    assert i < |p| && p[i] == i;
    assert Graph.Position(p, i) == i;
    VisitedOrder(s, x, i);
    LimitOrders.CancelClears(s.nodes[i].op.order, s.resting, VisitIn(s.nodes, x, i));
  }
}
