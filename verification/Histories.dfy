/** Every history of a strategy contract: what survives initialising, updating, executing and cancelling. */
module Histories {
  import opened Outcomes
  import opened Graph
  import opened Nodes
  import opened Traversal
  import opened Runs

  /** The stored nodes, and the length of the list accepted last. */
  datatype State = State(nodes: Store, current: nat)

  /** The messages a manager can send, with what the world answers during the runs they start. */
  datatype Event =
    | Create(list: seq<Node>, init: Initialiser, executing: World)
    | Update(list: seq<Node>, init: Initialiser, cancelling: World, executing: World)
    | Executed(executing: World)
    | Cancelled(cancelling: World)

  ghost function AfterRun(s: State, mode: Mode, w: World): Outcome<State>
    requires Layered(s.nodes, s.current)
  {
    var ran :- Run(s.nodes, [], mode, w);
    Ok(s.(nodes := ran.nodes))
  }

  ghost function AfterInit(s: State, list: seq<Node>, init: Initialiser): Outcome<State> {
    if Accepted(list, init) then Ok(State(s.nodes + Entries(InitNodes(list, init)), |list|)) else Err
  }

  lemma {:induction false} RunKeepsLayers(s: State, mode: Mode, w: World)
    requires Layered(s.nodes, s.current) && AfterRun(s, mode, w).Ok?
    ensures var s' := AfterRun(s, mode, w).value; Layered(s'.nodes, s'.current) && s'.current == s.current
  {
    RunIsTraced(s.nodes, [], mode, w);
    var nodes' := Run(s.nodes, [], mode, w).value.nodes;
    assert |nodes'| == |Shape(nodes')| && |s.nodes| == |Shape(s.nodes)|;
  }

  lemma {:induction false} InitKeepsLayers(s: State, list: seq<Node>, init: Initialiser)
    requires WellFormed(s.nodes) && AfterInit(s, list, init).Ok?
    ensures var s' := AfterInit(s, list, init).value; Layered(s'.nodes, s'.current) && s'.current == |list|
  {
    AcceptedList(list, init);
    AcyclicIffRanked(Adjacencies(list));
    LayeringKept(s.nodes, InitNodes(list, init));
  }

  /** An update cancels, initialises and executes in one transaction; a failure anywhere undoes all of it. */
  ghost function Next(s: State, e: Event): Outcome<State>
    requires Layered(s.nodes, s.current)
  {
    match e
    case Create(list, init, w) =>
      var s1 :- AfterInit(s, list, init);
      InitKeepsLayers(s, list, init);
      AfterRun(s1, Execute, w)
    case Update(list, init, cw, w) =>
      var s1 :- AfterRun(s, Cancel, cw);
      RunKeepsLayers(s, Cancel, cw);
      var s2 :- AfterInit(s1, list, init);
      InitKeepsLayers(s1, list, init);
      AfterRun(s2, Execute, w)
    case Executed(w) => AfterRun(s, Execute, w)
    case Cancelled(w) => AfterRun(s, Cancel, w)
  }

  lemma {:induction false} NextKeepsLayers(s: State, e: Event)
    requires Layered(s.nodes, s.current) && Next(s, e).Ok?
    ensures Layered(Next(s, e).value.nodes, Next(s, e).value.current)
  {
    match e
    case Create(list, init, w) =>
      InitKeepsLayers(s, list, init);
      RunKeepsLayers(AfterInit(s, list, init).value, Execute, w);
    case Update(list, init, cw, w) =>
      RunKeepsLayers(s, Cancel, cw);
      var s1 := AfterRun(s, Cancel, cw).value;
      InitKeepsLayers(s1, list, init);
      RunKeepsLayers(AfterInit(s1, list, init).value, Execute, w);
    case Executed(w) => RunKeepsLayers(s, Execute, w);
    case Cancelled(w) => RunKeepsLayers(s, Cancel, w);
  }

  /** An event that fails leaves the contract as it was. */
  ghost function Attempt(s: State, e: Event): Outcome<(State, bool)> {
    if !Layered(s.nodes, s.current) then Panic
    else if Next(s, e).Ok? then Ok((Next(s, e).value, true)) else Ok((s, false))
  }

  const EMPTY: State := State(map[], 0)

  lemma {:induction false} HistoriesAreLayered(events: seq<Event>)
    ensures Repeat(Attempt, EMPTY, events).Ok?
    ensures var s := Repeat(Attempt, EMPTY, events).value.0; Layered(s.nodes, s.current)
  {
    if events == [] {
      EmptyIsLayered();
    } else {
      HistoriesAreLayered(events[..|events| - 1]);
      var s := Repeat(Attempt, EMPTY, events[..|events| - 1]).value.0;
      if Next(s, events[|events| - 1]).Ok? {
        NextKeepsLayers(s, events[|events| - 1]);
      }
    }
  }

  /**
   * In every history the stored indices have no gaps, the whole stored graph, leftovers of longer old lists
   * included, has no cycle, and nothing that the current list reaches is a leftover.
   */
  lemma {:induction false} StoredGraphIsSafe(events: seq<Event>)
    ensures Repeat(Attempt, EMPTY, events).Ok?
    ensures var s := Repeat(Attempt, EMPTY, events).value.0;
      && Gapless(s.nodes) && |s.nodes| <= MAX_STRATEGY_SIZE && s.current <= |s.nodes|
      && Acyclic(Shape(s.nodes))
      && forall u: nat, v: nat :: u < s.current && Reaches(Shape(s.nodes), u, v) ==> v < s.current
  {
    HistoriesAreLayered(events);
    var s := Repeat(Attempt, EMPTY, events).value.0;
    LayersAreSafe(s.nodes, s.current);
  }

  /**
   * Updating to an empty list is accepted but removes nothing: exactly then, if anything was stored before, the
   * execute run that follows starts at a node that is not in the list, the old node 0.
   */
  lemma {:induction false} EmptyListLeavesOldStrategyLive(s: State, list: seq<Node>, init: Initialiser, w: World)
    requires Layered(s.nodes, s.current) && AfterInit(s, list, init).Ok?
    requires Layered(AfterInit(s, list, init).value.nodes, |list|)
    requires Run(AfterInit(s, list, init).value.nodes, [], Execute, w).Ok?
    ensures var p := Run(AfterInit(s, list, init).value.nodes, [], Execute, w).value.path;
      p != [] && p[0] >= |list| <==> list == [] && |s.nodes| > 0
  {
    var nodes := AfterInit(s, list, init).value.nodes;
    ExecuteRunIsPath(nodes, [], w);
    MergedKeys(s.nodes, InitNodes(list, init));
    assert |nodes| == Max(|s.nodes|, |list|);
  }

  /** A store of one node that does nothing. */
  function OneNode(): Store {
    map[0 := Action(Check(false), 0, None)]
  }

  lemma {:induction false} OneNodeIsLayered()
    ensures Layered(OneNode(), 1) && Layered(OneNode(), 0)
  {
    var nodes := OneNode();
    assert |nodes| == 1 && Gapless(nodes);
    assert Shape(nodes) == [[]];
    HasRank(Shape(nodes), [0]);
  }

  lemma {:induction false} NothingIsAccepted(init: Initialiser)
    ensures Accepted([], init) && Entries(InitNodes([], init)) == map[]
  {
    RankedIsAcyclic(Adjacencies([]), []);
  }

  lemma {:induction false} OneNodeRuns(w: World)
    requires forall k, op :: w.execute(k, op) == Ok(([], op))
    ensures WellFormed(OneNode()) && Run(OneNode(), [], Execute, w) == Ok(Ran(OneNode(), [0], []))
  {
    var nodes, n := OneNode(), Action(Check(false), 0, None);
    OneNodeIsLayered();
    ChainRefinesWalk(nodes, [], Execute, w);
    assert Visit(n, 0, Execute, w) == Ok(Visited(n, [], false));
    assert nodes[0 := n] == nodes;
    assert Chosen(nodes, n, 0, Execute, w) == Ok(None) && Settled(n, 0, Execute, w) == Ok(n);
    assert [] + [0] == [0];
    assert Walk(nodes, [0], None, Execute, w) == Ok(Ran(nodes, [0], []));
    assert Walk(nodes, [], Some(0), Execute, w) == Ok(Ran(nodes, [0], []));
  }

  /** An input for it: one silent node, then an update to nothing. The execute run still visits the node. */
  lemma {:induction false} OldNodeStillRuns(init: Initialiser, w: World)
    requires forall k, op :: w.execute(k, op) == Ok(([], op))
    ensures Layered(OneNode(), 1) && AfterInit(State(OneNode(), 1), [], init) == Ok(State(OneNode(), 0))
    ensures Run(OneNode(), [], Execute, w) == Ok(Ran(OneNode(), [0], []))
  {
    OneNodeIsLayered();
    NothingIsAccepted(init);
    assert OneNode() + map[] == OneNode();
    OneNodeRuns(w);
  }

  /** What an event leaves when it is a run of a store with this many current nodes. */
  ghost function LeftBy(run: Outcome<Ran>, current: nat): Outcome<State> {
    if run.Ok? then Ok(State(run.value.nodes, current)) else run.PropagateFailure()
  }

  /** The message that executes, or cancels, is that run of the stored graph. */
  lemma {:induction false} RunOfTheGraph(s: State, mode: Mode, w: World)
    requires Layered(s.nodes, s.current)
    ensures Next(s, if mode.Execute? then Executed(w) else Cancelled(w)) ==
            LeftBy(Run(s.nodes, [], mode, w), s.current)
  {
    var e := if mode.Execute? then Executed(w) else Cancelled(w);
    assert Next(s, e) == AfterRun(s, mode, w);
  }

  /** A creation goes through exactly when its list is accepted and the execute run of what is then stored does. */
  lemma {:induction false} CreationRuns(s: State, list: seq<Node>, init: Initialiser, w: World)
    requires Layered(s.nodes, s.current)
    ensures !Accepted(list, init) ==> Next(s, Create(list, init, w)) == Err
    ensures Accepted(list, init) ==>
              var stored := s.nodes + Entries(InitNodes(list, init));
              WellFormed(stored) && Next(s, Create(list, init, w)) == LeftBy(Run(stored, [], Execute, w), |list|)
  {
    if Accepted(list, init) {
      InitKeepsLayers(s, list, init);
    }
  }

  /** What an update does if it goes through, and when it does. */
  lemma {:induction false} UpdateSteps(s: State, list: seq<Node>, init: Initialiser, cw: World, w: World)
    requires Layered(s.nodes, s.current)
    ensures var c := Run(s.nodes, [], Cancel, cw);
      && (Next(s, Update(list, init, cw, w)).Ok? ==> c.Ok? && Accepted(list, init))
      && (c.Ok? && Accepted(list, init) ==>
            var merged := c.value.nodes + Entries(InitNodes(list, init));
            && WellFormed(merged)
            && var r := Run(merged, [], Execute, w);
            && (Next(s, Update(list, init, cw, w)).Ok? <==> r.Ok?)
            && (r.Ok? ==> Next(s, Update(list, init, cw, w)) == Ok(State(r.value.nodes, |list|))))
  {
    if Run(s.nodes, [], Cancel, cw).Ok? {
      UpdateIsCreation(s, list, init, cw, w);
      CreationRuns(AfterRun(s, Cancel, cw).value, list, init, w);
    }
  }

  lemma {:induction false} UpdateIsCreation(s: State, list: seq<Node>, init: Initialiser, cw: World, w: World)
    requires Layered(s.nodes, s.current) && AfterRun(s, Cancel, cw).Ok?
    ensures var s' := AfterRun(s, Cancel, cw).value;
      Layered(s'.nodes, s'.current) && Next(s, Update(list, init, cw, w)) == Next(s', Create(list, init, w))
  {
    RunKeepsLayers(s, Cancel, cw);
  }

  /**
   * An update goes through exactly when its cancel run does, its list is accepted, and the execute run of the result
   * goes through. By then it has cancelled every stored node, in order, stored the list's initialised nodes over what
   * the cancel left, and run that from node 0.
   */
  lemma {:induction false} UpdateCancelsFirst(s: State, list: seq<Node>, init: Initialiser, cw: World, w: World)
    requires Layered(s.nodes, s.current)
    ensures Next(s, Update(list, init, cw, w)).Ok? <==>
            && Run(s.nodes, [], Cancel, cw).Ok? && Accepted(list, init)
            && var merged := Run(s.nodes, [], Cancel, cw).value.nodes + Entries(InitNodes(list, init));
            WellFormed(merged) && Run(merged, [], Execute, w).Ok?
    ensures Next(s, Update(list, init, cw, w)).Ok? ==>
              var cancelled := Run(s.nodes, [], Cancel, cw).value;
              var merged := cancelled.nodes + Entries(InitNodes(list, init));
              && |cancelled.path| == |s.nodes| && (forall k :: 0 <= k < |s.nodes| ==> cancelled.path[k] == k)
              && Next(s, Update(list, init, cw, w)) == Ok(State(Run(merged, [], Execute, w).value.nodes, |list|))
  {
    UpdateSteps(s, list, init, cw, w);
    if Run(s.nodes, [], Cancel, cw).Ok? {
      CancelRunSweeps(s.nodes, [], cw);
    }
  }
}
