/** How a strategy walks its stored graph: one `Process` call, the chain of them, and the uninterrupted walk. */
module Traversal {
  import opened Outcomes
  import opened Money
  import opened Graph
  import opened Nodes

  // ---- The measure that ends every run ----

  /** Bounds the visits from node `i` on: its rank when following edges, the indices above it when sweeping. */
  ghost function Left(nodes: Store, i: nat, mode: Mode): nat
    requires WellFormed(nodes) && i in nodes
  {
    Rung(Shape(nodes), i, mode)
  }

  ghost function Rung(g: Adjacency, i: nat, mode: Mode): nat {
    if mode.Cancel? then if i <= |g| then |g| - i else 0
    else if i < |RankOf(g)| then RankOf(g)[i]
    else 0
  }

  lemma {:induction false} SaveKeeps(nodes: Store, i: nat, n: Node, mode: Mode)
    requires WellFormed(nodes) && i in nodes && SameEdges(nodes[i], n)
    ensures WellFormed(nodes[i := n]) && nodes[i := n].Keys == nodes.Keys && Shape(nodes[i := n]) == Shape(nodes)
    ensures forall j :: j in nodes ==> Left(nodes[i := n], j, mode) == Left(nodes, j, mode)
  {
    SaveKeepsShape(nodes, i, n);
  }

  lemma {:induction false} NextIsLower(nodes: Store, i: nat, n: Node, k: nat, mode: Mode, w: World)
    requires WellFormed(nodes) && i in nodes && SameEdges(nodes[i], n)
    requires GetNext(nodes, n, k, mode, w).Ok? && GetNext(nodes, n, k, mode, w).value.Some?
    ensures var j := GetNext(nodes, n, k, mode, w).value.value;
      && j in nodes && Left(nodes, j, mode) < Left(nodes, i, mode)
      && (mode.Execute? ==> Edge(Shape(nodes), i, j))
      && (mode.Cancel? ==> j == i + 1)
  {
    var j := GetNext(nodes, n, k, mode, w).value.value;
    if mode.Execute? {
      assert j in Targets(n) && Targets(n) == Targets(nodes[i]);
      assert Edge(Shape(nodes), i, j);
    }
  }

  // ---- One visit ----

  /** What a visit saves and emits. The run pauses after messages and after an error, and commits when it resumes. */
  datatype Visited = Visited(saved: Node, messages: seq<Message>, waits: bool)

  function Visit(n: Node, k: nat, mode: Mode, w: World): (r: Outcome<Visited>)
    ensures r.Ok? ==> SameEdges(n, r.value.saved)
  {
    match Perform(n, k, mode, w)
    case Panic => Panic
    case Err => Ok(Visited(n, [], true))
    case Ok((messages, saved)) => Ok(Visited(saved, messages, messages != []))
  }

  /** The node a visit ends up storing. */
  function Settled(n: Node, k: nat, mode: Mode, w: World): (r: Outcome<Node>)
    ensures r.Ok? ==> SameEdges(n, r.value)
  {
    var v :- Visit(n, k, mode, w);
    if v.waits then CommitNode(v.saved, k, w) else Ok(v.saved)
  }

  /** The node a visit goes on to, decided on the saved node before any commit. */
  function Chosen(nodes: Store, n: Node, k: nat, mode: Mode, w: World): Outcome<Option<nat>> {
    var v :- Visit(n, k, mode, w);
    GetNext(nodes, v.saved, k, mode, w)
  }

  // ---- One Process call ----

  datatype Step = Finished(nodes: Store, path: seq<nat>)
    | Paused(nodes: Store, path: seq<nat>, index: nat, messages: seq<Message>)

  ghost predicate Ready(nodes: Store, at: Option<nat>) {
    WellFormed(nodes) && (at.Some? ==> at.value in nodes)
  }

  ghost function Height(nodes: Store, at: Option<nat>, mode: Mode): nat
    requires Ready(nodes, at)
  {
    if at.None? then 0 else Left(nodes, at.value, mode) + 1
  }

  function Start(nodes: Store): Option<nat> {
    Present(nodes, Some(0))
  }

  lemma {:induction false} GetNextIsReady(nodes: Store, i: nat, n: Node, k: nat, mode: Mode, w: World)
    requires WellFormed(nodes) && i in nodes && SameEdges(nodes[i], n) && GetNext(nodes, n, k, mode, w).Ok?
    ensures var next := GetNext(nodes, n, k, mode, w).value;
      Ready(nodes, next) && Height(nodes, next, mode) <= Left(nodes, i, mode)
  {
    if GetNext(nodes, n, k, mode, w).value.Some? {
      NextIsLower(nodes, i, n, k, mode, w);
    }
  }

  /** One turn of the processing loop: the call ends waiting for node `i`'s continuation, or goes on. */
  datatype Turn = Waiting(nodes: Store, path: seq<nat>, messages: seq<Message>)
    | Going(nodes: Store, path: seq<nat>, next: Option<nat>)

  function TurnOf(nodes: Store, path: seq<nat>, i: nat, mode: Mode, w: World): Outcome<Turn>
    requires i in nodes
  {
    var v :- Visit(nodes[i], |path|, mode, w);
    var nodes' := nodes[i := v.saved];
    if v.waits then Ok(Waiting(nodes', path + [i], v.messages))
    else
      var next :- GetNext(nodes', v.saved, |path|, mode, w);
      Ok(Going(nodes', path + [i], next))
  }

  lemma {:induction false} TurnIsReady(nodes: Store, path: seq<nat>, i: nat, mode: Mode, w: World)
    requires WellFormed(nodes) && i in nodes && TurnOf(nodes, path, i, mode, w).Ok?
    ensures var t := TurnOf(nodes, path, i, mode, w).value;
      && WellFormed(t.nodes) && t.nodes.Keys == nodes.Keys && Shape(t.nodes) == Shape(nodes) && t.path == path + [i]
      && Left(t.nodes, i, mode) == Left(nodes, i, mode)
      && (t.Going? ==> Ready(t.nodes, t.next) && Height(t.nodes, t.next, mode) <= Left(nodes, i, mode))
  {
    var v := Visit(nodes[i], |path|, mode, w).value;
    SaveKeeps(nodes, i, v.saved, mode);
    if !v.waits {
      GetNextIsReady(nodes[i := v.saved], i, v.saved, |path|, mode, w);
    }
  }

  /** The loop of a `Process` call, from the node about to be visited. */
  ghost function ProcessFrom(nodes: Store, path: seq<nat>, at: Option<nat>, mode: Mode, w: World): (r: Outcome<Step>)
    requires Ready(nodes, at)
    ensures r.Ok? ==>
        WellFormed(r.value.nodes) && r.value.nodes.Keys == nodes.Keys && Shape(r.value.nodes) == Shape(nodes)
    ensures r.Ok? && r.value.Paused? ==>
              && r.value.index in nodes && r.value.path != []
              && Left(r.value.nodes, r.value.index, mode) < Height(nodes, at, mode)
    decreases Height(nodes, at, mode)
  {
    if at.None? then Ok(Finished(nodes, path))
    else
      var turn :- TurnOf(nodes, path, at.value, mode, w);
      TurnIsReady(nodes, path, at.value, mode, w);
      match turn
      case Waiting(nodes', path', messages) => Ok(Paused(nodes', path', at.value, messages))
      case Going(nodes', path', next) => ProcessFrom(nodes', path', next, mode, w)
  }

  lemma {:induction false} TurnIsProcess(nodes: Store, path: seq<nat>, i: nat, mode: Mode, w: World)
    requires WellFormed(nodes) && i in nodes
    ensures var r, t := ProcessFrom(nodes, path, Some(i), mode, w), TurnOf(nodes, path, i, mode, w);
      && (!t.Ok? ==> r == t.PropagateFailure())
      && (t.Ok? && t.value.Waiting? ==> r == Ok(Paused(t.value.nodes, t.value.path, i, t.value.messages)))
      && (t.Ok? && t.value.Going? ==>
            && Ready(t.value.nodes, t.value.next)
            && Height(t.value.nodes, t.value.next, mode) < Height(nodes, Some(i), mode)
            && r == ProcessFrom(t.value.nodes, t.value.path, t.value.next, mode, w))
  {
    if TurnOf(nodes, path, i, mode, w).Ok? {
      TurnIsReady(nodes, path, i, mode, w);
    }
  }

  /** What a continuation does first: choose the next node, then commit the one that paused. */
  function Resume(nodes: Store, path: seq<nat>, i: nat, mode: Mode, w: World): Outcome<(Store, Option<nat>)>
    requires i in nodes && path != []
  {
    var next :- GetNext(nodes, nodes[i], |path| - 1, mode, w);
    var committed :- CommitNode(nodes[i], |path| - 1, w);
    Ok((nodes[i := committed], next))
  }

  lemma {:induction false} ResumeIsReady(nodes: Store, path: seq<nat>, i: nat, mode: Mode, w: World)
    requires WellFormed(nodes) && i in nodes && path != [] && Resume(nodes, path, i, mode, w).Ok?
    ensures var (nodes', next) := Resume(nodes, path, i, mode, w).value;
      && Ready(nodes', next) && nodes'.Keys == nodes.Keys && Shape(nodes') == Shape(nodes)
      && Height(nodes', next, mode) <= Left(nodes, i, mode)
  {
    var committed := CommitNode(nodes[i], |path| - 1, w).value;
    var next := GetNext(nodes, nodes[i], |path| - 1, mode, w).value;
    GetNextIsReady(nodes, i, nodes[i], |path| - 1, mode, w);
    StaysReady(nodes, i, committed, next, mode);
    assert Resume(nodes, path, i, mode, w) == Ok((nodes[i := committed], next));
  }

  lemma {:induction false} StaysReady(nodes: Store, i: nat, n: Node, next: Option<nat>, mode: Mode)
    requires i in nodes && SameEdges(nodes[i], n) && Ready(nodes, next)
    ensures var nodes' := nodes[i := n];
      && nodes'.Keys == nodes.Keys && Ready(nodes', next) && Shape(nodes') == Shape(nodes)
      && Height(nodes', next, mode) == Height(nodes, next, mode)
  {
    SaveKeeps(nodes, i, n, mode);
  }

  ghost function Process(nodes: Store, path: seq<nat>, previous: Option<nat>, mode: Mode, w: World): (r: Outcome<Step>)
    requires WellFormed(nodes)
    ensures r.Ok? ==>
        WellFormed(r.value.nodes) && r.value.nodes.Keys == nodes.Keys && Shape(r.value.nodes) == Shape(nodes)
    ensures r.Ok? && r.value.Paused? ==> r.value.index in nodes && r.value.path != []
    ensures r.Ok? && r.value.Paused? && previous.Some? && previous.value in nodes ==>
              Left(r.value.nodes, r.value.index, mode) < Left(nodes, previous.value, mode)
  {
    match previous
    case None => ProcessFrom(nodes, [], Start(nodes), mode, w)
    case Some(i) =>
      if i !in nodes || path == [] then Err // no node or no path to continue from is stored
      else
        var (nodes', next) :- Resume(nodes, path, i, mode, w);
        ResumeIsReady(nodes, path, i, mode, w);
        ProcessFrom(nodes', path, next, mode, w)
  }

  /** A continuation that can resume then goes through the loop. */
  lemma {:induction false} ProcessResumes(nodes: Store, path: seq<nat>, i: nat, mode: Mode, w: World)
    requires WellFormed(nodes) && i in nodes && path != [] && Resume(nodes, path, i, mode, w).Ok?
    ensures var (nodes', next) := Resume(nodes, path, i, mode, w).value;
      Ready(nodes', next) && Process(nodes, path, Some(i), mode, w) == ProcessFrom(nodes', path, next, mode, w)
  {
    ResumeIsReady(nodes, path, i, mode, w);
  }

  // ---- A whole run, delivered as a chain of calls or as one walk ----

  /** What a run leaves in storage, the path it reports, and the messages it emitted, in order. */
  datatype Ran = Ran(nodes: Store, path: seq<nat>, log: seq<Message>)

  /** A run that emits `messages` and then goes on as `run`. */
  function Emitting(messages: seq<Message>, run: Outcome<Ran>): (r: Outcome<Ran>)
    ensures r.Ok? <==> run.Ok?
    ensures r.Ok? ==> r.value == run.value.(log := messages + run.value.log)
  {
    if messages == [] || !run.Ok? then
      assert run.Ok? && messages == [] ==> messages + run.value.log == run.value.log;
      run
    else Ok(run.value.(log := messages + run.value.log))
  }

  /** Each paused call sends the next one, after its messages. */
  ghost function Chain(nodes: Store, path: seq<nat>, previous: Option<nat>, mode: Mode, w: World): Outcome<Ran>
    requires Ready(nodes, previous) && (previous.Some? ==> path != [])
    decreases previous.None?, if previous.None? then 0 else Left(nodes, previous.value, mode)
  {
    var step :- Process(nodes, path, previous, mode, w);
    match step
    case Finished(nodes', path') => Ok(Ran(nodes', path', []))
    case Paused(nodes', path', i, messages) => Emitting(messages, Chain(nodes', path', Some(i), mode, w))
  }

  ghost function Walk(nodes: Store, path: seq<nat>, at: Option<nat>, mode: Mode, w: World): Outcome<Ran>
    requires Ready(nodes, at)
    decreases Height(nodes, at, mode)
  {
    if at.None? then Ok(Ran(nodes, path, []))
    else
      var i, k := at.value, |path|;
      var next :- Chosen(nodes, nodes[i], k, mode, w);
      var settled :- Settled(nodes[i], k, mode, w);
      SaveKeeps(nodes, i, settled, mode);
      GetNextIsReady(nodes, i, Visit(nodes[i], k, mode, w).value.saved, k, mode, w);
      Emitting(Visit(nodes[i], k, mode, w).value.messages, Walk(nodes[i := settled], path + [i], next, mode, w))
  }

  lemma {:induction false} SameKeysSameNext(nodes: Store, nodes': Store, n: Node, k: nat, mode: Mode, w: World)
    requires nodes.Keys == nodes'.Keys
    ensures GetNext(nodes, n, k, mode, w) == GetNext(nodes', n, k, mode, w)
  {
  }

  ghost predicate Stopped(step: Step) {
    WellFormed(step.nodes) && (step.Paused? ==> step.index in step.nodes && step.path != [])
  }

  /** How a walk goes on from the outcome of a call. */
  ghost function Onward(step: Step, mode: Mode, w: World): Outcome<Ran>
    requires Stopped(step)
  {
    match step
    case Finished(nodes, path) => Ok(Ran(nodes, path, []))
    case Paused(nodes, path, i, messages) =>
      var (nodes', next) :- Resume(nodes, path, i, mode, w);
      ResumeIsReady(nodes, path, i, mode, w);
      Emitting(messages, Walk(nodes', path, next, mode, w))
  }

  /** Resuming a paused visit is finishing its step of the walk. */
  lemma {:induction false} StepIsWalk(nodes: Store, path: seq<nat>, at: Option<nat>, mode: Mode, w: World)
    requires Ready(nodes, at)
    ensures Walk(nodes, path, at, mode, w) ==
            (var step :- ProcessFrom(nodes, path, at, mode, w); Onward(step, mode, w))
    decreases Height(nodes, at, mode)
  {
    if at.Some? {
      var i := at.value;
      var r := Visit(nodes[i], |path|, mode, w);
      if r.Ok? && r.value.waits {
        PausedStepIsWalk(nodes, path, i, mode, w);
      } else {
        TurnIsProcess(nodes, path, i, mode, w);
        GoingTurnIsWalk(nodes, path, i, mode, w);
        var turn := TurnOf(nodes, path, i, mode, w);
        if turn.Ok? {
          StepIsWalk(turn.value.nodes, turn.value.path, turn.value.next, mode, w);
        }
      }
    }
  }

  /** A silent turn of the loop is a silent step of the walk. */
  lemma {:induction false} GoingTurnIsWalk(nodes: Store, path: seq<nat>, i: nat, mode: Mode, w: World)
    requires WellFormed(nodes) && i in nodes
    requires var r := Visit(nodes[i], |path|, mode, w); !r.Ok? || !r.value.waits
    ensures var turn := TurnOf(nodes, path, i, mode, w);
      && (turn.Ok? ==>
            && turn.value.Going? && Ready(turn.value.nodes, turn.value.next)
            && Walk(nodes, path, Some(i), mode, w) == Walk(turn.value.nodes, turn.value.path, turn.value.next, mode, w))
      && (!turn.Ok? ==> Walk(nodes, path, Some(i), mode, w) == turn.PropagateFailure())
  {
    var r := Visit(nodes[i], |path|, mode, w);
    if r.Ok? {
      SameKeysSameNext(nodes, nodes[i := r.value.saved], r.value.saved, |path|, mode, w);
      if TurnOf(nodes, path, i, mode, w).Ok? {
        TurnIsReady(nodes, path, i, mode, w);
      }
    }
  }

  lemma {:induction false} PausedStepIsWalk(nodes: Store, path: seq<nat>, i: nat, mode: Mode, w: World)
    requires WellFormed(nodes) && i in nodes
    requires Visit(nodes[i], |path|, mode, w).Ok? && Visit(nodes[i], |path|, mode, w).value.waits
    ensures Walk(nodes, path, Some(i), mode, w) ==
            (var step :- ProcessFrom(nodes, path, Some(i), mode, w); Onward(step, mode, w))
  {
    var v := Visit(nodes[i], |path|, mode, w).value;
    TurnIsReady(nodes, path, i, mode, w);
    assert ProcessFrom(nodes, path, Some(i), mode, w) == Ok(Paused(nodes[i := v.saved], path + [i], i, v.messages));
    ResumeSettles(nodes, path, i, mode, w);
  }

  lemma {:induction false} ResumeSettles(nodes: Store, path: seq<nat>, i: nat, mode: Mode, w: World)
    requires i in nodes
    requires Visit(nodes[i], |path|, mode, w).Ok? && Visit(nodes[i], |path|, mode, w).value.waits
    ensures Resume(nodes[i := Visit(nodes[i], |path|, mode, w).value.saved], path + [i], i, mode, w) ==
            (var next :- Chosen(nodes, nodes[i], |path|, mode, w);
             var settled :- Settled(nodes[i], |path|, mode, w);
             Ok((nodes[i := settled], next)))
  {
    var k, v := |path|, Visit(nodes[i], |path|, mode, w).value;
    var nodes' := nodes[i := v.saved];
    SameKeysSameNext(nodes, nodes', v.saved, k, mode, w);
    assert nodes'[i] == v.saved && |path + [i]| - 1 == k;
    var c := CommitNode(v.saved, k, w);
    if c.Ok? {
      assert nodes'[i := c.value] == nodes[i := c.value];
    }
  }

  /** How a chain goes on from the outcome of a call. */
  ghost function ChainOn(step: Step, mode: Mode, w: World): Outcome<Ran>
    requires Stopped(step)
  {
    match step
    case Finished(nodes, path) => Ok(Ran(nodes, path, []))
    case Paused(nodes, path, i, messages) => Emitting(messages, Chain(nodes, path, Some(i), mode, w))
  }

  lemma {:induction false} ChainResumes(nodes: Store, path: seq<nat>, i: nat, mode: Mode, w: World)
    requires WellFormed(nodes) && i in nodes && path != [] && Resume(nodes, path, i, mode, w).Ok?
    ensures var (nodes', next) := Resume(nodes, path, i, mode, w).value;
      && Ready(nodes', next)
      && var s := ProcessFrom(nodes', path, next, mode, w);
      && Chain(nodes, path, Some(i), mode, w) == (if s.Ok? then ChainOn(s.value, mode, w) else s.PropagateFailure())
      && (s.Ok? && s.value.Paused? ==> Left(s.value.nodes, s.value.index, mode) < Left(nodes, i, mode))
  {
    ResumeIsReady(nodes, path, i, mode, w);
  }

  lemma {:induction false} OnwardResumes(nodes: Store, path: seq<nat>, i: nat, messages: seq<Message>, mode: Mode,
                                         w: World)
    requires WellFormed(nodes) && i in nodes && path != []
    ensures var r := Resume(nodes, path, i, mode, w);
      && (r.Ok? ==>
            && Ready(r.value.0, r.value.1)
            && Onward(Paused(nodes, path, i, messages), mode, w) ==
               Emitting(messages, Walk(r.value.0, path, r.value.1, mode, w)))
      && (!r.Ok? ==> Onward(Paused(nodes, path, i, messages), mode, w) == r.PropagateFailure())
  {
    if Resume(nodes, path, i, mode, w).Ok? {
      ResumeIsReady(nodes, path, i, mode, w);
    }
  }

  lemma {:induction false} ResumedChainIsWalk(nodes: Store, path: seq<nat>, i: nat, mode: Mode, w: World)
    requires WellFormed(nodes) && i in nodes && path != []
    ensures Chain(nodes, path, Some(i), mode, w) == Onward(Paused(nodes, path, i, []), mode, w)
    decreases Left(nodes, i, mode), 0
  {
    var r := Resume(nodes, path, i, mode, w);
    OnwardResumes(nodes, path, i, [], mode, w);
    if r.Ok? {
      ChainResumes(nodes, path, i, mode, w);
      var s := ProcessFrom(r.value.0, path, r.value.1, mode, w);
      if s.Ok? && s.value.Paused? {
        ChainOnIsOnward(s.value, mode, w);
      }
      WalkIsOnward(r.value.0, path, r.value.1, mode, w);
    }
  }

  lemma {:induction false} WalkIsOnward(nodes: Store, path: seq<nat>, at: Option<nat>, mode: Mode, w: World)
    requires Ready(nodes, at)
    ensures var s := ProcessFrom(nodes, path, at, mode, w);
      Emitting([], Walk(nodes, path, at, mode, w)) == if s.Ok? then Onward(s.value, mode, w) else s.PropagateFailure()
  {
    StepIsWalk(nodes, path, at, mode, w);
  }

  lemma {:induction false} ChainOnIsOnward(step: Step, mode: Mode, w: World)
    requires step.Paused? && Stopped(step)
    ensures ChainOn(step, mode, w) == Onward(step, mode, w)
    decreases Left(step.nodes, step.index, mode), 1
  {
    ResumedChainIsWalk(step.nodes, step.path, step.index, mode, w);
    OnwardResumes(step.nodes, step.path, step.index, [], mode, w);
    OnwardResumes(step.nodes, step.path, step.index, step.messages, mode, w);
  }

  lemma {:induction false} ChainStarts(nodes: Store, path: seq<nat>, mode: Mode, w: World)
    requires WellFormed(nodes)
    ensures var r := ProcessFrom(nodes, [], Start(nodes), mode, w);
      Chain(nodes, path, None, mode, w) ==
      (if r.Ok? then ChainOn(r.value, mode, w) else r.PropagateFailure())
  {
  }

  /**
   * Refinement: a run delivered as a chain of `Process` messages, pausing wherever a node emits messages or fails,
   * visits the same nodes, emits the same messages and leaves the same store as the uninterrupted walk with the same
   * answers.
   */
  lemma {:induction false} ChainRefinesWalk(nodes: Store, path: seq<nat>, mode: Mode, w: World)
    requires WellFormed(nodes)
    ensures Chain(nodes, path, None, mode, w) == Walk(nodes, [], Start(nodes), mode, w)
  {
    var r := ProcessFrom(nodes, [], Start(nodes), mode, w);
    ChainStarts(nodes, path, mode, w);
    StepIsWalk(nodes, [], Start(nodes), mode, w);
    if r.Ok? && r.value.Paused? {
      ChainOnIsOnward(r.value, mode, w);
    }
  }

  // ---- What a whole run did ----

  function After(p: seq<nat>, k: nat): Option<nat>
    requires k < |p|
  {
    if k + 1 < |p| then Some(p[k + 1]) else None
  }

  ghost predicate FollowsAt(nodes: Store, p: seq<nat>, k: nat, mode: Mode, w: World)
    requires k < |p|
  {
    p[k] in nodes && Chosen(nodes, nodes[p[k]], k, mode, w) == Ok(After(p, k))
  }

  /** From position `from` on, each node visited chooses the next one, and the last chooses none. */
  ghost predicate Follows(nodes: Store, p: seq<nat>, from: nat, mode: Mode, w: World) {
    forall k {:trigger FollowsAt(nodes, p, k, mode, w)} :: from <= k < |p| ==> FollowsAt(nodes, p, k, mode, w)
  }

  /** From position `from` on, each node visited is stored as its visit settled it, and the others as they were. */
  ghost predicate Settles(nodes: Store, nodes': Store, p: seq<nat>, from: nat, mode: Mode, w: World) {
    && nodes'.Keys == nodes.Keys
    && (forall k :: from <= k < |p| ==> p[k] in nodes && Settled(nodes[p[k]], k, mode, w) == Ok(nodes'[p[k]]))
    && (forall i :: i in nodes ==> (exists k :: from <= k < |p| && p[k] == i) || nodes'[i] == nodes[i])
  }

  /** Every visit from position `from` on is on a lower rung than the one before, the first below `height`. */
  ghost predicate Falls(g: Adjacency, p: seq<nat>, from: nat, height: nat, mode: Mode) {
    forall k {:trigger Rung(g, p[k], mode)} :: from <= k < |p| ==> Rung(g, p[k], mode) + (k - from) < height
  }

  /** `p` is `path` followed by the visits from `at` on. */
  predicate Extends(path: seq<nat>, at: Option<nat>, p: seq<nat>) {
    && |p| >= |path| && p[..|path|] == path
    && (if at.None? then |p| == |path| else |p| > |path| && p[|path|] == at.value)
  }

  /** The visits of `p` from position `from` on lead from store `nodes` to store `nodes'`. */
  ghost predicate Traced(nodes: Store, nodes': Store, p: seq<nat>, from: nat, mode: Mode, w: World) {
    Follows(nodes, p, from, mode, w) && Settles(nodes, nodes', p, from, mode, w)
  }

  /** One step of a walk that goes through: the store after the visit, and the node to go on to. */
  lemma {:induction false} WalkStep(nodes: Store, path: seq<nat>, i: nat, mode: Mode, w: World)
    returns (settled: Node, next: Option<nat>)
    requires WellFormed(nodes) && i in nodes && Walk(nodes, path, Some(i), mode, w).Ok?
    ensures Settled(nodes[i], |path|, mode, w) == Ok(settled) && Chosen(nodes, nodes[i], |path|, mode, w) == Ok(next)
    ensures Ready(nodes[i := settled], next) && Shape(nodes[i := settled]) == Shape(nodes)
    ensures forall j :: j in nodes ==> Left(nodes[i := settled], j, mode) == Left(nodes, j, mode)
    ensures Height(nodes[i := settled], next, mode) <= Left(nodes, i, mode)
    ensures Visit(nodes[i], |path|, mode, w).Ok?
    ensures Walk(nodes, path, Some(i), mode, w) ==
            Emitting(Visit(nodes[i], |path|, mode, w).value.messages,
                Walk(nodes[i := settled], path + [i], next, mode, w))
  {
    next := Chosen(nodes, nodes[i], |path|, mode, w).value;
    settled := Settled(nodes[i], |path|, mode, w).value;
    SaveKeeps(nodes, i, settled, mode);
    GetNextIsReady(nodes, i, Visit(nodes[i], |path|, mode, w).value.saved, |path|, mode, w);
  }

  lemma {:induction false} WalkKeepsShape(nodes: Store, path: seq<nat>, at: Option<nat>, mode: Mode, w: World)
    requires Ready(nodes, at) && Walk(nodes, path, at, mode, w).Ok?
    ensures WellFormed(Walk(nodes, path, at, mode, w).value.nodes)
    ensures Shape(Walk(nodes, path, at, mode, w).value.nodes) == Shape(nodes)
    decreases Height(nodes, at, mode)
  {
    if at.Some? {
      var settled, next := WalkStep(nodes, path, at.value, mode, w);
      WalkKeepsShape(nodes[at.value := settled], path + [at.value], next, mode, w);
    }
  }

  lemma {:induction false} WalkExtends(nodes: Store, path: seq<nat>, at: Option<nat>, mode: Mode, w: World)
    requires Ready(nodes, at) && Walk(nodes, path, at, mode, w).Ok?
    ensures Extends(path, at, Walk(nodes, path, at, mode, w).value.path)
    decreases Height(nodes, at, mode)
  {
    if at.Some? {
      var settled, next := WalkStep(nodes, path, at.value, mode, w);
      WalkExtends(nodes[at.value := settled], path + [at.value], next, mode, w);
      PrefixStep(path, at.value, Walk(nodes, path, at, mode, w).value.path);
    }
  }

  lemma {:induction false} WalkFalls(nodes: Store, path: seq<nat>, at: Option<nat>, mode: Mode, w: World)
    requires Ready(nodes, at) && Walk(nodes, path, at, mode, w).Ok?
    ensures Falls(Shape(nodes), Walk(nodes, path, at, mode, w).value.path, |path|, Height(nodes, at, mode), mode)
    decreases Height(nodes, at, mode)
  {
    if at.Some? {
      var i := at.value;
      var settled, next := WalkStep(nodes, path, i, mode, w);
      var mid := nodes[i := settled];
      WalkExtends(nodes, path, at, mode, w);
      WalkFalls(mid, path + [i], next, mode, w);
      FallsStep(Shape(nodes), Walk(nodes, path, at, mode, w).value.path, |path|, i, Height(mid, next, mode), mode);
    }
  }

  lemma {:induction false} WalkIsTraced(nodes: Store, path: seq<nat>, at: Option<nat>, mode: Mode, w: World)
    requires Ready(nodes, at) && Walk(nodes, path, at, mode, w).Ok?
    ensures Traced(nodes, Walk(nodes, path, at, mode, w).value.nodes, Walk(nodes, path, at, mode, w).value.path,
        |path|, mode, w)
    decreases Height(nodes, at, mode)
  {
    if at.Some? {
      var i := at.value;
      var settled, next := WalkStep(nodes, path, i, mode, w);
      WalkIsTraced(nodes[i := settled], path + [i], next, mode, w);
      WalkTraceStep(nodes, path, i, settled, next, mode, w);
    }
  }

  lemma {:induction false} WalkTraceStep(nodes: Store, path: seq<nat>, i: nat, settled: Node, next: Option<nat>,
                                         mode: Mode, w: World)
    requires WellFormed(nodes) && i in nodes && Ready(nodes[i := settled], next)
    requires Settled(nodes[i], |path|, mode, w) == Ok(settled) && Chosen(nodes, nodes[i], |path|, mode, w) == Ok(next)
    requires Left(nodes[i := settled], i, mode) == Left(nodes, i, mode) >= Height(nodes[i := settled], next, mode)
    requires Walk(nodes[i := settled], path + [i], next, mode, w).Ok?
    requires var Ran(nodes', p, _) := Walk(nodes[i := settled], path + [i], next, mode, w).value;
      Traced(nodes[i := settled], nodes', p, |path| + 1, mode, w)
    ensures var Ran(nodes', p, _) := Walk(nodes[i := settled], path + [i], next, mode, w).value;
      Traced(nodes, nodes', p, |path|, mode, w)
  {
    var Ran(nodes', p, _) := Walk(nodes[i := settled], path + [i], next, mode, w).value;
    WalkVisitsOnce(nodes, path, i, settled, next, mode, w);
    TraceStep(nodes, i, settled, next, nodes', p, |path|, mode, w);
  }

  /** The messages that visit `k` of `p` emits. */
  function EmittedAt(nodes: Store, p: seq<nat>, k: nat, mode: Mode, w: World): seq<Message>
    requires k < |p|
  {
    if p[k] in nodes && Visit(nodes[p[k]], k, mode, w).Ok? then Visit(nodes[p[k]], k, mode, w).value.messages else []
  }

  /** The messages of the visits of `p` from position `from` on, in order. */
  function Emissions(nodes: Store, p: seq<nat>, from: nat, mode: Mode, w: World): seq<Message>
    decreases |p| - from
  {
    if from >= |p| then [] else EmittedAt(nodes, p, from, mode, w) + Emissions(nodes, p, from + 1, mode, w)
  }

  lemma {:induction false} SameEmissions(nodes: Store, mid: Store, p: seq<nat>, from: nat, mode: Mode, w: World)
    requires mid.Keys == nodes.Keys && forall k :: from <= k < |p| && p[k] in nodes ==> mid[p[k]] == nodes[p[k]]
    ensures Emissions(mid, p, from, mode, w) == Emissions(nodes, p, from, mode, w)
    decreases |p| - from
  {
    if from < |p| {
      SameEmissions(nodes, mid, p, from + 1, mode, w);
    }
  }

  /** A walk emits exactly what its visits emit. */
  lemma {:induction false} WalkEmits(nodes: Store, path: seq<nat>, at: Option<nat>, mode: Mode, w: World)
    requires Ready(nodes, at) && Walk(nodes, path, at, mode, w).Ok?
    ensures var Ran(_, p, log) := Walk(nodes, path, at, mode, w).value; log == Emissions(nodes, p, |path|, mode, w)
    decreases Height(nodes, at, mode)
  {
    if at.Some? {
      var i := at.value;
      var settled, next := WalkStep(nodes, path, i, mode, w);
      var p := Walk(nodes, path, at, mode, w).value.path;
      WalkEmits(nodes[i := settled], path + [i], next, mode, w);
      WalkVisitsOnce(nodes, path, i, settled, next, mode, w);
      SameEmissions(nodes, nodes[i := settled], p, |path| + 1, mode, w);
    } else {
      WalkExtends(nodes, path, at, mode, w);
    }
  }

  /** After the visit of `i` the walk goes on to `next` and never comes back. */
  lemma {:induction false} WalkVisitsOnce(nodes: Store, path: seq<nat>, i: nat, settled: Node, next: Option<nat>,
                                          mode: Mode, w: World)
    requires WellFormed(nodes) && i in nodes && Ready(nodes[i := settled], next)
    requires Left(nodes[i := settled], i, mode) == Left(nodes, i, mode) >= Height(nodes[i := settled], next, mode)
    requires Walk(nodes[i := settled], path + [i], next, mode, w).Ok?
    ensures var p := Walk(nodes[i := settled], path + [i], next, mode, w).value.path;
      && |path| < |p| && p[|path|] == i && After(p, |path|) == next
      && forall k :: |path| + 1 <= k < |p| ==> p[k] != i
  {
    var mid := nodes[i := settled];
    var p := Walk(mid, path + [i], next, mode, w).value.path;
    WalkExtends(mid, path + [i], next, mode, w);
    WalkFalls(mid, path + [i], next, mode, w);
    PrefixStep(path, i, p);
    LaterVisitsDiffer(Shape(mid), p, |path| + 1, Height(mid, next, mode), i, mode);
  }

  lemma {:induction false} TraceStep(nodes: Store, i: nat, settled: Node, next: Option<nat>, nodes': Store,
                                     p: seq<nat>, k: nat, mode: Mode, w: World)
    requires i in nodes && Settled(nodes[i], k, mode, w) == Ok(settled)
    requires k < |p| && p[k] == i && After(p, k) == next && Chosen(nodes, nodes[i], k, mode, w) == Ok(next)
    requires Traced(nodes[i := settled], nodes', p, k + 1, mode, w)
    requires forall j :: k + 1 <= j < |p| ==> p[j] != i
    ensures Traced(nodes, nodes', p, k, mode, w)
  {
    var mid := nodes[i := settled];
    FollowsStep(nodes, mid, p, k, i, next, mode, w);
    SettlesStep(nodes, mid, nodes', p, k, i, mode, w);
  }

  lemma {:induction false} PrefixStep(path: seq<nat>, i: nat, p: seq<nat>)
    requires |p| > |path| && p[..|path| + 1] == path + [i]
    ensures p[|path|] == i && p[..|path|] == path
  {
    assert p[|path|] == (path + [i])[|path|];
    assert p[..|path|] == p[..|path| + 1][..|path|];
  }

  lemma {:induction false} FollowsStep(nodes: Store, mid: Store, p: seq<nat>, k: nat, i: nat, next: Option<nat>,
                                       mode: Mode, w: World)
    requires i in nodes && mid.Keys == nodes.Keys && forall j :: j in nodes && j != i ==> mid[j] == nodes[j]
    requires k < |p| && p[k] == i && After(p, k) == next && Chosen(nodes, nodes[i], k, mode, w) == Ok(next)
    requires Follows(mid, p, k + 1, mode, w) && forall j :: k + 1 <= j < |p| ==> p[j] != i
    ensures Follows(nodes, p, k, mode, w)
  {
    forall j | k <= j < |p| ensures FollowsAt(nodes, p, j, mode, w) {
      if j > k {
        assert FollowsAt(mid, p, j, mode, w);
        ChosenSameKeys(nodes, mid, p[j], j, mode, w);
      }
    }
  }

  lemma {:induction false} FallsStep(g: Adjacency, p: seq<nat>, k: nat, i: nat, height: nat, mode: Mode)
    requires k < |p| && p[k] == i && Falls(g, p, k + 1, height, mode) && height <= Rung(g, i, mode)
    ensures Falls(g, p, k, Rung(g, i, mode) + 1, mode)
  {
    forall j | k <= j < |p| ensures Rung(g, p[j], mode) + (j - k) < Rung(g, i, mode) + 1 {
    }
  }

  lemma {:induction false} ChosenSameKeys(nodes: Store, mid: Store, i: nat, k: nat, mode: Mode, w: World)
    requires mid.Keys == nodes.Keys && i in nodes && mid[i] == nodes[i]
    ensures Chosen(nodes, nodes[i], k, mode, w) == Chosen(mid, mid[i], k, mode, w)
  {
  }

  lemma {:induction false} LaterVisitsDiffer(g: Adjacency, p: seq<nat>, from: nat, height: nat, i: nat, mode: Mode)
    requires Falls(g, p, from, height, mode) && height <= Rung(g, i, mode)
    ensures forall k :: from <= k < |p| ==> p[k] != i
  {
    forall k | from <= k < |p| ensures p[k] != i {
      assert Rung(g, p[k], mode) < height;
    }
  }

  lemma {:induction false} SettlesStep(nodes: Store, mid: Store, nodes': Store, p: seq<nat>, k: nat, i: nat,
                                       mode: Mode, w: World)
    requires k < |p| && p[k] == i && i in nodes && Settled(nodes[i], k, mode, w).Ok?
    requires mid == nodes[i := Settled(nodes[i], k, mode, w).value]
    requires Settles(mid, nodes', p, k + 1, mode, w)
    requires forall j :: k + 1 <= j < |p| ==> p[j] != i
    ensures Settles(nodes, nodes', p, k, mode, w)
  {
    assert mid.Keys == nodes.Keys;
    assert nodes'[i] == mid[i];
    forall j | k <= j < |p| ensures p[j] in nodes && Settled(nodes[p[j]], j, mode, w) == Ok(nodes'[p[j]]) {
      if j > k {
        assert mid[p[j]] == nodes[p[j]];
      }
    }
    forall x | x in nodes ensures (exists j :: k <= j < |p| && p[j] == x) || nodes'[x] == nodes[x] {
      if x != i && nodes'[x] != mid[x] {
        var j :| k + 1 <= j < |p| && p[j] == x;
      }
    }
  }

  // ---- Whole runs ----

  /** A run from the start, delivered as a chain of `Process` messages. */
  ghost function Run(nodes: Store, path: seq<nat>, mode: Mode, w: World): Outcome<Ran>
    requires WellFormed(nodes)
  {
    Chain(nodes, path, None, mode, w)
  }

  lemma {:induction false} RunIsTraced(nodes: Store, path: seq<nat>, mode: Mode, w: World)
    requires WellFormed(nodes) && Run(nodes, path, mode, w).Ok?
    ensures var Ran(nodes', p, log) := Run(nodes, path, mode, w).value;
      && WellFormed(nodes') && Shape(nodes') == Shape(nodes)
      && Extends([], Start(nodes), p) && Traced(nodes, nodes', p, 0, mode, w)
      && log == Emissions(nodes, p, 0, mode, w)
      && Falls(Shape(nodes), p, 0, Height(nodes, Start(nodes), mode), mode)
  {
    ChainRefinesWalk(nodes, path, mode, w);
    WalkKeepsShape(nodes, [], Start(nodes), mode, w);
    WalkExtends(nodes, [], Start(nodes), mode, w);
    WalkFalls(nodes, [], Start(nodes), mode, w);
    WalkIsTraced(nodes, [], Start(nodes), mode, w);
    WalkEmits(nodes, [], Start(nodes), mode, w);
  }

  /**
   * Every execute run that is not reverted, whatever the world answers: it visits each node at most once, at most
   * fifty in all, and the path it reports is an edge path of the stored graph from node 0.
   */
  lemma {:induction false} ExecuteRunIsPath(nodes: Store, path: seq<nat>, w: World)
    requires WellFormed(nodes) && Run(nodes, path, Execute, w).Ok?
    ensures var Ran(nodes', p, _) := Run(nodes, path, Execute, w).value;
      && (p == [] <==> |nodes| == 0)
      && (p != [] ==> p[0] == 0)
      && IsWalk(Shape(nodes), p) && Distinct(p)
      && |p| <= |nodes| <= MAX_STRATEGY_SIZE
      && WellFormed(nodes') && Shape(nodes') == Shape(nodes)
  {
    RunIsTraced(nodes, path, Execute, w);
    var Ran(nodes', p, _) := Run(nodes, path, Execute, w).value;
    forall k | 0 <= k < |p| - 1 ensures Edge(Shape(nodes), p[k], p[k + 1]) {
      StepIsEdge(nodes, p, k, Execute, w);
    }
    RankedWalkIsDistinct(Shape(nodes), RankOf(Shape(nodes)), p);
    DistinctBelow(p, |nodes|);
  }

  /** The operation a visit stores before anything is committed: as executed, or as it was if that failed. */
  function SavedOp(n: Node, k: nat, w: World): Operation {
    match w.execute(k, n.op)
    case Ok((_, op)) => op
    case _ => n.op
  }

  /** Where the run goes after position `k`: along the edge taken, if it leads to a stored node; else nowhere. */
  predicate GoesAlong(nodes: Store, p: seq<nat>, k: nat, edge: Option<nat>) {
    && k < |p|
    && (edge.Some? && edge.value in nodes ==> k + 1 < |p| && p[k + 1] == edge.value)
    && (edge.None? || edge.value !in nodes ==> k + 1 == |p|)
  }

  /**
   * What an execute run does with the node it visits at position `k`, said with the node's own fields and the world's
   * answers. An action goes on to its next node; a condition to its success side exactly when the world says the saved
   * operation holds. The node keeps its edges; its operation is stored as executed, and committed exactly when
   * messages went out or executing failed.
   */
  ghost predicate Executed(nodes: Store, nodes': Store, p: seq<nat>, k: nat, w: World) {
    && k < |p| && p[k] in nodes && p[k] in nodes'
    && var n, r := nodes[p[k]], w.execute(k, nodes[p[k]].op);
    && (n.Action? ==> GoesAlong(nodes, p, k, n.next))
    && (n.Condition? && w.satisfied(k, SavedOp(n, k, w)) == Ok(true) ==> GoesAlong(nodes, p, k, n.onSuccess))
    && (n.Condition? && w.satisfied(k, SavedOp(n, k, w)) != Ok(true) ==> GoesAlong(nodes, p, k, n.onFailure))
    && nodes'[p[k]] == n.(op := nodes'[p[k]].op)
    && (r.Ok? && r.value.0 == [] ==> nodes'[p[k]].op == r.value.1)
    && (r.Ok? && r.value.0 != [] ==> w.commit(k, r.value.1) == Ok(nodes'[p[k]].op))
    && (r.Err? ==> w.commit(k, n.op) == Ok(nodes'[p[k]].op))
    && !r.Panic?
    && EmittedAt(nodes, p, k, Execute, w) == if r.Ok? then r.value.0 else []
  }

  lemma {:induction false} VisitIsExecuted(nodes: Store, nodes': Store, p: seq<nat>, k: nat, w: World)
    requires Traced(nodes, nodes', p, 0, Execute, w) && k < |p|
    ensures Executed(nodes, nodes', p, k, w)
  {
    assert FollowsAt(nodes, p, k, Execute, w);
    assert Settled(nodes[p[k]], k, Execute, w) == Ok(nodes'[p[k]]);
  }

  /**
   * Every execute run that goes through, from node 0 if there is one, follows the stored edges: it does with each
   * node it visits exactly what `Executed` says, and ends only where the edge taken is missing or not stored. What it
   * emits is what the world's answers emit, in the order of the visits; nodes not visited stay as they were.
   */
  lemma {:induction false} ExecuteRunFollowsEdges(nodes: Store, path: seq<nat>, w: World)
    requires WellFormed(nodes) && Run(nodes, path, Execute, w).Ok?
    ensures var Ran(nodes', p, log) := Run(nodes, path, Execute, w).value;
      && (if 0 in nodes then p != [] && p[0] == 0 else p == [])
      && (forall k :: 0 <= k < |p| ==> Executed(nodes, nodes', p, k, w))
      && nodes'.Keys == nodes.Keys && (forall i :: i in nodes && i !in p ==> nodes'[i] == nodes[i])
      && log == Emissions(nodes, p, 0, Execute, w)
  {
    RunIsTraced(nodes, path, Execute, w);
    var Ran(nodes', p, _) := Run(nodes, path, Execute, w).value;
    forall k | 0 <= k < |p| ensures Executed(nodes, nodes', p, k, w) {
      VisitIsExecuted(nodes, nodes', p, k, w);
    }
  }

  lemma {:induction false} StepIsEdge(nodes: Store, p: seq<nat>, k: nat, mode: Mode, w: World)
    requires WellFormed(nodes) && Follows(nodes, p, 0, mode, w) && k + 1 < |p|
    ensures mode.Execute? ==> Edge(Shape(nodes), p[k], p[k + 1])
    ensures mode.Cancel? ==> p[k + 1] == p[k] + 1
  {
    assert FollowsAt(nodes, p, k, mode, w);
    NextIsLower(nodes, p[k], Visit(nodes[p[k]], k, mode, w).value.saved, k, mode, w);
  }

  /** A run of the current list never leaves it: leftovers of longer old lists are not visited. */
  lemma {:induction false} ExecuteRunStaysCurrent(nodes: Store, current: nat, path: seq<nat>, w: World)
    requires Layered(nodes, current) && current > 0 && Run(nodes, path, Execute, w).Ok?
    ensures var p := Run(nodes, path, Execute, w).value.path;
      |p| <= current && forall k :: 0 <= k < |p| ==> p[k] < current
  {
    ExecuteRunIsPath(nodes, path, w);
    var p := Run(nodes, path, Execute, w).value.path;
    forall k | 0 <= k < |p| ensures p[k] < current {
      WalkStaysBelow(Shape(nodes), current, p, k);
    }
    DistinctBelow(p, current);
  }

  /** Every cancel run that is not reverted visits all stored indices, once each, in order. */
  lemma {:induction false} CancelRunSweeps(nodes: Store, path: seq<nat>, w: World)
    requires WellFormed(nodes) && Run(nodes, path, Cancel, w).Ok?
    ensures var p := Run(nodes, path, Cancel, w).value.path;
      |p| == |nodes| && forall k :: 0 <= k < |p| ==> p[k] == k
  {
    RunIsTraced(nodes, path, Cancel, w);
    var p := Run(nodes, path, Cancel, w).value.path;
    forall k | 0 <= k < |p| ensures p[k] == k {
      SweepCounts(nodes, p, k, w);
    }
    if p != [] {
      SweepEndsAtTop(nodes, p, w);
    }
  }

  lemma {:induction false} SweepEndsAtTop(nodes: Store, p: seq<nat>, w: World)
    requires WellFormed(nodes) && Follows(nodes, p, 0, Cancel, w) && p != [] && p[|p| - 1] == |p| - 1
    ensures |p| == |nodes|
  {
    assert FollowsAt(nodes, p, |p| - 1, Cancel, w);
    assert |p| !in nodes;
  }

  lemma {:induction false} SweepCounts(nodes: Store, p: seq<nat>, k: nat, w: World)
    requires WellFormed(nodes) && Follows(nodes, p, 0, Cancel, w) && k < |p| && p[0] == 0
    ensures p[k] == k
  {
    if k > 0 {
      SweepCounts(nodes, p, k - 1, w);
      StepIsEdge(nodes, p, k - 1, Cancel, w);
    }
  }

  /** Every visit the run could still make goes through. */
  ghost predicate GoesThrough(nodes: Store, height: nat, mode: Mode, w: World)
    requires WellFormed(nodes)
  {
    forall i, k: nat :: i in nodes && Left(nodes, i, mode) < height ==>
      Settled(nodes[i], k, mode, w).Ok? && Chosen(nodes, nodes[i], k, mode, w).Ok?
  }

  lemma {:induction false} WalkGoesThrough(nodes: Store, path: seq<nat>, at: Option<nat>, mode: Mode, w: World)
    requires Ready(nodes, at) && GoesThrough(nodes, Height(nodes, at, mode), mode, w)
    ensures Walk(nodes, path, at, mode, w).Ok?
    decreases Height(nodes, at, mode)
  {
    if at.Some? {
      var i, k := at.value, |path|;
      assert Settled(nodes[i], k, mode, w).Ok? && Chosen(nodes, nodes[i], k, mode, w).Ok?;
      var settled, next := Settled(nodes[i], k, mode, w).value, Chosen(nodes, nodes[i], k, mode, w).value;
      GetNextIsReady(nodes, i, Visit(nodes[i], k, mode, w).value.saved, k, mode, w);
      GoesThroughStep(nodes, i, settled, next, mode, w);
      WalkGoesThrough(nodes[i := settled], path + [i], next, mode, w);
    }
  }

  lemma {:induction false} GoesThroughStep(nodes: Store, i: nat, settled: Node, next: Option<nat>, mode: Mode, w: World)
    requires WellFormed(nodes) && i in nodes && SameEdges(nodes[i], settled)
    requires Ready(nodes, next) && Height(nodes, next, mode) <= Left(nodes, i, mode)
    requires GoesThrough(nodes, Left(nodes, i, mode) + 1, mode, w)
    ensures Ready(nodes[i := settled], next) && Height(nodes[i := settled], next, mode) == Height(nodes, next, mode)
    ensures GoesThrough(nodes[i := settled], Height(nodes, next, mode), mode, w)
  {
    SaveKeeps(nodes, i, settled, mode);
    var mid := nodes[i := settled];
    forall j, m: nat | j in mid && Left(mid, j, mode) < Height(nodes, next, mode)
      ensures Settled(mid[j], m, mode, w).Ok? && Chosen(mid, mid[j], m, mode, w).Ok?
    {
      assert mid[j] == nodes[j] && Settled(nodes[j], m, mode, w).Ok?;
      ChosenSameKeys(nodes, mid, j, m, mode, w);
    }
  }

  /** The world may answer with errors, but never aborts, and always commits. */
  ghost predicate NeverAborts(w: World) {
    forall k, op {:trigger w.execute(k, op)} {:trigger w.satisfied(k, op)} {:trigger w.commit(k, op)} ::
      !w.execute(k, op).Panic? && !w.satisfied(k, op).Panic? && w.commit(k, op).Ok?
  }

  /** Then every execute run goes through: a node that fails is passed over, and does not stop or revert the run. */
  lemma {:induction false} ExecuteRunGoesThrough(nodes: Store, path: seq<nat>, w: World)
    requires WellFormed(nodes) && NeverAborts(w)
    ensures Run(nodes, path, Execute, w).Ok?
  {
    forall i, k: nat | i in nodes && Left(nodes, i, Execute) < Height(nodes, Start(nodes), Execute)
      ensures Settled(nodes[i], k, Execute, w).Ok? && Chosen(nodes, nodes[i], k, Execute, w).Ok?
    {
      VisitGoesThrough(nodes, nodes[i], k, w);
    }
    WalkGoesThrough(nodes, [], Start(nodes), Execute, w);
    ChainRefinesWalk(nodes, path, Execute, w);
  }

  lemma {:induction false} VisitGoesThrough(nodes: Store, n: Node, k: nat, w: World)
    requires NeverAborts(w)
    ensures Settled(n, k, Execute, w).Ok? && Chosen(nodes, n, k, Execute, w).Ok?
  {
    var saved := SavedOp(n, k, w);
    assert !w.execute(k, n.op).Panic? && !w.satisfied(k, saved).Panic? && w.commit(k, saved).Ok?;
  }
}
