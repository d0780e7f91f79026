/** Strategy nodes, the operations they hold, and what the rest of the chain answers while they run. */
module Nodes {
  import opened Outcomes
  import opened Money
  import opened Graph
  import Schedules
  import LimitOrders
  import Distributions

  const U16: nat := 0x1_0000
  const MAX_STRATEGY_SIZE: nat := 50

  /** What a node does. `Check` stands for the conditions that only look, of size one or two. */
  datatype Operation =
    | Swap(routes: nat)
    | Distribute(distribution: Distributions.Distribution)
    | LimitOrder(order: LimitOrders.LimitOrder)
    | Schedule(schedule: Schedules.Schedule)
    | Check(large: bool)
  {
    function Size(): (n: nat)
      ensures n >= 1
    {
      match this
      case Swap(routes) => routes * 4 + 1
      case Distribute(d) => |d.destinations| + 1
      case LimitOrder(_) => 4
      case Schedule(_) => 2
      case Check(large) => if large then 2 else 1
    }
  }

  datatype Node =
    | Action(op: Operation, index: nat, next: Option<nat>)
    | Condition(op: Operation, index: nat, onSuccess: Option<nat>, onFailure: Option<nat>)

  datatype Mode = Execute | Cancel

  /**
   * Everything a run cannot know in advance, keyed by the position of the visit in the run: what executing or
   * cancelling an operation yields, whether a condition then holds, and what committing it yields.
   */
  datatype World = World(
    execute: (nat, Operation) -> Outcome<(seq<Message>, Operation)>,
    cancel: (nat, Operation) -> Outcome<(seq<Message>, Operation)>,
    satisfied: (nat, Operation) -> Outcome<bool>,
    commit: (nat, Operation) -> Outcome<Operation>)

  function Optional(x: Option<nat>): seq<nat> {
    if x.Some? then [x.value] else []
  }

  /** The edges out of a node; a condition may name the same target on both sides. */
  function Targets(n: Node): seq<nat> {
    if n.Action? then Optional(n.next) else Optional(n.onSuccess) + Optional(n.onFailure)
  }

  function WithOp(n: Node, op: Operation): Node {
    n.(op := op)
  }

  predicate SameEdges(n: Node, n': Node) {
    n' == WithOp(n, n'.op)
  }

  function Perform(n: Node, k: nat, mode: Mode, w: World): (r: Outcome<(seq<Message>, Node)>)
    ensures r.Ok? ==> SameEdges(n, r.value.1)
  {
    var (messages, op) :- if mode.Execute? then w.execute(k, n.op) else w.cancel(k, n.op);
    Ok((messages, n.(op := op)))
  }

  function CommitNode(n: Node, k: nat, w: World): (r: Outcome<Node>)
    ensures r.Ok? ==> SameEdges(n, r.value)
  {
    var op :- w.commit(k, n.op);
    Ok(n.(op := op))
  }

  /** The edge a node takes; a condition that cannot be evaluated counts as not satisfied. */
  function NextIndex(n: Node, k: nat, w: World): Outcome<Option<nat>> {
    match n
    case Action(_, _, next) => Ok(next)
    case Condition(op, _, onSuccess, onFailure) =>
      match w.satisfied(k, op)
      case Panic => Panic
      case Err => Ok(onFailure)
      case Ok(yes) => Ok(if yes then onSuccess else onFailure)
  }

  type Store = map<nat, Node>

  function Present(nodes: Store, i: Option<nat>): Option<nat> {
    if i.Some? && i.value in nodes then i else None
  }

  /** Execute follows the node's edge, cancel goes to the next index; a node that is not stored ends the run. */
  function GetNext(nodes: Store, n: Node, k: nat, mode: Mode, w: World): Outcome<Option<nat>> {
    if mode.Cancel? then
      if n.index + 1 >= U16 then Panic else Ok(Present(nodes, Some(n.index + 1)))
    else
      var next :- NextIndex(n, k, w);
      Ok(Present(nodes, next))
  }

  // ---- Node lists as submitted, and the stored graph ----

  function Adjacencies(nodes: seq<Node>): (g: Adjacency)
    ensures |g| == |nodes| && forall i :: 0 <= i < |nodes| ==> g[i] == Targets(nodes[i])
  {
    seq(|nodes|, i requires 0 <= i < |nodes| => Targets(nodes[i]))
  }

  type Initialiser = (nat, Operation) -> Outcome<Operation>

  function FinalIndex(n: nat): nat {
    (if n == 0 then 0 else n - 1) % U16
  }

  predicate NodeChecks(nodes: seq<Node>, i: nat)
    requires i < |nodes|
  {
    && nodes[i].index == i % U16
    && (forall k :: 0 <= k < |Targets(nodes[i])| ==> Targets(nodes[i])[k] <= FinalIndex(|nodes|))
    && (nodes[i].Condition? && Targets(nodes[i]) == [] ==> nodes[i].op.Schedule?)
  }

  function TotalSize(nodes: seq<Node>, init: Initialiser, n: nat): nat
    requires n <= |nodes| && forall i :: 0 <= i < n ==> init(i, nodes[i].op).Ok?
  {
    if n == 0 then 0 else TotalSize(nodes, init, n - 1) + init(n - 1, nodes[n - 1].op).value.Size()
  }

  lemma {:induction false} SizeBoundsCount(nodes: seq<Node>, init: Initialiser, n: nat)
    requires n <= |nodes| && forall i :: 0 <= i < n ==> init(i, nodes[i].op).Ok?
    ensures TotalSize(nodes, init, n) >= n
  {
    if n > 0 {
      SizeBoundsCount(nodes, init, n - 1);
    }
  }

  /** The per-node checks, each node's own init, and the size limit. */
  predicate PassesChecks(nodes: seq<Node>, init: Initialiser) {
    && (forall i :: 0 <= i < |nodes| ==> NodeChecks(nodes, i) && init(i, nodes[i].op).Ok?)
    && TotalSize(nodes, init, |nodes|) <= MAX_STRATEGY_SIZE
  }

  /** A list is accepted when it passes the checks and its edges form no directed cycle. */
  ghost predicate Accepted(nodes: seq<Node>, init: Initialiser) {
    PassesChecks(nodes, init) && Acyclic(Adjacencies(nodes))
  }

  /** Every edge the node names stays inside a list of `n` nodes. */
  predicate EdgesInside(n: Node, count: nat) {
    match n
    case Action(_, _, next) => next.Some? ==> next.value < count
    case Condition(_, _, onSuccess, onFailure) =>
      (onSuccess.Some? ==> onSuccess.value < count) && (onFailure.Some? ==> onFailure.value < count)
  }

  /** Weights of the operations; a list may weigh fifty in all. */
  function Weight(op: Operation): nat {
    match op
    case Swap(routes) => 1 + 4 * routes
    case Distribute(d) => 1 + |d.destinations|
    case LimitOrder(_) => 4
    case Schedule(_) => 2
    case Check(large) => if large then 2 else 1
  }

  function Weights(nodes: seq<Node>): nat {
    if nodes == [] then 0 else Weights(nodes[..|nodes| - 1]) + Weight(nodes[|nodes| - 1].op)
  }

  lemma {:induction false} SizeIsWeight(nodes: seq<Node>, init: Initialiser, n: nat)
    requires n <= |nodes| && forall i :: 0 <= i < |nodes| ==> init(i, nodes[i].op).Ok?
    ensures TotalSize(nodes, init, n) == Weights(InitNodes(nodes, init)[..n])
  {
    if n > 0 {
      SizeIsWeight(nodes, init, n - 1);
      assert InitNodes(nodes, init)[..n][..n - 1] == InitNodes(nodes, init)[..n - 1];
    }
  }

  /** Position and index agree, edges stay inside, and a condition that leads nowhere is a schedule. */
  predicate Checked(nodes: seq<Node>, i: nat)
    requires i < |nodes|
  {
    && nodes[i].index == i && EdgesInside(nodes[i], |nodes|)
    && (nodes[i].Condition? && nodes[i].onSuccess.None? && nodes[i].onFailure.None? ==> nodes[i].op.Schedule?)
  }

  /**
   * What makes a list acceptable, said with the nodes' own fields: every node passes its checks and initialises, what
   * comes out weighs at most fifty, and the edges form no cycle.
   */
  lemma {:induction false} AcceptedExactly(nodes: seq<Node>, init: Initialiser)
    ensures Accepted(nodes, init) <==>
            && (forall i :: 0 <= i < |nodes| ==> Checked(nodes, i) && init(i, nodes[i].op).Ok?)
            && Weights(InitNodes(nodes, init)) <= 50
            && Acyclic(Adjacencies(nodes))
  {
    if forall i :: 0 <= i < |nodes| ==> init(i, nodes[i].op).Ok? {
      SizeIsWeight(nodes, init, |nodes|);
      SizeBoundsCount(nodes, init, |nodes|);
      assert InitNodes(nodes, init)[..|nodes|] == InitNodes(nodes, init);
      if |nodes| <= MAX_STRATEGY_SIZE {
        forall i | 0 <= i < |nodes| ensures NodeChecks(nodes, i) <==> Checked(nodes, i) {
          ChecksExactly(nodes, i);
        }
      }
    }
  }

  lemma {:induction false} ChecksExactly(nodes: seq<Node>, i: nat)
    requires i < |nodes| <= MAX_STRATEGY_SIZE
    ensures NodeChecks(nodes, i) <==> Checked(nodes, i)
  {
    var n := nodes[i];
    if NodeChecks(nodes, i) && n.Action? && n.next.Some? {
      assert Targets(n)[0] == n.next.value;
    }
    if NodeChecks(nodes, i) && n.Condition? && n.onSuccess.Some? {
      assert Targets(n)[0] == n.onSuccess.value;
    }
    if NodeChecks(nodes, i) && n.Condition? && n.onFailure.Some? {
      assert Targets(n)[|Targets(n)| - 1] == n.onFailure.value;
    }
  }

  /** The nodes of a list after each has been initialised. */
  function InitNodes(nodes: seq<Node>, init: Initialiser): (listed: seq<Node>)
    requires forall i :: 0 <= i < |nodes| ==> init(i, nodes[i].op).Ok?
    ensures |listed| == |nodes|
    ensures forall i :: 0 <= i < |nodes| ==> listed[i] == nodes[i].(op := init(i, nodes[i].op).value)
  {
    seq(|nodes|, i requires 0 <= i < |nodes| => nodes[i].(op := init(i, nodes[i].op).value))
  }

  /** A list as storage entries. */
  function Entries(listed: seq<Node>): (entries: Store)
    ensures forall i: nat :: i in entries <==> i < |listed|
    ensures forall i: nat :: i < |listed| ==> entries[i] == listed[i]
  {
    map i: nat | 0 <= i < |listed| :: listed[i]
  }

  predicate Gapless(nodes: Store) {
    && (forall i :: i in nodes ==> i < |nodes| && nodes[i].index == i)
    && (forall i :: 0 <= i < |nodes| ==> i in nodes)
  }

  function Shape(nodes: Store): (g: Adjacency)
    requires Gapless(nodes)
    ensures |g| == |nodes| && forall i :: 0 <= i < |g| ==> g[i] == Targets(nodes[i])
  {
    seq(|nodes|, i requires 0 <= i < |nodes| => Targets(nodes[i]))
  }

  /** Indices without gaps, edges that stay inside, no directed cycle, and at most fifty nodes. */
  ghost predicate WellFormed(nodes: Store) {
    && Gapless(nodes)
    && |nodes| <= MAX_STRATEGY_SIZE
    && Closed(Shape(nodes))
    && Ranked(Shape(nodes))
  }

  ghost predicate ClosedBelow(g: Adjacency, n: nat) {
    forall u: nat, v: nat :: u < n && Edge(g, u, v) ==> v < n
  }

  /** The first `current` nodes are those of the latest list; their edges never leave them. */
  ghost predicate Layered(nodes: Store, current: nat) {
    && WellFormed(nodes)
    && current <= |nodes|
    && ClosedBelow(Shape(nodes), current)
  }

  lemma {:induction false} EmptyIsLayered()
    ensures Layered(map[], 0)
  {
    var nodes: Store := map[];
    HasRank(Shape(nodes), []);
  }

  /** Saving a node whose edges and index are those of the stored one leaves the graph as it was. */
  lemma {:induction false} SaveKeepsShape(nodes: Store, i: nat, n: Node)
    requires Gapless(nodes) && i in nodes && SameEdges(nodes[i], n)
    ensures Gapless(nodes[i := n]) && Shape(nodes[i := n]) == Shape(nodes)
    ensures |nodes[i := n]| == |nodes|
  {
    assert nodes[i := n].Keys == nodes.Keys;
    assert |nodes[i := n]| == |nodes[i := n].Keys| && |nodes| == |nodes.Keys|;
  }

  // ---- An accepted list on top of what was stored ----

  lemma {:induction false} Bounded(rank: seq<nat>) returns (top: nat)
    ensures forall i :: 0 <= i < |rank| ==> rank[i] < top
  {
    if rank == [] {
      top := 0;
    } else {
      var t := Bounded(rank[..|rank| - 1]);
      var last := rank[|rank| - 1];
      top := Max(t, last + 1);
      forall i | 0 <= i < |rank| ensures rank[i] < top {
        if i < |rank| - 1 { assert rank[..|rank| - 1][i] < t; }
      }
    }
  }

  lemma {:induction false} KeysBelow(m: Store, n: nat)
    requires forall i: nat :: i in m <==> i < n
    ensures |m| == n
  {
    var all := Range(n);
    assert m.Keys == all;
  }

  lemma {:induction false} MergedKeys(nodes: Store, listed: seq<Node>)
    requires Gapless(nodes)
    ensures |nodes + Entries(listed)| == Max(|nodes|, |listed|)
    ensures forall i: nat :: i in nodes + Entries(listed) <==> i < Max(|nodes|, |listed|)
  {
    KeysBelow(nodes + Entries(listed), Max(|nodes|, |listed|));
  }

  lemma {:induction false} MergedIsGapless(nodes: Store, listed: seq<Node>)
    requires Gapless(nodes) && forall i :: 0 <= i < |listed| ==> listed[i].index == i
    ensures Gapless(nodes + Entries(listed))
  {
    MergedKeys(nodes, listed);
  }

  /**
   * Layering: writing a list over a well-formed store keeps the whole stored graph, leftovers of longer old lists
   * included, gapless and acyclic, with the new list closed under its own edges.
   */
  lemma {:induction false} LayeringKept(nodes: Store, listed: seq<Node>)
    requires WellFormed(nodes) && |listed| <= MAX_STRATEGY_SIZE
    requires forall i :: 0 <= i < |listed| ==> listed[i].index == i
    requires Closed(Adjacencies(listed)) && Ranked(Adjacencies(listed))
    ensures Layered(nodes + Entries(listed), |listed|)
  {
    MergedIsGapless(nodes, listed);
    MergedShape(nodes, listed);
    ShapesMerge(Shape(nodes + Entries(listed)), Shape(nodes), Adjacencies(listed));
  }

  lemma {:induction false} MergedShape(nodes: Store, listed: seq<Node>)
    requires Gapless(nodes) && Gapless(nodes + Entries(listed))
    ensures Merges(Shape(nodes + Entries(listed)), Shape(nodes), Adjacencies(listed))
  {
    MergedKeys(nodes, listed);
    forall i | 0 <= i < |nodes + Entries(listed)|
      ensures Shape(nodes + Entries(listed))[i] == if i < |listed| then Adjacencies(listed)[i] else Shape(nodes)[i]
    {
      MergedAt(nodes, listed, i);
    }
  }

  lemma {:induction false} MergedAt(nodes: Store, listed: seq<Node>, i: nat)
    requires i in nodes + Entries(listed)
    ensures (nodes + Entries(listed))[i] == if i < |listed| then listed[i] else nodes[i]
  {
  }

  /** `g` has the edges of `listed` on its vertices and those of `stored` on the others. */
  predicate Merges(g: Adjacency, stored: Adjacency, listed: Adjacency) {
    && |g| == Max(|stored|, |listed|)
    && forall i :: 0 <= i < |g| ==> g[i] == if i < |listed| then listed[i] else stored[i]
  }

  lemma {:induction false} CheckedNode(nodes: seq<Node>, i: nat)
    requires |nodes| <= MAX_STRATEGY_SIZE && i < |nodes| && NodeChecks(nodes, i)
    ensures nodes[i].index == i && forall k :: 0 <= k < |Targets(nodes[i])| ==> Targets(nodes[i])[k] < |nodes|
  {
  }

  lemma {:induction false} InitKeepsEdges(nodes: seq<Node>, init: Initialiser)
    requires forall i :: 0 <= i < |nodes| ==> init(i, nodes[i].op).Ok?
    ensures Adjacencies(InitNodes(nodes, init)) == Adjacencies(nodes)
  {
    var listed := InitNodes(nodes, init);
    forall i | 0 <= i < |nodes| ensures Targets(listed[i]) == Targets(nodes[i]) {
    }
  }

  lemma {:induction false} AcceptedList(nodes: seq<Node>, init: Initialiser)
    requires PassesChecks(nodes, init)
    ensures var listed := InitNodes(nodes, init);
      && |listed| <= MAX_STRATEGY_SIZE
      && (forall i :: 0 <= i < |listed| ==> listed[i].index == i)
      && Adjacencies(listed) == Adjacencies(nodes) && Closed(Adjacencies(listed))
  {
    SizeBoundsCount(nodes, init, |nodes|);
    InitKeepsEdges(nodes, init);
    forall i | 0 <= i < |nodes|
      ensures nodes[i].index == i && forall k :: 0 <= k < |Targets(nodes[i])| ==> Targets(nodes[i])[k] < |nodes|
    {
      CheckedNode(nodes, i);
    }
  }

  lemma {:induction false} ShapesMerge(g: Adjacency, stored: Adjacency, listed: Adjacency)
    requires Merges(g, stored, listed) && Ranked(stored) && Ranked(listed) && Closed(stored) && Closed(listed)
    ensures Closed(g) && Ranked(g) && ClosedBelow(g, |listed|)
  {
    forall u, k | 0 <= u < |g| && 0 <= k < |g[u]| ensures g[u][k] < |g| {
      if u < |listed| {
        assert listed[u][k] < |listed|;
      } else {
        assert stored[u][k] < |stored|;
      }
    }
    RanksMerge(g, stored, listed);
  }

  lemma {:induction false} RanksMerge(g: Adjacency, stored: Adjacency, listed: Adjacency)
    requires Merges(g, stored, listed) && Ranked(stored) && Ranked(listed)
    requires forall u, k :: 0 <= u < |g| && 0 <= k < |g[u]| ==> g[u][k] < |g|
    ensures Ranked(g)
  {
    var rn, ro := RankOf(listed), RankOf(stored);
    var top := Bounded(rn);
    var rank: seq<nat> := seq(|g|, i requires 0 <= i < |g| => if i < |listed| then rn[i] else top + ro[i]);
    forall u: nat, v: nat | Edge(g, u, v) ensures v < |g| && rank[v] < rank[u] {
      if u < |listed| {
        assert Edge(listed, u, v);
      } else {
        assert Edge(stored, u, v);
      }
    }
    HasRank(g, rank);
  }

  /** The whole stored graph has no cycle, and nothing the current list reaches is a leftover. */
  lemma {:induction false} LayersAreSafe(nodes: Store, current: nat)
    requires Layered(nodes, current)
    ensures Acyclic(Shape(nodes))
    ensures forall u: nat, v: nat :: u < current && Reaches(Shape(nodes), u, v) ==> v < current
  {
    var rank := RankOf(Shape(nodes));
    RankedIsAcyclic(Shape(nodes), rank);
    forall u: nat, v: nat | u < current && Reaches(Shape(nodes), u, v) ensures v < current {
      ClosedPrefix(Shape(nodes), current, u, v);
    }
  }
}
