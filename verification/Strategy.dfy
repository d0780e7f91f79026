/** The strategy contract: initialising a node list, and processing it one message at a time. */
module Strategies {
  import opened Outcomes
  import opened Money
  import opened Graph
  import opened Nodes
  import opened Traversal

  /** What a `Process` call answers: it goes on after the messages, it is done and reports its path, or it reverts. */
  datatype Response = Continue(messages: seq<Message>, previous: nat) | Done(path: seq<nat>) | Reverted

  class Strategy {
    var nodes: Store
    var path: seq<nat>
    /** Length of the list that `Init` accepted last; the contract does not store it. */
    ghost var current: nat

    ghost predicate Valid()
      reads this
    {
      Layered(nodes, current)
    }

    constructor ()
      ensures Valid() && nodes == map[] && current == 0
    {
      nodes, path, current := map[], [], 0;
      new;
      EmptyIsLayered();
    }

    /**
     * `NodeStore::init`. Accepts exactly the lists that pass the per-node checks and the size limit and whose edges
     * form no cycle, then overwrites the entries it has nodes for. A rejected call leaves storage as it was.
     */
    method Init(list: seq<Node>, init: Initialiser) returns (ok: bool)
      requires Valid()
      modifies this
      ensures Valid() && path == old(path)
      ensures ok <==> Accepted(list, init)
      ensures ok ==> nodes == old(nodes) + Entries(InitNodes(list, init)) && current == |list|
      ensures !ok ==> nodes == old(nodes) && current == old(current)
    {
      var before := nodes;
      var adjacent: Adjacency, inDegrees: seq<nat>;
      ok, adjacent, inDegrees := Admit(list, init);
      if ok {
        AcceptedList(list, init);
        ok := Kahn(adjacent, inDegrees);
      }
      if ok {
        LayeringKept(before, InitNodes(list, init));
        current := |list|;
      } else {
        nodes := before; // the chain discards the writes of a failed call
      }
    }

    /** The first loop of `init`: checks each node, records its edges, initialises and saves it, adds up the sizes. */
    method Admit(list: seq<Node>, init: Initialiser) returns (ok: bool, adjacent: Adjacency, inDegrees: seq<nat>)
      modifies this`nodes
      ensures ok <==> PassesChecks(list, init)
      ensures ok ==> nodes == old(nodes) + Entries(InitNodes(list, init))
      ensures ok ==> adjacent == Adjacencies(list) && |inDegrees| == |list|
      ensures ok ==> forall v: nat :: v < |list| ==> inDegrees[v] == Degree(Adjacencies(list), {}, |list|, v)
    {
      adjacent := seq(|list|, i => []);
      inDegrees := seq(|list|, i => 0);
      ok := true;
      var size: nat := 0;
      for i := 0 to |list|
        invariant Admitted(list, init, i, adjacent, inDegrees, size)
        invariant |list| <= MAX_STRATEGY_SIZE ==> nodes == old(nodes) + Prefix(list, init, i)
      {
        ghost var a, d := adjacent, inDegrees;
        var added;
        ok, adjacent, inDegrees, added := AdmitNode(list, init, i, adjacent, inDegrees);
        if !ok {
          return;
        }
        LinkedNext(list, i, a, d, inDegrees);
        AdmittedNext(list, init, i, a, d, size, adjacent, inDegrees, added);
        size := size + added;
        if |list| <= MAX_STRATEGY_SIZE {
          PrefixExtends(old(nodes), list, init, i);
        }
      }
      AdmittedAll(list, init, adjacent, inDegrees, size);
      ok := size <= MAX_STRATEGY_SIZE;
      if ok {
        PrefixIsAll(list, init);
      }
    }

    /** One node of that loop. Storage keys are 16 bits wide, and so is the index a position is compared with. */
    method AdmitNode(list: seq<Node>, init: Initialiser, i: nat, adjacent: Adjacency, inDegrees: seq<nat>)
      returns (ok: bool, adjacent': Adjacency, inDegrees': seq<nat>, size: nat)
      requires i < |list| == |adjacent| == |inDegrees| && adjacent[i] == []
      modifies this`nodes
      ensures ok <==> NodeChecks(list, i) && init(i, list[i].op).Ok?
      ensures ok ==> adjacent' == adjacent[i := Targets(list[i])] && |inDegrees'| == |list|
      ensures ok ==> forall v: nat :: v < |list| ==> inDegrees'[v] == inDegrees[v] + Count(Targets(list[i]), v)
      ensures ok ==> var saved := list[i].(op := init(i, list[i].op).value);
                nodes == old(nodes)[i % U16 := saved] && size == saved.op.Size()
    {
      var node := list[i];
      ok, adjacent', inDegrees', size := false, adjacent, inDegrees, 0;
      if node.index != i % U16 {
        return;
      }
      var targets := Targets(node);
      if node.Condition? && targets == [] && !node.op.Schedule? {
        return;
      }
      var inRange;
      inRange, adjacent', inDegrees' := Connect(adjacent, inDegrees, i, targets, FinalIndex(|list|));
      if !inRange {
        return;
      }
      var initialised := init(i, node.op);
      if !initialised.Ok? {
        return;
      }
      var saved := node.(op := initialised.value);
      nodes := nodes[saved.index := saved];
      ok, size := true, saved.op.Size();
    }

    /** One `Process` message: the step that `Traversal.Process` describes, applied to storage. */
    method Process(mode: Mode, previous: Option<nat>, w: World) returns (response: Response)
      requires Valid()
      modifies this`nodes, this`path
      ensures Valid()
      ensures Matches(Traversal.Process(old(nodes), old(path), previous, mode, w), old(nodes), old(path), response,
          nodes, path)
    {
      var before := nodes;
      var walked: seq<nat> := if previous.Some? then path else [];
      var next := Start(nodes);
      if previous.Some? {
        if previous.value !in nodes || path == [] {
          return Reverted;
        }
        var resumed := ResumeStored(previous.value, mode, w);
        if !resumed.Ok? {
          return Reverted;
        }
        ProcessResumes(before, path, previous.value, mode, w);
        next := resumed.value;
      }
      response := Proceed(walked, next, mode, w);
      if response.Reverted? {
        nodes := before; // the chain discards the writes of a failed call
      } else {
        LayersKept(before, nodes, current);
      }
    }

    /** The loop: visits nodes until one emits messages or fails, or none is next. */
    method Proceed(start: seq<nat>, at: Option<nat>, mode: Mode, w: World) returns (response: Response)
      requires Ready(nodes, at)
      modifies this`nodes, this`path
      ensures var r := ProcessFrom(old(nodes), start, at, mode, w);
        Ends(r, old(nodes), old(path), response, nodes, path)
    {
      var walked, next := start, at;
      var ended: Option<Response> := None;
      ghost var goal := ProcessFrom(nodes, walked, next, mode, w);
      while next.Some? && ended.None?
        invariant ended.None? ==>
            Ready(nodes, next) && path == old(path) && ProcessFrom(nodes, walked, next, mode, w) == goal
        invariant ended.Some? ==> Ends(goal, old(nodes), old(path), ended.value, nodes, path)
        decreases ended.None?, if ended.None? then Height(nodes, next, mode) else 0
      {
        TurnIsProcess(nodes, walked, next.value, mode, w);
        ended, next, walked := Advance(walked, next.value, mode, w);
      }
      response := if ended.Some? then ended.value else Done(walked);
    }

    /** One turn of the loop: visits node `i`, then ends the call or chooses the next node. */
    method Advance(start: seq<nat>, i: nat, mode: Mode, w: World)
      returns (ended: Option<Response>, next: Option<nat>, walked: seq<nat>)
      requires WellFormed(nodes) && i in nodes
      modifies this`nodes, this`path
      ensures match TurnOf(old(nodes), start, i, mode, w)
        case Ok(Waiting(nodes', path', messages)) => ended == Some(Continue(messages, i)) && nodes == nodes' &&
            path == path'
        case Ok(Going(nodes', path', next')) =>
          ended == None && nodes == nodes' && path == old(path) && walked == path' && next == next'
        case _ => ended == Some(Reverted) && path == old(path)
    {
      var k := |start|;
      ended, walked, next := None, start + [i], None;
      var visited := VisitStored(i, k, mode, w);
      if !visited.Ok? {
        ended := Some(Reverted);
      } else if visited.value.waits {
        path := walked;
        ended := Some(Continue(visited.value.messages, i));
      } else {
        var chosen := GetNext(nodes, visited.value.saved, k, mode, w);
        if chosen.Ok? {
          next := chosen.value;
        } else {
          ended := Some(Reverted);
        }
      }
    }

    /** Chooses the node after the one that paused, then commits that one and saves it. */
    method ResumeStored(i: nat, mode: Mode, w: World) returns (r: Outcome<Option<nat>>)
      requires WellFormed(nodes) && i in nodes && path != []
      modifies this`nodes
      ensures var resumed := Resume(old(nodes), path, i, mode, w);
        && (resumed.Ok? ==>
            r == Ok(resumed.value.1) && nodes == resumed.value.0 && Ready(nodes, r.value) &&
            Shape(nodes) == Shape(old(nodes)))
        && (!resumed.Ok? ==> r == resumed.PropagateFailure() && nodes == old(nodes))
    {
      var k := |path| - 1;
      var chosen := GetNext(nodes, nodes[i], k, mode, w);
      if !chosen.Ok? {
        return chosen.PropagateFailure();
      }
      var committed := CommitNode(nodes[i], k, w);
      if !committed.Ok? {
        return committed.PropagateFailure();
      }
      ResumeIsReady(nodes, path, i, mode, w);
      nodes := nodes[i := committed.value];
      r := Ok(chosen.value);
    }

    /** Executes or cancels a stored node and saves the result; an error saves the node as it was. */
    method VisitStored(i: nat, k: nat, mode: Mode, w: World) returns (r: Outcome<Visited>)
      requires WellFormed(nodes) && i in nodes
      modifies this`nodes
      ensures r == Visit(old(nodes)[i], k, mode, w)
      ensures !r.Ok? ==> nodes == old(nodes)
      ensures r.Ok? ==>
          nodes == old(nodes)[i := r.value.saved] && WellFormed(nodes) && Shape(nodes) == Shape(old(nodes))
      ensures r.Ok? ==> forall j :: j in nodes ==> Left(nodes, j, mode) == Left(old(nodes), j, mode)
    {
      var currentNode := nodes[i];
      var result := Perform(currentNode, k, mode, w);
      match result {
        case Panic =>
          r := Panic;
        case Err =>
          SaveKeeps(nodes, i, currentNode, mode);
          nodes := nodes[i := currentNode];
          r := Ok(Visited(currentNode, [], true));
        case Ok((messages, saved)) =>
          SaveKeeps(nodes, i, saved, mode);
          nodes := nodes[i := saved];
          r := Ok(Visited(saved, messages, messages != []));
      }
    }
  }

  /** The response and the storage that go with the outcome of a call. */
  ghost predicate Matches(r: Outcome<Step>, before: Store, pathBefore: seq<nat>, response: Response, nodes: Store,
                          path: seq<nat>)
  {
    match r
    case Ok(Finished(nodes', path')) => response == Done(path') && nodes == nodes' && path == pathBefore
    case Ok(Paused(nodes', path', i, messages)) => response == Continue(messages, i) && nodes == nodes' && path == path'
    case _ => response == Reverted && nodes == before && path == pathBefore
  }

  /** The same before a reverted call has its writes discarded. */
  ghost predicate Ends(r: Outcome<Step>, before: Store, pathBefore: seq<nat>, response: Response, nodes: Store,
                       path: seq<nat>)
  {
    if r.Ok? then Matches(r, before, pathBefore, response, nodes, path) else response == Reverted && path == pathBefore
  }

  /** Records the edges out of node `i`, unless one of them leaves the list. */
  method Connect(adjacent: Adjacency, inDegrees: seq<nat>, i: nat, targets: seq<nat>, finalIndex: nat)
    returns (ok: bool, adjacent': Adjacency, inDegrees': seq<nat>)
    requires i < |adjacent| == |inDegrees| && finalIndex < |adjacent| && adjacent[i] == []
    ensures ok <==> forall k :: 0 <= k < |targets| ==> targets[k] <= finalIndex
    ensures ok ==> adjacent' == adjacent[i := targets] && |inDegrees'| == |inDegrees|
    ensures ok ==> forall v: nat :: v < |inDegrees| ==> inDegrees'[v] == inDegrees[v] + Count(targets, v)
  {
    adjacent', inDegrees' := adjacent, inDegrees;
    for m := 0 to |targets|
      invariant |inDegrees'| == |inDegrees| && adjacent' == adjacent[i := targets[..m]]
      invariant forall k :: 0 <= k < m ==> targets[k] <= finalIndex
      invariant forall v: nat :: v < |inDegrees| ==> inDegrees'[v] == inDegrees[v] + Count(targets[..m], v)
    {
      var target := targets[m];
      if target > finalIndex {
        return false, adjacent', inDegrees';
      }
      assert targets[..m + 1] == targets[..m] + [target];
      forall v: nat | v < |inDegrees| { CountAppend(targets[..m], target, v); }
      adjacent' := adjacent'[i := adjacent'[i] + [target]];
      inDegrees' := inDegrees'[target := inDegrees'[target] + 1];
    }
    assert targets[..|targets|] == targets;
    ok := true;
  }

  function Prefix(list: seq<Node>, init: Initialiser, n: nat): Store
    requires n <= |list| && forall i :: 0 <= i < n ==> init(i, list[i].op).Ok?
  {
    map i: nat | 0 <= i < n :: list[i].(op := init(i, list[i].op).value)
  }

  /** What the first loop has gathered from the first `i` nodes. */
  ghost predicate Admitted(list: seq<Node>, init: Initialiser, i: nat, adjacent: Adjacency, inDegrees: seq<nat>,
                           size: nat)
  {
    && i <= |list|
    && (forall j :: 0 <= j < i ==> NodeChecks(list, j) && init(j, list[j].op).Ok?)
    && Linked(list, i, adjacent, inDegrees)
    && size == TotalSize(list, init, i)
  }

  ghost predicate Linked(list: seq<Node>, i: nat, adjacent: Adjacency, inDegrees: seq<nat>)
    requires i <= |list|
  {
    && |list| == |adjacent| == |inDegrees|
    && (forall j :: 0 <= j < |list| ==> adjacent[j] == if j < i then Targets(list[j]) else [])
    && (forall v: nat :: v < |list| ==> inDegrees[v] == Degree(Adjacencies(list), {}, i, v))
  }

  lemma {:induction false} LinkedNext(list: seq<Node>, i: nat, adjacent: Adjacency, inDegrees: seq<nat>,
                                      inDegrees': seq<nat>)
    requires i < |list| && Linked(list, i, adjacent, inDegrees) && |inDegrees'| == |list|
    requires forall v: nat :: v < |list| ==> inDegrees'[v] == inDegrees[v] + Count(Targets(list[i]), v)
    ensures Linked(list, i + 1, adjacent[i := Targets(list[i])], inDegrees')
  {
    forall v: nat | v < |list| ensures inDegrees'[v] == Degree(Adjacencies(list), {}, i + 1, v) {
      DegreeStep(Adjacencies(list), i, v);
    }
  }

  lemma {:induction false} AdmittedNext(list: seq<Node>, init: Initialiser, i: nat, adjacent: Adjacency,
                                        inDegrees: seq<nat>, size: nat, adjacent': Adjacency, inDegrees': seq<nat>,
                                        added: nat)
    requires i < |list| && Admitted(list, init, i, adjacent, inDegrees, size)
    requires NodeChecks(list, i) && init(i, list[i].op).Ok? && added == init(i, list[i].op).value.Size()
    requires Linked(list, i + 1, adjacent', inDegrees')
    ensures Admitted(list, init, i + 1, adjacent', inDegrees', size + added)
  {
  }

  lemma {:induction false} AdmittedAll(list: seq<Node>, init: Initialiser, adjacent: Adjacency, inDegrees: seq<nat>,
                                       size: nat)
    requires Admitted(list, init, |list|, adjacent, inDegrees, size)
    ensures adjacent == Adjacencies(list)
    ensures PassesChecks(list, init) <==> size <= MAX_STRATEGY_SIZE
    ensures size <= MAX_STRATEGY_SIZE ==> |list| <= MAX_STRATEGY_SIZE
  {
    SizeBoundsCount(list, init, |list|);
  }

  lemma {:induction false} DegreeStep(g: Adjacency, i: nat, v: nat)
    requires i < |g|
    ensures Degree(g, {}, i + 1, v) == Degree(g, {}, i, v) + Count(g[i], v)
  {
  }

  lemma {:induction false} PrefixExtends(base: Store, list: seq<Node>, init: Initialiser, i: nat)
    requires i < |list| <= MAX_STRATEGY_SIZE && forall j :: 0 <= j <= i ==> init(j, list[j].op).Ok?
    ensures (base + Prefix(list, init, i))[i % U16 := list[i].(op := init(i, list[i].op).value)] ==
        base + Prefix(list, init, i + 1)
  {
  }

  lemma {:induction false} PrefixIsAll(list: seq<Node>, init: Initialiser)
    requires forall j :: 0 <= j < |list| ==> init(j, list[j].op).Ok?
    ensures Prefix(list, init, |list|) == Entries(InitNodes(list, init))
  {
  }

  lemma {:induction false} LayersKept(nodes: Store, nodes': Store, current: nat)
    requires Layered(nodes, current) && WellFormed(nodes') && Shape(nodes') == Shape(nodes)
    ensures Layered(nodes', current)
  {
    assert |nodes'| == |Shape(nodes')| && |nodes| == |Shape(nodes)|;
  }
}
