/** Directed graphs as adjacency lists, and what Kahn's algorithm decides about them. */
module Graph {

  /** `g[u]` lists the targets of the edges leaving `u`; a target may be listed twice. */
  type Adjacency = seq<seq<nat>>

  ghost predicate Closed(g: Adjacency) {
    forall u, k :: 0 <= u < |g| && 0 <= k < |g[u]| ==> g[u][k] < |g|
  }

  ghost predicate Edge(g: Adjacency, u: nat, v: nat) {
    u < |g| && v in g[u]
  }

  ghost predicate IsWalk(g: Adjacency, p: seq<nat>) {
    forall i :: 0 <= i < |p| - 1 ==> Edge(g, p[i], p[i + 1])
  }

  ghost predicate IsCycle(g: Adjacency, p: seq<nat>) {
    |p| >= 2 && p[0] == p[|p| - 1] && IsWalk(g, p)
  }

  ghost predicate Acyclic(g: Adjacency) {
    forall p: seq<nat> :: !IsCycle(g, p)
  }

  /** Every edge leads to a strictly smaller rank. */
  ghost predicate Ranks(g: Adjacency, rank: seq<nat>) {
    && |rank| == |g|
    && forall u: nat, v: nat :: Edge(g, u, v) ==> v < |g| && rank[v] < rank[u]
  }

  /** Some rank of the graph if it has one. */
  ghost function RankOf(g: Adjacency): seq<nat> {
    if exists rank :: Ranks(g, rank) then
      var rank :| Ranks(g, rank);
      rank
    else []
  }

  ghost predicate Ranked(g: Adjacency) {
    Ranks(g, RankOf(g))
  }

  lemma {:induction false} HasRank(g: Adjacency, rank: seq<nat>)
    requires Ranks(g, rank)
    ensures Ranked(g)
  {
  }

  /** `order` lists every vertex once, sources of edges before their targets. */
  ghost predicate TopologicalOrder(g: Adjacency, order: seq<nat>) {
    && |order| == |g|
    && Distinct(order)
    && (forall i :: 0 <= i < |order| ==> order[i] < |g|)
    && forall i, j :: 0 <= i < |order| && 0 <= j < |order| && Edge(g, order[i], order[j]) ==> i < j
  }

  ghost predicate Distinct(p: seq<nat>) {
    forall i, j :: 0 <= i < j < |p| ==> p[i] != p[j]
  }

  ghost function Range(n: nat): (s: set<nat>)
    ensures forall i: nat :: i in s <==> i < n
    ensures |s| == n
  {
    if n == 0 then {} else Range(n - 1) + {n - 1}
  }

  ghost function Elements(p: seq<nat>): set<nat> {
    set x | x in p
  }

  lemma {:induction false} DistinctCount(p: seq<nat>)
    requires Distinct(p)
    ensures |Elements(p)| == |p|
  {
    if p == [] {
      assert Elements(p) == {};
    } else {
      var q := p[..|p| - 1];
      DistinctCount(q);
      assert p == q + [p[|p| - 1]];
      assert Elements(p) == Elements(q) + {p[|p| - 1]};
    }
  }

  lemma {:induction false} SubsetCount(a: set<nat>, b: set<nat>)
    requires a <= b
    ensures |a| <= |b|
    ensures |a| == |b| ==> a == b
  {
    assert b == a + (b - a);
  }

  /** A list of distinct vertices below `n` is no longer than `n`, and if it is that long it has them all. */
  lemma {:induction false} DistinctBelow(p: seq<nat>, n: nat)
    requires Distinct(p) && forall i :: 0 <= i < |p| ==> p[i] < n
    ensures |p| <= n
    ensures |p| == n ==> forall x: nat :: x < n ==> x in p
  {
    DistinctCount(p);
    SubsetCount(Elements(p), Range(n));
    if |p| == n {
      forall x: nat | x < n ensures x in p { assert x in Elements(p); }
    }
  }

  lemma {:induction false} Pigeonhole(p: seq<nat>, s: set<nat>) returns (i: nat, j: nat)
    requires (forall k :: 0 <= k < |p| ==> p[k] in s) && |p| > |s|
    ensures i < j < |p| && p[i] == p[j]
  {
    if Distinct(p) {
      DistinctCount(p);
      SubsetCount(Elements(p), s);
      assert false;
    }
    i, j :| 0 <= i < j < |p| && p[i] == p[j];
  }

  /** Ranks fall by at least one at every step of a walk. */
  lemma {:induction false} WalkDescends(g: Adjacency, rank: seq<nat>, p: seq<nat>, i: nat, j: nat)
    requires Ranks(g, rank) && IsWalk(g, p) && i < j < |p|
    ensures p[i] < |g| && p[j] < |g|
    ensures rank[p[j]] + (j - i) <= rank[p[i]]
    decreases j - i
  {
    assert Edge(g, p[j - 1], p[j]);
    if i + 1 < j {
      WalkDescends(g, rank, p, i, j - 1);
    }
  }

  lemma {:induction false} RankedIsAcyclic(g: Adjacency, rank: seq<nat>)
    requires Ranks(g, rank)
    ensures Acyclic(g)
  {
    forall p: seq<nat> ensures !IsCycle(g, p) {
      if IsCycle(g, p) {
        WalkDescends(g, rank, p, 0, |p| - 1);
      }
    }
  }

  /** No walk in a ranked graph meets a vertex twice. */
  lemma {:induction false} RankedWalkIsDistinct(g: Adjacency, rank: seq<nat>, p: seq<nat>)
    requires Ranks(g, rank) && IsWalk(g, p)
    ensures Distinct(p)
  {
    forall i, j | 0 <= i < j < |p| ensures p[i] != p[j] {
      WalkDescends(g, rank, p, i, j);
    }
  }

  /** A vertex can be reached from another when some walk joins them. */
  ghost predicate Reaches(g: Adjacency, u: nat, v: nat) {
    exists p: seq<nat> :: |p| > 0 && p[0] == u && p[|p| - 1] == v && IsWalk(g, p)
  }

  lemma {:induction false} WalkStaysBelow(g: Adjacency, n: nat, p: seq<nat>, k: nat)
    requires forall u: nat, v: nat :: u < n && Edge(g, u, v) ==> v < n
    requires IsWalk(g, p) && k < |p| && p[0] < n
    ensures p[k] < n
  {
    if k > 0 {
      WalkStaysBelow(g, n, p, k - 1);
      assert Edge(g, p[k - 1], p[k]);
    }
  }

  /** A prefix of the vertices closed under edges reaches nothing outside it. */
  lemma {:induction false} ClosedPrefix(g: Adjacency, n: nat, u: nat, v: nat)
    requires forall a: nat, b: nat :: a < n && Edge(g, a, b) ==> b < n
    requires u < n && Reaches(g, u, v)
    ensures v < n
  {
    var p: seq<nat> :| |p| > 0 && p[0] == u && p[|p| - 1] == v && IsWalk(g, p);
    WalkStaysBelow(g, n, p, |p| - 1);
  }

  ghost predicate HasPredecessor(g: Adjacency, s: set<nat>, v: nat) {
    exists u :: u in s && Edge(g, u, v)
  }

  /** A set in which everything has a predecessor yields walks of any length. */
  lemma {:induction false} BackwardWalk(g: Adjacency, s: set<nat>, len: nat) returns (p: seq<nat>)
    requires s != {}
    requires forall v {:trigger HasPredecessor(g, s, v)} :: v in s ==> HasPredecessor(g, s, v)
    ensures |p| == len + 1 && IsWalk(g, p)
    ensures forall k :: 0 <= k < |p| ==> p[k] in s
  {
    if len == 0 {
      var v :| v in s;
      p := [v];
    } else {
      var q := BackwardWalk(g, s, len - 1);
      assert HasPredecessor(g, s, q[0]);
      var u :| u in s && Edge(g, u, q[0]);
      p := [u] + q;
      WalkPrepend(g, u, q);
    }
  }

  lemma {:induction false} WalkPrepend(g: Adjacency, u: nat, q: seq<nat>)
    requires q != [] && Edge(g, u, q[0]) && IsWalk(g, q)
    ensures IsWalk(g, [u] + q)
  {
    var p := [u] + q;
    forall i | 0 <= i < |p| - 1 ensures Edge(g, p[i], p[i + 1]) {
      if i > 0 { assert Edge(g, q[i - 1], q[i]); }
    }
  }

  lemma {:induction false} PredecessorsMakeACycle(g: Adjacency, s: set<nat>)
    requires s != {}
    requires forall v {:trigger HasPredecessor(g, s, v)} :: v in s ==> HasPredecessor(g, s, v)
    ensures !Acyclic(g)
  {
    var p := BackwardWalk(g, s, |s|);
    var i, j := Pigeonhole(p, s);
    var c := p[i..j + 1];
    assert IsCycle(g, c) by {
      forall k | 0 <= k < |c| - 1 ensures Edge(g, c[k], c[k + 1]) {
        assert Edge(g, p[i + k], p[i + k + 1]);
      }
    }
  }

  /** `order` lists exactly the vertices of `s`, sources of edges before their targets. */
  ghost predicate Orders(g: Adjacency, s: set<nat>, order: seq<nat>) {
    && Elements(order) == s && Distinct(order)
    && forall i, j :: 0 <= i < |order| && 0 <= j < |order| && Edge(g, order[i], order[j]) ==> i < j
  }

  lemma {:induction false} AcyclicOrders(g: Adjacency, s: set<nat>) returns (order: seq<nat>)
    requires Acyclic(g)
    ensures Orders(g, s, order)
    decreases |s|
  {
    if s == {} {
      order := [];
    } else {
      if forall v :: v in s ==> HasPredecessor(g, s, v) {
        PredecessorsMakeACycle(g, s);
        assert false;
      }
      var v :| v in s && !HasPredecessor(g, s, v);
      var rest := AcyclicOrders(g, s - {v});
      order := [v] + rest;
      FirstInOrder(g, s, v, rest);
    }
  }

  lemma {:induction false} FirstInOrder(g: Adjacency, s: set<nat>, v: nat, rest: seq<nat>)
    requires v in s && !HasPredecessor(g, s, v) && Orders(g, s - {v}, rest)
    ensures Orders(g, s, [v] + rest)
  {
    var order := [v] + rest;
    assert forall u :: u in s ==> !Edge(g, u, v);
    assert forall i :: 0 < i < |order| ==> order[i] == rest[i - 1] && rest[i - 1] in Elements(rest);
    forall x ensures x in Elements(order) <==> x in s {
      if x in Elements(rest) {
        var i :| 0 <= i < |rest| && rest[i] == x;
        assert order[i + 1] == x;
      }
      assert order[0] == v;
    }
    forall i, j | 0 <= i < |order| && 0 <= j < |order| && Edge(g, order[i], order[j]) ensures i < j {
      assert order[i] in s;
    }
  }

  /** A graph has no cycle exactly when its vertices can be ranked. */
  lemma {:induction false} AcyclicIffRanked(g: Adjacency)
    requires Closed(g)
    ensures Acyclic(g) <==> Ranked(g)
  {
    if Acyclic(g) {
      var order := AcyclicOrders(g, Range(|g|));
      DistinctCount(order);
      forall i | 0 <= i < |order| ensures order[i] < |g| {
        assert order[i] in Elements(order);
      }
      var rank := OrderGivesRank(g, order);
      HasRank(g, rank);
    }
    if Ranked(g) {
      RankedIsAcyclic(g, RankOf(g));
    }
  }

  /** The position of a vertex counted from the end of a topological order is a rank. */
  lemma {:induction false} OrderGivesRank(g: Adjacency, order: seq<nat>) returns (rank: seq<nat>)
    requires Closed(g) && TopologicalOrder(g, order)
    ensures Ranks(g, rank)
  {
    DistinctBelow(order, |g|);
    rank := seq(|g|, v requires 0 <= v < |g| => |g| - Position(order, v));
    forall u: nat, v: nat | Edge(g, u, v) ensures v < |g| && rank[v] < rank[u] {
      var k :| 0 <= k < |g[u]| && g[u][k] == v;
      assert order[Position(order, u)] == u && order[Position(order, v)] == v;
    }
  }

  ghost function Position(p: seq<nat>, x: nat): (i: nat)
    requires x in p
    ensures i < |p| && p[i] == x
  {
    if p[0] == x then 0 else 1 + Position(p[1..], x)
  }

  // ---- In-degrees, and the worklist that consumes them ----

  function Count(xs: seq<nat>, v: nat): nat {
    if xs == [] then 0 else (if xs[0] == v then 1 else 0) + Count(xs[1..], v)
  }

  lemma {:induction false} CountZero(xs: seq<nat>, v: nat)
    ensures Count(xs, v) == 0 <==> v !in xs
  {
    if xs != [] {
      CountZero(xs[1..], v);
      assert v in xs <==> xs[0] == v || v in xs[1..];
    }
  }

  lemma {:induction false} CountAppend(xs: seq<nat>, x: nat, v: nat)
    ensures Count(xs + [x], v) == Count(xs, v) + (if x == v then 1 else 0)
  {
    if xs == [] {
      assert xs + [x] == [x];
    } else {
      CountAppend(xs[1..], x, v);
      assert (xs + [x])[1..] == xs[1..] + [x];
    }
  }

  /** Number of edges into `v` from the first `n` vertices, those in `done` left out. */
  ghost function Degree(g: Adjacency, done: set<nat>, n: nat, v: nat): nat
    requires n <= |g|
  {
    if n == 0 then 0
    else Degree(g, done, n - 1, v) + if n - 1 in done then 0 else Count(g[n - 1], v)
  }

  lemma {:induction false} DegreeZero(g: Adjacency, done: set<nat>, n: nat, v: nat)
    requires n <= |g|
    ensures Degree(g, done, n, v) == 0 <==> forall u: nat :: u < n && u !in done ==> v !in g[u]
  {
    if n > 0 {
      DegreeZero(g, done, n - 1, v);
      CountZero(g[n - 1], v);
    }
  }

  lemma {:induction false} DegreeWithout(g: Adjacency, done: set<nat>, c: nat, n: nat, v: nat)
    requires n <= |g| && c !in done
    ensures Degree(g, done, n, v) == Degree(g, done + {c}, n, v) + if c < n && c < |g| then Count(g[c], v) else 0
  {
    if n > 0 {
      DegreeWithout(g, done, c, n - 1, v);
    }
  }

  /** The vertices already taken off the stack, and what that says of those still on it. */
  ghost predicate Sorting(g: Adjacency, order: seq<nat>, queue: seq<nat>) {
    && Distinct(order + queue)
    && (forall i :: 0 <= i < |order| ==> order[i] < |g|)
    && (forall i :: 0 <= i < |queue| ==> queue[i] < |g|)
    && (forall i, u: nat :: 0 <= i < |order| && Edge(g, u, order[i]) ==> u in order[..i])
  }

  /** `inDegrees` counts the edges out of unprocessed vertices; the zero ones are processed or on the stack. */
  ghost predicate Counts(g: Adjacency, order: seq<nat>, queue: seq<nat>, inDegrees: seq<nat>) {
    && |inDegrees| == |g|
    && (forall v: nat :: v < |g| ==> inDegrees[v] == Degree(g, Elements(order), |g|, v))
    && (forall v: nat :: v < |g| ==> (inDegrees[v] == 0 <==> v in order + queue))
  }

  /** Midway through the neighbours of `current`: the edges `rest` are still to be discounted. */
  ghost predicate CountsMidway(g: Adjacency, order: seq<nat>, queue: seq<nat>, inDegrees: seq<nat>, rest: seq<nat>) {
    && |inDegrees| == |g|
    && (forall v: nat :: v < |g| ==> inDegrees[v] == Degree(g, Elements(order), |g|, v) + Count(rest, v))
    && (forall v: nat :: v < |g| ==> (inDegrees[v] == 0 <==> v in order + queue))
  }

  lemma {:induction false} TakeVertex(g: Adjacency, order: seq<nat>, queue: seq<nat>, inDegrees: seq<nat>)
    requires Closed(g) && queue != []
    requires Sorting(g, order, queue) && Counts(g, order, queue, inDegrees)
    ensures var c := queue[|queue| - 1];
      && Sorting(g, order + [c], queue[..|queue| - 1])
      && CountsMidway(g, order + [c], queue[..|queue| - 1], inDegrees, g[c])
  {
    TakenIsFree(g, order, queue, inDegrees);
    TakeKeepsSorting(g, order, queue);
    TakeKeepsCounts(g, order, queue, inDegrees);
  }

  /** Every edge into the vertex on top of the stack comes from a processed vertex. */
  lemma {:induction false} TakenIsFree(g: Adjacency, order: seq<nat>, queue: seq<nat>, inDegrees: seq<nat>)
    requires queue != [] && Sorting(g, order, queue) && Counts(g, order, queue, inDegrees)
    ensures forall u: nat :: Edge(g, u, queue[|queue| - 1]) ==> u in order
  {
    var c := queue[|queue| - 1];
    assert (order + queue)[|order| + |queue| - 1] == c;
    DegreeZero(g, Elements(order), |g|, c);
    forall u: nat | Edge(g, u, c) ensures u in order {
      assert u in Elements(order);
    }
  }

  lemma {:induction false} TakeKeepsSorting(g: Adjacency, order: seq<nat>, queue: seq<nat>)
    requires queue != [] && Sorting(g, order, queue)
    requires forall u: nat :: Edge(g, u, queue[|queue| - 1]) ==> u in order
    ensures Sorting(g, order + [queue[|queue| - 1]], queue[..|queue| - 1])
  {
    var order' := order + [queue[|queue| - 1]];
    TakeKeepsDistinct(order, queue);
    forall i, u: nat | 0 <= i < |order'| && Edge(g, u, order'[i]) ensures u in order'[..i] {
      assert order'[..i] == order[..i];
    }
  }

  lemma {:induction false} TakeKeepsCounts(g: Adjacency, order: seq<nat>, queue: seq<nat>, inDegrees: seq<nat>)
    requires queue != [] && Sorting(g, order, queue) && Counts(g, order, queue, inDegrees)
    ensures var c := queue[|queue| - 1];
      CountsMidway(g, order + [c], queue[..|queue| - 1], inDegrees, g[c])
  {
    var c := queue[|queue| - 1];
    TopIsNew(order, queue);
    assert Elements(order + [c]) == Elements(order) + {c};
    forall v: nat | v < |g|
      ensures inDegrees[v] == Degree(g, Elements(order + [c]), |g|, v) + Count(g[c], v)
    {
      DegreeWithout(g, Elements(order), c, |g|, v);
    }
  }

  lemma {:induction false} TopIsNew(order: seq<nat>, queue: seq<nat>)
    requires queue != [] && Distinct(order + queue)
    ensures queue[|queue| - 1] !in order
    ensures forall v: nat :: v in order + queue <==> v in order + [queue[|queue| - 1]] + queue[..|queue| - 1]
  {
    var all, last := order + queue, |queue| - 1;
    assert all[|order| + last] == queue[last];
    assert forall i :: 0 <= i < |order| ==> all[i] == order[i];
    assert queue == queue[..last] + [queue[last]];
  }

  lemma {:induction false} TakeKeepsDistinct(order: seq<nat>, queue: seq<nat>)
    requires queue != [] && Distinct(order + queue)
    ensures Distinct((order + [queue[|queue| - 1]]) + queue[..|queue| - 1])
  {
    var last := |queue| - 1;
    var a, b := order + queue, (order + [queue[last]]) + queue[..last];
    forall i, j | 0 <= i < j < |b| ensures b[i] != b[j] {
      var fi := if i < |order| then i else if i == |order| then |a| - 1 else i - 1;
      var fj := if j < |order| then j else if j == |order| then |a| - 1 else j - 1;
      assert b[i] == a[fi] && b[j] == a[fj] && fi != fj;
      assert fi < fj ==> a[fi] != a[fj];
      assert fj < fi ==> a[fj] != a[fi];
    }
  }

  /** Discounting one edge, and pushing its target when that was its last. */
  lemma {:induction false} Discount(g: Adjacency, order: seq<nat>, queue: seq<nat>, inDegrees: seq<nat>, rest: seq<nat>)
    requires Sorting(g, order, queue) && rest != [] && rest[0] < |g|
    requires CountsMidway(g, order, queue, inDegrees, rest)
    ensures inDegrees[rest[0]] > 0
    ensures var v := rest[0];
      var inDegrees' := inDegrees[v := inDegrees[v] - 1];
      var queue' := if inDegrees'[v] == 0 then queue + [v] else queue;
      Sorting(g, order, queue') && CountsMidway(g, order, queue', inDegrees', rest[1..])
  {
    var v := rest[0];
    assert Count(rest, v) > 0;
    var inDegrees' := inDegrees[v := inDegrees[v] - 1];
    var queue' := if inDegrees'[v] == 0 then queue + [v] else queue;
    if inDegrees'[v] == 0 {
      assert v !in order + queue;
      assert order + queue' == (order + queue) + [v];
    }
  }

  /** When the stack runs dry with vertices left over, those vertices hold a cycle. */
  lemma {:induction false} DryStackMeansCycle(g: Adjacency, order: seq<nat>, inDegrees: seq<nat>)
    requires Closed(g) && Sorting(g, order, []) && Counts(g, order, [], inDegrees) && |order| != |g|
    ensures !Acyclic(g)
  {
    var left := Range(|g|) - Elements(order);
    assert order + [] == order;
    DistinctCount(order);
    DistinctBelow(order, |g|);
    var all := Range(|g|);
    SubsetCount(Elements(order), all);
    assert left == all - Elements(order) && |left| == |all| - |Elements(order)|;
    forall v | v in left ensures HasPredecessor(g, left, v) {
      assert inDegrees[v] != 0;
      DegreeZero(g, Elements(order), |g|, v);
      var u: nat :| u < |g| && u !in Elements(order) && v in g[u];
      assert u in left && Edge(g, u, v);
    }
    PredecessorsMakeACycle(g, left);
  }

  lemma {:induction false} DryStackMeansOrder(g: Adjacency, order: seq<nat>)
    requires Sorting(g, order, []) && |order| == |g|
    ensures TopologicalOrder(g, order)
  {
    assert order + [] == order;
    forall i, j | 0 <= i < |order| && 0 <= j < |order| && Edge(g, order[i], order[j]) ensures i < j {
      assert order[i] in order[..j];
      var k :| 0 <= k < j && order[k] == order[i];
    }
  }

  /** Kahn's algorithm on a stack: accepts exactly the graphs with no directed cycle. */
  method Kahn(g: Adjacency, degrees: seq<nat>) returns (ok: bool)
    requires Closed(g)
    requires |degrees| == |g| && forall v: nat :: v < |g| ==> degrees[v] == Degree(g, {}, |g|, v)
    ensures ok <==> Acyclic(g)
    ensures ok ==> Ranked(g)
  {
    var inDegrees := degrees;
    var queue: seq<nat> := [];
    for i := 0 to |g|
      invariant Distinct(queue) && forall k :: 0 <= k < |queue| ==> queue[k] in queue
      invariant forall v: nat :: v in queue <==> v < i && inDegrees[v] == 0
    {
      if inDegrees[i] == 0 {
        queue := queue + [i];
      }
    }

    ghost var order: seq<nat> := [];
    var processedCount := 0;
    assert order + queue == queue;
    assert Elements(order) == {};
    while queue != []
      invariant processedCount == |order|
      invariant Sorting(g, order, queue) && Counts(g, order, queue, inDegrees)
      decreases |g| - |order|
    {
      var current := queue[|queue| - 1];
      TakeVertex(g, order, queue, inDegrees);
      DistinctInGraph(g, order, queue);
      queue := queue[..|queue| - 1];
      order := order + [current];
      processedCount := processedCount + 1;
      for m := 0 to |g[current]|
        invariant Sorting(g, order, queue) && CountsMidway(g, order, queue, inDegrees, g[current][m..])
      {
        var neighbor := g[current][m];
        ghost var rest := g[current][m..];
        Discount(g, order, queue, inDegrees, rest);
        assert rest[1..] == g[current][m + 1..];
        inDegrees := inDegrees[neighbor := inDegrees[neighbor] - 1];
        if inDegrees[neighbor] == 0 {
          queue := queue + [neighbor];
        }
      }
      assert g[current][|g[current]|..] == [];
    }

    ok := processedCount == |g|;
    if ok {
      DryStackMeansOrder(g, order);
      ghost var rank := OrderGivesRank(g, order);
      HasRank(g, rank);
      RankedIsAcyclic(g, rank);
    } else {
      DryStackMeansCycle(g, order, inDegrees);
    }
  }

  lemma {:induction false} DistinctInGraph(g: Adjacency, order: seq<nat>, queue: seq<nat>)
    requires Sorting(g, order, queue) && queue != []
    ensures |order| < |g|
  {
    DistinctBelow(order + queue, |g|);
  }
}
