/** src/operator_scheduler.cpp, first half: operator graphs and their validation. */
module OperatorGraph {
  import opened Collections
  import opened Statuses

  datatype Device = Cpu | Gpu | Npu | Io

  /** The operator's function is not part of the graph: what it returns is an input of each run. */
  datatype OperatorSpec = OperatorSpec(name: string, device: Device, priority: int, dependencies: seq<nat>)

  type Graph = seq<OperatorSpec>

  const OUT_OF_RANGE := Error(InvalidArgument, "operator dependency is out of range")
  const DUPLICATE := Error(InvalidArgument, "operator has duplicate dependency")
  const CYCLE := Error(InvalidArgument, "operator graph contains a cycle")

  // ----- What a valid graph is -----

  predicate InRange(g: Graph) {
    forall id, k :: 0 <= id < |g| && 0 <= k < |g[id].dependencies| ==> g[id].dependencies[k] < |g|
  }

  predicate DuplicateFree(g: Graph) {
    forall id :: 0 <= id < |g| ==> Distinct(g[id].dependencies)
  }

  ghost predicate RankedBy(g: Graph, rank: seq<nat>) {
    |rank| == |g| &&
    forall id, d :: 0 <= id < |g| && d in g[id].dependencies ==> d < |g| && rank[d] < rank[id]
  }

  /** Acyclic: some rank function grows along every dependency. */
  ghost predicate Acyclic(g: Graph) {
    exists rank :: RankedBy(g, rank)
  }

  ghost predicate Valid(g: Graph) {
    InRange(g) && DuplicateFree(g) && Acyclic(g)
  }

  /** A walk along dependency edges: each entry is a dependency of the next. */
  predicate IsPath(g: Graph, p: seq<nat>) {
    && |p| > 0
    && (forall i :: 0 <= i < |p| ==> p[i] < |g|)
    && (forall i :: 0 < i < |p| ==> p[i - 1] in g[p[i]].dependencies)
  }

  ghost predicate HasCycle(g: Graph) {
    exists p :: IsPath(g, p) && |p| > 1 && p[0] == p[|p| - 1]
  }

  lemma {:induction false} RankAlongPath(g: Graph, rank: seq<nat>, p: seq<nat>)
    requires RankedBy(g, rank) && IsPath(g, p)
    ensures rank[p[0]] + |p| - 1 <= rank[p[|p| - 1]]
    decreases |p|
  {
    if |p| > 1 {
      var q := p[..|p| - 1];
      RankAlongPath(g, rank, q);
      assert p[|p| - 2] in g[p[|p| - 1]].dependencies;
    }
  }

  ghost predicate DependsInside(g: Graph, x: nat, nodes: set<nat>)
    requires x < |g|
  {
    exists d :: d in g[x].dependencies && d in nodes
  }

  /** A nonempty set of nodes that each depend on a member of the set. */
  ghost predicate Stuck(g: Graph, nodes: set<nat>) {
    && nodes != {}
    && nodes <= Upto(|g|)
    && (forall x {:trigger DependsInside(g, x, nodes)} :: x in nodes ==> DependsInside(g, x, nodes))
  }

  lemma {:induction false} WalkInside(g: Graph, nodes: set<nat>, length: nat) returns (p: seq<nat>)
    requires Stuck(g, nodes)
    ensures |p| == length + 1 && IsPath(g, p)
    ensures forall x :: x in p ==> x in nodes
  {
    if length == 0 {
      var x :| x in nodes;
      p := [x];
    } else {
      var q := WalkInside(g, nodes, length - 1);
      assert q[0] in nodes;
      assert DependsInside(g, q[0], nodes);
      var d :| d in g[q[0]].dependencies && d in nodes;
      p := [d] + q;
      assert forall i :: 0 < i < |p| ==> p[i] == q[i - 1];
    }
  }

  lemma StuckHasCycle(g: Graph, nodes: set<nat>)
    requires Stuck(g, nodes)
    ensures HasCycle(g)
  {
    var p := WalkInside(g, nodes, |nodes|);
    var i, j := Pigeonhole(p, nodes);
    var c := p[i..j + 1];
    assert IsPath(g, c);
  }

  lemma StuckIsNotRanked(g: Graph, nodes: set<nat>)
    requires Stuck(g, nodes)
    ensures !Acyclic(g)
  {
    StuckHasCycle(g, nodes);
    var p :| IsPath(g, p) && |p| > 1 && p[0] == p[|p| - 1];
    if Acyclic(g) {
      var rank :| RankedBy(g, rank);
      RankAlongPath(g, rank, p);
      assert false;
    }
  }

  // ----- Kahn's algorithm -----

  /** The dependencies of a node that are not yet done. */
  function Waiting(g: Graph, id: nat, done: set<nat>): (r: set<nat>)
    requires id < |g|
  {
    set d | d in g[id].dependencies && d !in done
  }

  lemma WaitingShrinks(g: Graph, c: nat, done: set<nat>, id: nat)
    requires c < |g| && id !in done
    ensures id in g[c].dependencies ==>
              |Waiting(g, c, done)| == |Waiting(g, c, done + {id})| + 1
    ensures id !in g[c].dependencies ==> Waiting(g, c, done + {id}) == Waiting(g, c, done)
  {
    if id in g[c].dependencies {
      assert Waiting(g, c, done) == Waiting(g, c, done + {id}) + {id};
    }
  }

  lemma WaitingAtStart(g: Graph, c: nat)
    requires c < |g| && Distinct(g[c].dependencies)
    ensures |Waiting(g, c, {})| == |g[c].dependencies|
  {
    DistinctSize(g[c].dependencies);
    assert Waiting(g, c, {}) == Elems(g[c].dependencies);
  }

  /** Every listed node comes after all of its dependencies. */
  ghost predicate Topological(g: Graph, order: seq<nat>) {
    && (forall i :: 0 <= i < |order| ==> order[i] < |g|)
    && (forall i, d :: 0 <= i < |order| && d in g[order[i]].dependencies ==> d in order[..i])
  }

  lemma TopologicalAppend(g: Graph, order: seq<nat>, id: nat)
    requires Topological(g, order)
    requires id < |g| && forall d :: d in g[id].dependencies ==> d in order
    ensures Topological(g, order + [id])
  {
    var longer := order + [id];
    forall i, d | 0 <= i < |longer| && d in g[longer[i]].dependencies
      ensures d in longer[..i]
    {
      assert longer[..i] == order[..i];
      if i == |order| {
        assert order[..i] == order;
      }
    }
  }

  lemma DependencyIsEarlier(g: Graph, order: seq<nat>, id: nat, d: nat)
    requires Topological(g, order) && id < |g| && id in order && d in g[id].dependencies
    ensures d in order && IndexOf(order, d) < IndexOf(order, id)
  {
    IndexInPrefix(order, d, IndexOf(order, id));
  }

  /** A complete topological order yields a rank function: the position of each node. */
  lemma OrderRanks(g: Graph, order: seq<nat>)
    requires InRange(g) && Topological(g, order) && Distinct(order) && |order| == |g|
    ensures Acyclic(g)
  {
    var rank: seq<nat> := seq(|g|, id requires 0 <= id < |g| =>
      ListsAll(order, |g|, id); IndexOf(order, id));
    forall id, d | 0 <= id < |g| && d in g[id].dependencies
      ensures d < |g| && rank[d] < rank[id]
    {
      ListsAll(order, |g|, id);
      DependencyIsEarlier(g, order, id, d);
    }
    assert RankedBy(g, rank);
  }

  /** What the visiting loop leaves: a topological prefix, and nothing outside it could have been added. */
  ghost predicate Exhausted(g: Graph, order: seq<nat>) {
    && Distinct(order) && Topological(g, order)
    && (forall c {:trigger DependsInside(g, c, Unvisited(g, order))} ::
          c in Unvisited(g, order) ==> DependsInside(g, c, Unvisited(g, order)))
  }

  ghost function Unvisited(g: Graph, order: seq<nat>): set<nat> {
    Upto(|g|) - Elems(order)
  }

  lemma UnvisitedIsStuck(g: Graph, order: seq<nat>)
    requires Exhausted(g, order) && |order| < |g|
    ensures Stuck(g, Unvisited(g, order))
  {
    DistinctSize(order);
  }

  lemma ExhaustedDecides(g: Graph, order: seq<nat>)
    requires InRange(g) && Exhausted(g, order)
    ensures |order| <= |g|
    ensures |order| == |g| <==> Acyclic(g)
  {
    DistinctBelow(order, |g|);
    if |order| == |g| {
      OrderRanks(g, order);
    } else {
      UnvisitedIsStuck(g, order);
      StuckIsNotRanked(g, Unvisited(g, order));
    }
  }

  /** The inner loop: tell every child of `id` that it is done and queue the ones this frees. */
  method Release(g: Graph, indegree: array<nat>, ghost order: seq<nat>, id: nat, queue: seq<nat>)
    returns (ready: seq<nat>)
    requires PartlyQueued(g, indegree[..], order, id, queue, 0)
    modifies indegree
    ensures PartlyQueued(g, indegree[..], order, id, ready, |g|)
  {
    ready := queue;
    for child := 0 to |g|
      invariant PartlyQueued(g, indegree[..], order, id, ready, child)
    {
      WaitingShrinks(g, child, Elems(order), id);
      assert Elems(order + [id]) == Elems(order) + {id};
      if id in g[child].dependencies {
        assert id in Waiting(g, child, Elems(order));
        assert child !in order + [id] + ready;
        indegree[child] := indegree[child] - 1;
        if indegree[child] == 0 {
          assert order + [id] + (ready + [child]) == order + [id] + ready + [child];
          ready := ready + [child];
        }
      }
    }
  }

  /** The nodes with no dependencies, in order. */
  method Roots(g: Graph, indegree: array<nat>) returns (ready: seq<nat>)
    requires InRange(g) && DuplicateFree(g)
    requires indegree.Length == |g|
    requires forall c :: 0 <= c < |g| ==> indegree[c] == |g[c].dependencies|
    ensures Queued(g, indegree[..], [], ready)
  {
    ready := [];
    for id := 0 to |g|
      invariant Distinct(ready)
      invariant forall c :: c in ready <==> 0 <= c < id && indegree[c] == 0
    {
      if indegree[id] == 0 {
        DistinctAppend(ready, id);
        ready := ready + [id];
      }
    }
    assert [] + ready == ready;
    forall c | 0 <= c < |g| ensures indegree[c] == |Waiting(g, c, Elems([]))| {
      WaitingAtStart(g, c);
      assert Elems<nat>([]) == {};
    }
  }

  /** The visiting loop of `validate`: in-degree counters, a FIFO queue, and the count of visited nodes.
      The counters are naturals, so their decrements never underflow. */
  method Visit(g: Graph, indegree: array<nat>) returns (visited: nat, ghost order: seq<nat>)
    requires InRange(g) && DuplicateFree(g)
    requires indegree.Length == |g|
    requires forall c :: 0 <= c < |g| ==> indegree[c] == |g[c].dependencies|
    modifies indegree
    ensures visited == |order| && Exhausted(g, order)
  {
    var ready := Roots(g, indegree);
    visited, order := 0, [];
    while ready != []
      invariant visited == |order|
      invariant Queued(g, indegree[..], order, ready)
      invariant Topological(g, order)
      decreases |g| - |order|
    {
      DistinctBelow(order + ready, |g|);
      var id := ready[0];
      assert id == (order + ready)[|order|];
      ReadyNodeIsFree(g, indegree[..], order, ready);
      TopologicalAppend(g, order, id);
      assert order + [id] + ready[1..] == order + ready;
      ready := Release(g, indegree, order, id, ready[1..]);
      visited := visited + 1;
      order := order + [id];
    }
    FinishedIsExhausted(g, indegree[..], order);
  }

  lemma FinishedIsExhausted(g: Graph, indegree: seq<nat>, order: seq<nat>)
    requires InRange(g) && Queued(g, indegree, order, []) && Topological(g, order)
    ensures Exhausted(g, order)
  {
    assert order + [] == order;
    forall c | c in Unvisited(g, order)
      ensures DependsInside(g, c, Unvisited(g, order))
    {
      assert indegree[c] == |Waiting(g, c, Elems(order))| != 0;
      var d :| d in Waiting(g, c, Elems(order));
      assert d in g[c].dependencies && d in Unvisited(g, order);
    }
  }

  /** Invariant of the outer loop: counters count undone dependencies; exactly the free nodes were queued, once. */
  ghost predicate Queued(g: Graph, indegree: seq<nat>, order: seq<nat>, ready: seq<nat>) {
    && |indegree| == |g|
    && Distinct(order + ready)
    && (forall x :: x in order + ready ==> x < |g|)
    && (forall c :: 0 <= c < |g| ==> indegree[c] == |Waiting(g, c, Elems(order))|)
    && (forall c :: 0 <= c < |g| ==> (c in order + ready <==> indegree[c] == 0))
  }

  /** Invariant of the inner loop: the children below `child` already know that `id` is done. */
  ghost predicate PartlyQueued(g: Graph, indegree: seq<nat>, order: seq<nat>, id: nat, ready: seq<nat>, child: nat) {
    && |indegree| == |g| && child <= |g|
    && id !in order
    && Distinct(order + [id] + ready)
    && (forall x :: x in order + [id] + ready ==> x < |g|)
    && (forall c :: 0 <= c < child ==> indegree[c] == |Waiting(g, c, Elems(order + [id]))|)
    && (forall c :: child <= c < |g| ==> indegree[c] == |Waiting(g, c, Elems(order))|)
    && (forall c :: 0 <= c < |g| ==> (c in order + [id] + ready <==> indegree[c] == 0))
  }

  lemma ReadyNodeIsFree(g: Graph, indegree: seq<nat>, order: seq<nat>, ready: seq<nat>)
    requires Queued(g, indegree, order, ready) && ready != []
    ensures ready[0] < |g| && ready[0] !in order
    ensures forall d :: d in g[ready[0]].dependencies ==> d in order
  {
    var id := ready[0];
    assert (order + ready)[|order|] == id;
    assert id in order + ready;
    forall i | 0 <= i < |order| ensures order[i] != id {
      assert (order + ready)[i] == order[i];
    }
    assert Waiting(g, id, Elems(order)) == {};
    forall d | d in g[id].dependencies ensures d in order {
      assert d !in Waiting(g, id, Elems(order));
    }
  }

  // ----- The dependency scan and the whole of validate -----

  /** Dependency k of node id has nothing wrong before it, in the order the scan reads them. */
  predicate CleanBefore(g: Graph, id: nat, k: nat)
    requires id < |g| && k <= |g[id].dependencies|
  {
    && (forall i, j :: 0 <= i < id && 0 <= j < |g[i].dependencies| ==> g[i].dependencies[j] < |g|)
    && (forall i :: 0 <= i < id ==> Distinct(g[i].dependencies))
    && (forall j :: 0 <= j < k ==> g[id].dependencies[j] < |g|)
    && Distinct(g[id].dependencies[..k])
  }

  /** The first defect of the graph is an out-of-range dependency. */
  ghost predicate FirstDefectIsRange(g: Graph) {
    exists id, k :: 0 <= id < |g| && 0 <= k < |g[id].dependencies| && CleanBefore(g, id, k) &&
                    g[id].dependencies[k] >= |g|
  }

  /** The first defect of the graph is a repeated dependency. */
  ghost predicate FirstDefectIsDuplicate(g: Graph) {
    exists id, k :: 0 <= id < |g| && 0 <= k < |g[id].dependencies| && CleanBefore(g, id, k) &&
                    g[id].dependencies[k] < |g| && g[id].dependencies[k] in g[id].dependencies[..k]
  }

  method Scan(g: Graph, indegree: array<nat>) returns (status: Status)
    requires indegree.Length == |g|
    requires forall c :: 0 <= c < |g| ==> indegree[c] == 0
    modifies indegree
    ensures status.Ok? ==> InRange(g) && DuplicateFree(g)
    ensures status.Ok? ==> forall c :: 0 <= c < |g| ==> indegree[c] == |g[c].dependencies|
    ensures !status.Ok? ==> (status == OUT_OF_RANGE && FirstDefectIsRange(g)) ||
                            (status == DUPLICATE && FirstDefectIsDuplicate(g))
  {
    for id := 0 to |g|
      invariant forall i, j :: 0 <= i < id && 0 <= j < |g[i].dependencies| ==> g[i].dependencies[j] < |g|
      invariant forall i :: 0 <= i < id ==> Distinct(g[i].dependencies)
      invariant forall c :: 0 <= c < id ==> indegree[c] == |g[c].dependencies|
      invariant forall c :: id <= c < |g| ==> indegree[c] == 0
    {
      var deps := g[id].dependencies;
      var seen: set<nat> := {};
      for k := 0 to |deps|
        invariant CleanBefore(g, id, k)
        invariant seen == Elems(deps[..k])
        invariant indegree[id] == k
        invariant forall c :: 0 <= c < id ==> indegree[c] == |g[c].dependencies|
        invariant forall c :: id < c < |g| ==> indegree[c] == 0
      {
        if deps[k] >= |g| {
          return OUT_OF_RANGE;
        }
        if deps[k] in seen {
          return DUPLICATE;
        }
        assert deps[..k + 1] == deps[..k] + [deps[k]];
        seen := seen + {deps[k]};
        indegree[id] := indegree[id] + 1;
      }
      assert deps[..|deps|] == deps;
    }
    status := Ok;
  }

  lemma DuplicateIsDefect(g: Graph, id: nat, k: nat)
    requires id < |g| && k < |g[id].dependencies| && g[id].dependencies[k] in g[id].dependencies[..k]
    ensures !DuplicateFree(g)
  {
    var deps := g[id].dependencies;
    var j :| 0 <= j < k && deps[..k][j] == deps[k];
    assert deps[j] == deps[k];
    assert !Distinct(deps);
  }

  /** A dependency out of range is not before a clean position. */
  lemma RangeNotBefore(g: Graph, id: nat, k: nat, id': nat, k': nat)
    requires id < |g| && k <= |g[id].dependencies| && CleanBefore(g, id, k)
    requires id' < |g| && k' < |g[id'].dependencies| && g[id'].dependencies[k'] >= |g|
    ensures id' > id || (id' == id && k' >= k)
  {
  }

  /** Nor is a repeated one. */
  lemma DuplicateNotBefore(g: Graph, id: nat, k: nat, id': nat, k': nat)
    requires id < |g| && k <= |g[id].dependencies| && CleanBefore(g, id, k)
    requires id' < |g| && k' < |g[id'].dependencies| && g[id'].dependencies[k'] in g[id'].dependencies[..k']
    ensures id' > id || (id' == id && k' >= k)
  {
    var deps := g[id'].dependencies;
    var j :| 0 <= j < k' && deps[..k'][j] == deps[k'];
    assert deps[j] == deps[k'];
    assert id' < id ==> Distinct(deps);
    assert id' == id ==> forall m :: 0 <= m < k ==> deps[..k][m] == deps[m];
  }

  lemma DefectsExclude(g: Graph)
    requires FirstDefectIsDuplicate(g)
    ensures !FirstDefectIsRange(g)
  {
    var id, k :| 0 <= id < |g| && 0 <= k < |g[id].dependencies| && CleanBefore(g, id, k) &&
                 g[id].dependencies[k] < |g| && g[id].dependencies[k] in g[id].dependencies[..k];
    forall id', k' | 0 <= id' < |g| && 0 <= k' < |g[id'].dependencies| && CleanBefore(g, id', k')
      ensures g[id'].dependencies[k'] < |g|
    {
      DuplicateNotBefore(g, id', k', id, k);
      if g[id'].dependencies[k'] >= |g| {
        RangeNotBefore(g, id, k, id', k');
      }
    }
  }

  lemma DefectsAreDefects(g: Graph)
    ensures FirstDefectIsRange(g) ==> !InRange(g)
    ensures FirstDefectIsDuplicate(g) ==> !DuplicateFree(g)
    ensures !(FirstDefectIsRange(g) && FirstDefectIsDuplicate(g))
  {
    if FirstDefectIsDuplicate(g) {
      var id, k :| 0 <= id < |g| && 0 <= k < |g[id].dependencies| && CleanBefore(g, id, k) &&
                   g[id].dependencies[k] < |g| && g[id].dependencies[k] in g[id].dependencies[..k];
      DuplicateIsDefect(g, id, k);
      DefectsExclude(g);
    }
  }

  /** `OperatorGraph::validate`: accepts exactly the valid graphs and names the first thing wrong otherwise. */
  method Validate(g: Graph) returns (status: Status)
    ensures status.Ok? <==> Valid(g)
    ensures status.Ok? <==> InRange(g) && DuplicateFree(g) && !HasCycle(g)
    ensures status == OUT_OF_RANGE <==> FirstDefectIsRange(g)
    ensures status == DUPLICATE <==> FirstDefectIsDuplicate(g)
    ensures status == CYCLE <==> InRange(g) && DuplicateFree(g) && HasCycle(g)
    ensures status in {Ok, OUT_OF_RANGE, DUPLICATE, CYCLE} && (status.Error? ==> status.code == InvalidArgument)
  {
    DefectsAreDefects(g);
    var indegree := new nat[|g|](_ => 0);
    status := Scan(g, indegree);
    if status != Ok {
      return;
    }
    var visited;
    ghost var order;
    visited, order := Visit(g, indegree);
    ExhaustedDecides(g, order);
    AcyclicMeansNoCycle(g, order);
    status := if visited != |g| then CYCLE else Ok;
  }

  /** The rank-function form and the no-closed-walk form of acyclicity agree. */
  lemma AcyclicMeansNoCycle(g: Graph, order: seq<nat>)
    requires InRange(g) && Exhausted(g, order)
    ensures Acyclic(g) <==> !HasCycle(g)
  {
    ExhaustedDecides(g, order);
    if Acyclic(g) && HasCycle(g) {
      var rank :| RankedBy(g, rank);
      var p :| IsPath(g, p) && |p| > 1 && p[0] == p[|p| - 1];
      RankAlongPath(g, rank, p);
      assert false;
    }
    if !Acyclic(g) {
      UnvisitedIsStuck(g, order);
      StuckHasCycle(g, Unvisited(g, order));
    }
  }
}
