/** The shared state of `OperatorScheduler::run` and its critical sections, proved to be steps of `OperatorRun`. */
module OperatorPool {
  import opened Collections
  import opened Statuses
  import opened OperatorGraph
  import opened OperatorRun
  import opened OperatorRunInvariants

  // ----- The ready heap -----

  /** The top of the heap: nothing else in it comes first. */
  predicate IsTop(g: Graph, heap: set<nat>, id: nat) {
    && id in heap && id < |g|
    && (forall other :: other in heap && other != id ==> other < |g| && Before(g, id, other))
  }

  lemma {:induction false} TopExists(g: Graph, heap: set<nat>) returns (id: nat)
    requires heap != {} && forall x :: x in heap ==> x < |g|
    ensures IsTop(g, heap, id)
    decreases heap
  {
    var x :| x in heap;
    id := x;
    var rest := heap - {x};
    assert forall other :: other in heap && other != x ==> other in rest;
    if rest != {} {
      var top := TopExists(g, rest);
      id := if Before(g, x, top) then x else top;
      forall other | other in heap && other != id ensures other < |g| && Before(g, id, other) {
        assert other < |g|;
        assert other == x || other in rest;
        assert other in rest && other != top ==> Before(g, top, other);
        assert Before(g, id, other);
      }
    }
  }

  /** The selection loop: pop until an operator fits, then push the ones that did not fit back. */
  method SelectCandidate(job: Job, ready: set<nat>, active: seq<nat>) returns (selected: Option<nat>, rest: set<nat>)
    requires |job.limits| == 4 && |active| == 4
    requires forall x :: x in ready ==> x < |job.graph|
    ensures selected.Some? ==> Selects(job, ready, active, selected.value) && rest == ready - {selected.value}
    ensures selected.Some? ==> forall other :: other in ready && other != selected.value && HasRoom(job, active, other) ==>
              var mine, its := job.graph[selected.value].priority, job.graph[other].priority;
              its < mine || (its == mine && selected.value < other)
    ensures selected.None? ==> NothingFits(job, ready, active) && rest == ready
  {
    var deferred: seq<nat> := [];
    selected, rest := None, ready;
    while rest != {}
      invariant selected.None?
      invariant forall x :: x in deferred ==> x in ready
      invariant rest + Elems(deferred) == ready && rest !! Elems(deferred)
      invariant forall x :: x in deferred ==> !HasRoom(job, active, x)
      decreases rest
    {
      ghost var top := TopExists(job.graph, rest);
      var candidate: nat :| candidate in rest && IsTop(job.graph, rest, candidate);
      assert forall x :: x in ready ==> x in rest || x in deferred;
      assert IsTop(job.graph, rest, candidate);
      rest := rest - {candidate};
      if HasRoom(job, active, candidate) {
        selected := Some(candidate);
        break;
      }
      deferred := deferred + [candidate];
    }
    ghost var popped := rest;
    for k := 0 to |deferred|
      invariant rest == popped + Elems(deferred[..k])
    {
      assert deferred[..k + 1] == deferred[..k] + [deferred[k]];
      rest := rest + {deferred[k]};
    }
    assert deferred[..|deferred|] == deferred;
    if selected.Some? {
      forall other | other in ready && other != selected.value && HasRoom(job, active, other)
        ensures Before(job.graph, selected.value, other)
      {
        assert other in popped;
      }
    }
  }

  // ----- Dependency counters and children lists -----

  /** Each counter holds the number of dependencies still to complete. */
  ghost predicate CountersExact(g: Graph, remaining: seq<nat>, completed: seq<nat>) {
    |remaining| == |g| && forall c :: 0 <= c < |g| ==> remaining[c] == |Waiting(g, c, Elems(completed))|
  }

  /** children[d] lists each node that depends on d once. */
  ghost predicate ChildrenExact(g: Graph, children: seq<seq<nat>>) {
    && |children| == |g|
    && (forall d :: 0 <= d < |g| ==> Distinct(children[d]))
    && (forall d, c :: 0 <= d < |g| ==> (c in children[d] <==> 0 <= c < |g| && d in g[c].dependencies))
  }

  lemma ChildrenOf(g: Graph, children: seq<seq<nat>>, id: nat)
    requires ChildrenExact(g, children) && id < |g|
    ensures forall c :: c in children[id] <==> 0 <= c < |g| && id in g[c].dependencies
  {
  }

  /** The children collected from the nodes below `id` and the first k dependencies of `id`. */
  ghost predicate ChildrenSoFar(g: Graph, children: seq<seq<nat>>, id: nat, k: nat) {
    && |children| == |g| && (id < |g| ==> k <= |g[id].dependencies|)
    && (forall d :: 0 <= d < |g| ==> Distinct(children[d]))
    && (forall d, c :: 0 <= d < |g| ==> (c in children[d] <==> SeenChild(g, id, k, d, c)))
  }

  /** Node c depends on d, as far as the loops have looked. */
  ghost predicate SeenChild(g: Graph, id: nat, k: nat, d: nat, c: nat) {
    || (c < id && c < |g| && d in g[c].dependencies)
    || (c == id < |g| && k <= |g[id].dependencies| && d in g[id].dependencies[..k])
  }

  lemma SeenChildNext(g: Graph, id: nat, k: nat, d: nat, c: nat)
    requires id < |g| && k < |g[id].dependencies|
    ensures SeenChild(g, id, k + 1, d, c) <==> SeenChild(g, id, k, d, c) || (c == id && d == g[id].dependencies[k])
  {
    var deps := g[id].dependencies;
    assert deps[..k + 1] == deps[..k] + [deps[k]];
  }

  lemma ChildrenExtend(g: Graph, children: seq<seq<nat>>, id: nat, k: nat)
    requires ChildrenSoFar(g, children, id, k) && id < |g| && k < |g[id].dependencies|
    requires InRange(g) && Distinct(g[id].dependencies)
    ensures var dep := g[id].dependencies[k];
            ChildrenSoFar(g, children[dep := children[dep] + [id]], id, k + 1)
  {
    var deps := g[id].dependencies;
    var dep := deps[k];
    var children' := children[dep := children[dep] + [id]];
    assert dep !in deps[..k];
    assert !SeenChild(g, id, k, dep, id);
    DistinctAppend(children[dep], id);
    forall d, c | 0 <= d < |g| ensures c in children'[d] <==> SeenChild(g, id, k + 1, d, c) {
      SeenChildNext(g, id, k, d, c);
      assert c in children[d] <==> SeenChild(g, id, k, d, c);
    }
  }

  method BuildChildren(g: Graph) returns (remaining: seq<nat>, children: seq<seq<nat>>)
    requires InRange(g) && DuplicateFree(g)
    ensures CountersExact(g, remaining, []) && ChildrenExact(g, children)
  {
    remaining := seq(|g|, _ => 0);
    children := seq(|g|, _ => []);
    for id := 0 to |g|
      invariant ChildrenSoFar(g, children, id, 0)
      invariant |remaining| == |g|
      invariant forall c :: 0 <= c < id ==> remaining[c] == |g[c].dependencies|
    {
      var deps := g[id].dependencies;
      remaining := remaining[id := |deps|];
      for k := 0 to |deps|
        invariant ChildrenSoFar(g, children, id, k)
      {
        ChildrenExtend(g, children, id, k);
        children := children[deps[k] := children[deps[k]] + [id]];
      }
      assert deps[..|deps|] == deps;
    }
    forall c | 0 <= c < |g| ensures remaining[c] == |Waiting(g, c, Elems([]))| {
      WaitingAtStart(g, c);
      assert Elems<nat>([]) == {};
    }
  }

  /** Lines 124-127: the nodes that wait for nothing. */
  method ReadyRoots(g: Graph, remaining: seq<nat>) returns (roots: set<nat>)
    requires CountersExact(g, remaining, [])
    ensures roots == Free(g, [], [])
  {
    roots := {};
    for id := 0 to |g|
      invariant forall c :: c in roots <==> 0 <= c < id && Waiting(g, c, Elems<nat>([])) == {}
    {
      if remaining[id] == 0 {
        roots := roots + {id};
      }
    }
  }

  /** The effect of the first k decrements of the completion loop. */
  ghost predicate Released(g: Graph, completed: seq<nat>, id: nat, kids: seq<nat>, k: nat,
                           remaining: seq<nat>, ready: set<nat>, ready0: set<nat>) {
    && |remaining| == |g| && k <= |kids|
    && (forall c :: 0 <= c < |g| && c in kids[..k] ==> remaining[c] == |Waiting(g, c, Elems(completed + [id]))|)
    && (forall c :: 0 <= c < |g| && c !in kids[..k] ==> remaining[c] == |Waiting(g, c, Elems(completed))|)
    && (forall c :: c in ready <==> c in ready0 || (c in kids[..k] && 0 <= c < |g| && remaining[c] == 0))
  }

  lemma ReleaseOne(g: Graph, completed: seq<nat>, id: nat, kids: seq<nat>, k: nat,
                   remaining: seq<nat>, ready: set<nat>, ready0: set<nat>)
    requires Released(g, completed, id, kids, k, remaining, ready, ready0)
    requires k < |kids| && Distinct(kids) && kids[k] < |g| && id in g[kids[k]].dependencies && id !in completed
    ensures remaining[kids[k]] > 0
    ensures var left := remaining[kids[k]] - 1;
            Released(g, completed, id, kids, k + 1, remaining[kids[k] := left],
                     if left == 0 then ready + {kids[k]} else ready, ready0)
  {
    var c := kids[k];
    assert kids[..k + 1] == kids[..k] + [c];
    assert c !in kids[..k];
    assert Elems(completed + [id]) == Elems(completed) + {id};
    WaitingShrinks(g, c, Elems(completed), id);
  }

  /** The loop of lines 207-211: decrement each child's counter and push the ones that reach zero. */
  method ReleaseChildren(g: Graph, ghost completed: seq<nat>, id: nat, kids: seq<nat>,
                         remaining0: seq<nat>, ready0: set<nat>)
    returns (remaining: seq<nat>, ready: set<nat>)
    requires id < |g| && id !in completed && CountersExact(g, remaining0, completed)
    requires Distinct(kids) && forall c :: c in kids <==> 0 <= c < |g| && id in g[c].dependencies
    ensures CountersExact(g, remaining, completed + [id])
    ensures ready == ready0 + Freed(g, completed, id)
  {
    remaining, ready := remaining0, ready0;
    for k := 0 to |kids|
      invariant Released(g, completed, id, kids, k, remaining, ready, ready0)
    {
      var child := kids[k];
      assert child in kids;
      ReleaseOne(g, completed, id, kids, k, remaining, ready, ready0);
      remaining := remaining[child := remaining[child] - 1];
      if remaining[child] == 0 {
        ready := ready + {child};
      }
    }
    assert kids[..|kids|] == kids;
    assert Elems(completed + [id]) == Elems(completed) + {id};
    forall c | 0 <= c < |g| ensures remaining[c] == |Waiting(g, c, Elems(completed + [id]))| {
      WaitingShrinks(g, c, Elems(completed), id);
    }
  }

  // ----- The shared state -----

  lemma ReadyFacts(job: Job, s: State)
    requires Runnable(job) && Reachable(job, s)
    ensures |s.active| == 4 && forall x :: x in s.ready ==> x < |job.graph|
  {
    ReachableInv(job, s);
  }

  lemma FinishFacts(job: Job, s: State, w: nat, result: Status)
    requires Runnable(job) && Reachable(job, s) && w < |s.workers| && s.workers[w].Running?
    ensures Enabled(job, s, Finish(w, result))
    ensures s.workers[w].id < |job.graph| && s.workers[w].id !in s.completed
  {
    ReachableInv(job, s);
    RunningCanFinish(job, s, w);
  }

  /** Worker w runs operator id, which has left the heap and holds a place on the lane of its device. */
  ghost predicate Occupied(job: Job, s: State, w: nat, id: nat, s': State) {
    && id < |job.graph| && |s.active| == 4 && |s'.active| == 4 && w < |s.workers|
    && s'.workers == s.workers[w := Running(id)] && s'.ready == s.ready - {id} && s'.started == s.started + [id]
    && (forall d: Device :: s'.active[Lane(d)] == s.active[Lane(d)] + One(d == job.graph[id].device))
    && s'.running == s.running + 1 && s'.peak == (if s.peak <= s.running then s.running + 1 else s.peak)
    && s'.finished == s.finished && s'.completed == s.completed && s'.stop == s.stop && s'.failure == s.failure
  }

  /** Worker w has given the place of operator id back and is about to notify; nothing else about the pool's work
      changed but what the status called for. */
  ghost predicate VacatedBy(job: Job, s: State, w: nat, id: nat, s': State) {
    && id < |job.graph| && |s.active| == 4 && |s'.active| == 4 && w < |s.workers|
    && s'.workers == s.workers[w := Notifying] && s'.started == s.started && s'.peak == s.peak
    && (forall d: Device :: s'.active[Lane(d)] == s.active[Lane(d)] - One(d == job.graph[id].device))
    && s'.running == s.running - 1
  }

  /** The operators that depend on `id` and have all their dependencies in `completed`. */
  ghost predicate Unlocks(g: Graph, completed: seq<nat>, id: nat, c: nat) {
    0 <= c < |g| && id in g[c].dependencies && forall d :: d in g[c].dependencies ==> d in completed
  }

  lemma FreedUnlocks(g: Graph, completed: seq<nat>, id: nat, c: nat)
    ensures c in Freed(g, completed, id) <==> Unlocks(g, completed + [id], id, c)
  {
    if c < |g| {
      var waiting := Waiting(g, c, Elems(completed + [id]));
      if d :| d in g[c].dependencies && d !in completed + [id] {
        assert d in waiting;
      }
    }
  }

  /** What the status of operator id does: a first failure stops the run and is recorded, a success before any failure
      completes the operator and readies those it unlocks, and after a failure nothing more happens. */
  ghost predicate Published(job: Job, s: State, id: nat, result: Status, s': State) {
    && (s'.stop <==> s.stop || result.Error?)
    && s'.failure == (if !s.stop && result.Error? then Some(Failed(id, result)) else s.failure)
    && if s.stop || result.Error? then s'.finished == s.finished && s'.completed == s.completed && s'.ready == s.ready
       else
         && s'.finished == s.finished + 1 && s'.completed == s.completed + [id]
         && forall c :: c in s'.ready <==> c in s.ready || Unlocks(job.graph, s'.completed, id, c)
  }

  lemma FinishEffect(job: Job, s: State, w: nat, id: nat, result: Status)
    requires Enabled(job, s, Finish(w, result)) && s.workers[w] == Running(id)
    ensures VacatedBy(job, s, w, id, ApplyFinish(job, s, w, result))
    ensures Published(job, s, id, result, ApplyFinish(job, s, w, result))
  {
    AllUnlocked(job.graph, s.completed, id);
  }

  lemma AllUnlocked(g: Graph, completed: seq<nat>, id: nat)
    ensures forall c :: c in Freed(g, completed, id) <==> Unlocks(g, completed + [id], id, c)
  {
    forall c ensures c in Freed(g, completed, id) <==> Unlocks(g, completed + [id], id, c) {
      FreedUnlocks(g, completed, id, c);
    }
  }

  lemma FreeAtStart(g: Graph)
    ensures forall id :: id in Free(g, [], []) <==> 0 <= id < |g| && g[id].dependencies == []
  {
    forall id | 0 <= id < |g| ensures Waiting(g, id, Elems<nat>([])) == {} <==> g[id].dependencies == [] {
      if g[id].dependencies != [] {
        assert g[id].dependencies[0] in Waiting(g, id, Elems<nat>([]));
      }
    }
  }

  class Pool {
    const job: Job
    const children: seq<seq<nat>>
    var remaining: seq<nat>
    var ready: set<nat>
    var active: seq<nat>
    var running: nat
    var finished: nat
    var peak: nat
    var stop: bool
    var failure: Option<Failed>
    var completed: seq<nat>
    ghost var workers: seq<Worker>
    ghost var started: seq<nat>

    ghost function Abs(): State
      reads this
    {
      State(workers, ready, active, running, finished, peak, stop, failure, completed, started)
    }

    ghost predicate ValidPool()
      reads this
    {
      && Runnable(job) && Reachable(job, Abs())
      && ChildrenExact(job.graph, children)
      && CountersExact(job.graph, remaining, completed)
    }

    /** Lines 117-139: build the counters and the children lists, and queue the roots. */
    constructor (job: Job)
      requires Runnable(job)
      ensures ValidPool() && this.job == job && Abs() == Init(job)
      ensures |workers| == job.limits[0] + job.limits[1] + job.limits[2] + job.limits[3]
      ensures forall w :: 0 <= w < |workers| ==> workers[w].AtTop?
      ensures forall id :: id in ready <==> 0 <= id < |job.graph| && job.graph[id].dependencies == []
      ensures active == [0, 0, 0, 0] && running == finished == peak == 0 && completed == [] && !stop && failure == None
    {
      var remaining, children := BuildChildren(job.graph);
      var roots := ReadyRoots(job.graph, remaining);
      FreeAtStart(job.graph);
      InitReachable(job);
      this.job, this.remaining, this.children, ready := job, remaining, children, roots;
      active, running, finished, peak := [0, 0, 0, 0], 0, 0, 0;
      stop, failure, completed := false, None, [];
      workers, started := seq(WorkerCount(job.limits), _ => AtTop), [];
    }

    /** Lines 145-177: the wait predicate, the exit test and the selection of an operator, under the lock. */
    method TopSection(w: nat) returns (step: Step)
      requires ValidPool() && w < |workers| && workers[w].AtTop?
      modifies this
      ensures step.w == w && (step.Block? || step.Exit? || step.Pick? || step.Spin?)
      ensures StepsTo(job, old(Abs()), step, Abs())
      ensures ValidPool()
      ensures step.Exit? <==> old(stop) || old(finished) == |job.graph|
      ensures step.Block? <==> !old(stop) && old(finished) != |job.graph| && old(ready) == {}
      ensures step.Pick? || step.Spin? ==> (step.Spin? <==> NothingFits(job, old(ready), old(active)))
      ensures step.Exit? ==> Abs() == old(Abs()).(workers := old(workers)[w := Exited])
      ensures step.Block? ==> Abs() == old(Abs()).(workers := old(workers)[w := Blocked])
      ensures step.Spin? ==> Abs() == old(Abs())
      ensures step.Pick? ==> Occupied(job, old(Abs()), w, step.id, Abs())
    {
      if !(stop || finished == |job.graph| || ready != {}) {
        step := Block(w);
        workers := workers[w := Blocked];
        ReachableStep(job, old(Abs()), step, Abs());
        return;
      }
      if stop || finished == |job.graph| {
        step := Exit(w);
        workers := workers[w := Exited];
        ReachableStep(job, old(Abs()), step, Abs());
        return;
      }
      ReadyFacts(job, Abs());
      var selected, rest := SelectCandidate(job, ready, active);
      if selected.None? {
        step := Spin(w);
        ReachableStep(job, old(Abs()), step, Abs());
        return;
      }
      step := Pick(w, selected.value);
      Occupy(w, selected.value, rest);
      ReachableStep(job, old(Abs()), step, Abs());
    }

    /** Lines 165-170: take the operator and a place on its lane. */
    method Occupy(w: nat, id: nat, rest: set<nat>)
      requires Enabled(job, Abs(), Pick(w, id)) && rest == ready - {id}
      modifies `ready, `active, `running, `peak, `workers, `started
      ensures Abs() == ApplyPick(job, old(Abs()), w, id)
    {
      ready := rest;
      var lane := LaneOf(job.graph, id);
      active := active[lane := active[lane] + 1];
      running := running + 1;
      peak := Max(peak, running);
      workers, started := workers[w := Running(id)], started + [id];
    }

    /** Lines 195-213: publish the status of an operator, under the lock. */
    method FinishSection(w: nat, id: nat, result: Status)
      requires ValidPool() && w < |workers| && workers[w] == Running(id)
      modifies this
      ensures StepsTo(job, old(Abs()), Finish(w, result), Abs())
      ensures ValidPool()
      ensures VacatedBy(job, old(Abs()), w, id, Abs()) && Published(job, old(Abs()), id, result, Abs())
    {
      ghost var s := Abs();
      FinishFacts(job, s, w, result);
      FinishEffect(job, s, w, id, result);
      ReachableStep(job, s, Finish(w, result), ApplyFinish(job, s, w, result));
      Vacate(w, id);
      if !result.Ok? && !stop {
        stop, failure := true, Some(Failed(id, result));
      } else if !stop {
        Complete(id);
      }
    }

    /** Lines 197-199: give the lane back. */
    method Vacate(w: nat, id: nat)
      requires Enabled(job, Abs(), Finish(w, Ok)) && id == workers[w].id
      modifies `active, `running, `workers
      ensures Abs() == Vacated(job, old(Abs()), w)
    {
      var lane := LaneOf(job.graph, id);
      active := active[lane := active[lane] - 1];
      running := running - 1;
      workers := workers[w := Notifying];
    }

    /** Lines 205-211: record the completion and release the children. */
    method Complete(id: nat)
      requires ChildrenExact(job.graph, children) && CountersExact(job.graph, remaining, completed)
      requires id < |job.graph| && id !in completed
      modifies `finished, `completed, `remaining, `ready
      ensures Abs() == CompletionRecorded(job.graph, old(Abs()), id)
      ensures CountersExact(job.graph, remaining, completed)
    {
      finished := finished + 1;
      ChildrenOf(job.graph, children, id);
      remaining, ready := ReleaseChildren(job.graph, completed, id, children[id], remaining, ready);
      completed := completed + [id];
    }

    /** Line 214: notify_all. */
    ghost method NotifyAll(w: nat)
      requires ValidPool() && w < |workers| && workers[w].Notifying?
      modifies this`workers
      ensures StepsTo(job, old(Abs()), Notify(w), Abs())
      ensures ValidPool()
      ensures |workers| == |old(workers)| && workers[w].AtTop?
      ensures forall v :: 0 <= v < |workers| && v != w ==>
                workers[v] == if old(workers)[v].Blocked? then AtTop else old(workers)[v]
    {
      workers := WakeAll(workers)[w := AtTop];
      ReachableStep(job, old(Abs()), Notify(w), Abs());
    }
  }
}
