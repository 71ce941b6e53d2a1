/** What every step of the operator scheduler keeps. */
module OperatorRunInvariants {
  import opened Collections
  import opened Statuses
  import opened OperatorGraph
  import opened OperatorRun

  /** The lane counters count the workers executing on each lane, within capacity. */
  ghost predicate InvLanes(job: Job, s: State) {
    && |job.limits| == 4 && |s.active| == 4
    && |s.workers| == WorkerCount(job.limits)
    && (forall w :: 0 <= w < |s.workers| && s.workers[w].Running? ==> s.workers[w].id < |job.graph|)
    && (forall d :: 0 <= d < 4 ==> s.active[d] == Count(s.workers, OnLane(job.graph, d)))
    && (forall d :: 0 <= d < 4 ==> s.active[d] <= job.limits[d])
    && s.running == Count(s.workers, IsRunning)
    && s.running <= s.peak <= WorkerCount(job.limits)
  }

  /** Started, completed and ready nodes: dependencies first, each once. */
  ghost predicate InvNodes(job: Job, s: State) {
    && s.finished == |s.completed|
    && Distinct(s.started) && (forall x :: x in s.started ==> x < |job.graph|)
    && Distinct(s.completed) && (forall x :: x in s.completed ==> x in s.started)
    && Topological(job.graph, s.completed)
    && s.ready == Free(job.graph, s.completed, s.started)
    && (forall x :: x in s.started ==> Waiting(job.graph, x, Elems(s.completed)) == {})
  }

  /** Each running node was started, is not completed, and is run by one worker. */
  ghost predicate InvRunning(job: Job, s: State) {
    && (forall w :: 0 <= w < |s.workers| && s.workers[w].Running? ==>
          s.workers[w].id in s.started && s.workers[w].id !in s.completed)
    && (forall v, w :: 0 <= v < w < |s.workers| && s.workers[v].Running? && s.workers[w].Running? ==>
          s.workers[v].id != s.workers[w].id)
  }

  /** The recorded failure, and where a started node is while there is none. */
  ghost predicate InvFailure(job: Job, s: State) {
    && (s.stop <==> s.failure.Some?)
    && (s.failure.Some? ==>
          && s.failure.value.id in s.started && s.failure.value.id !in s.completed
          && Running(s.failure.value.id) !in s.workers
          && s.failure.value.status != Ok)
    && (!s.stop ==> forall x :: x in s.started ==> x in s.completed || Running(x) in s.workers)
  }

  /** No worker sleeps through a wait predicate that holds, unless a notification is on its way. */
  ghost predicate InvWake(job: Job, s: State) {
    && (Exited in s.workers ==> Over(job, s))
    && (WaitPredicate(job, s) && Blocked in s.workers ==> Notifying in s.workers)
  }

  ghost predicate Inv(job: Job, s: State) {
    InvLanes(job, s) && InvNodes(job, s) && InvRunning(job, s) && InvFailure(job, s) && InvWake(job, s)
  }

  // ----- Initially -----

  lemma {:induction false} CountNone(ws: seq<Worker>, p: Worker -> bool)
    requires forall w :: 0 <= w < |ws| ==> !p(ws[w])
    ensures Count(ws, p) == 0
  {
    CountSome(ws, p);
  }

  lemma InitInv(job: Job)
    requires Runnable(job)
    ensures Inv(job, Init(job))
  {
    var s := Init(job);
    forall d | 0 <= d < 4 ensures Count(s.workers, OnLane(job.graph, d)) == 0 {
      CountNone(s.workers, OnLane(job.graph, d));
    }
    CountNone(s.workers, IsRunning);
    assert InvLanes(job, s);
    assert InvNodes(job, s);
  }

  // ----- Lanes -----

  lemma LanesPick(job: Job, s: State, w: nat, id: nat)
    requires InvLanes(job, s) && Enabled(job, s, Pick(w, id))
    ensures InvLanes(job, ApplyPick(job, s, w, id))
  {
    var s' := ApplyPick(job, s, w, id);
    forall d | 0 <= d < 4
      ensures s'.active[d] == Count(s'.workers, OnLane(job.graph, d))
    {
      CountUpdate(s.workers, OnLane(job.graph, d), w, Running(id));
    }
    CountUpdate(s.workers, IsRunning, w, Running(id));
    CountSome(s'.workers, IsRunning);
  }

  lemma LanesFinish(job: Job, s: State, w: nat, result: Status)
    requires InvLanes(job, s) && Enabled(job, s, Finish(w, result))
    ensures InvLanes(job, ApplyFinish(job, s, w, result))
  {
    var s' := ApplyFinish(job, s, w, result);
    forall d | 0 <= d < 4
      ensures s'.active[d] == Count(s'.workers, OnLane(job.graph, d))
    {
      CountUpdate(s.workers, OnLane(job.graph, d), w, Notifying);
    }
    CountUpdate(s.workers, IsRunning, w, Notifying);
  }

  /** A step of a worker that is not running and does not start to leaves every lane alone. */
  lemma LanesIdle(job: Job, s: State, w: nat, x: Worker)
    requires InvLanes(job, s) && w < |s.workers|
    requires !s.workers[w].Running? && !x.Running?
    ensures InvLanes(job, s.(workers := s.workers[w := x]))
  {
    var s' := s.(workers := s.workers[w := x]);
    forall d | 0 <= d < 4
      ensures s'.active[d] == Count(s'.workers, OnLane(job.graph, d))
    {
      CountUpdate(s.workers, OnLane(job.graph, d), w, x);
    }
    CountUpdate(s.workers, IsRunning, w, x);
  }

  lemma LanesWakeAll(job: Job, s: State)
    requires InvLanes(job, s)
    ensures InvLanes(job, s.(workers := WakeAll(s.workers)))
  {
    var s' := s.(workers := WakeAll(s.workers));
    forall d | 0 <= d < 4
      ensures s'.active[d] == Count(s'.workers, OnLane(job.graph, d))
    {
      CountWakeAll(s.workers, OnLane(job.graph, d));
    }
    CountWakeAll(s.workers, IsRunning);
  }

  lemma LanesStep(job: Job, s: State, step: Step)
    requires InvLanes(job, s) && Enabled(job, s, step)
    ensures InvLanes(job, Apply(job, s, step))
  {
    match step
    case Pick(w, id) => LanesPick(job, s, w, id);
    case Spin(w) =>
    case Block(w) => LanesIdle(job, s, w, Blocked);
    case Exit(w) => LanesIdle(job, s, w, Exited);
    case Finish(w, result) => LanesFinish(job, s, w, result);
    case Notify(w) =>
      LanesWakeAll(job, s);
      LanesIdle(job, s.(workers := WakeAll(s.workers)), w, AtTop);
    case Wake(w) => LanesIdle(job, s, w, AtTop);
  }

  // ----- Nodes -----

  lemma NodesPick(job: Job, s: State, w: nat, id: nat)
    requires InvNodes(job, s) && Enabled(job, s, Pick(w, id))
    ensures InvNodes(job, ApplyPick(job, s, w, id))
  {
    var s' := ApplyPick(job, s, w, id);
    DistinctAppend(s.started, id);
    assert s'.ready == Free(job.graph, s.completed, s'.started);
  }

  lemma FreedIsFree(g: Graph, completed: seq<nat>, started: seq<nat>, id: nat)
    requires id !in completed
    requires forall x :: x in started ==> x < |g| && Waiting(g, x, Elems(completed)) == {}
    ensures Free(g, completed, started) + Freed(g, completed, id) == Free(g, completed + [id], started)
  {
    assert Elems(completed + [id]) == Elems(completed) + {id};
    forall c | 0 <= c < |g|
      ensures c in Free(g, completed, started) + Freed(g, completed, id) <==> c in Free(g, completed + [id], started)
    {
      WaitingShrinks(g, c, Elems(completed), id);
      if c in started {
        assert id !in Waiting(g, c, Elems(completed));
      }
      if id in g[c].dependencies {
        assert id in Waiting(g, c, Elems(completed));
      }
    }
  }

  lemma WaitingStaysEmpty(g: Graph, x: nat, completed: seq<nat>, id: nat)
    requires x < |g| && Waiting(g, x, Elems(completed)) == {}
    ensures Waiting(g, x, Elems(completed + [id])) == {}
  {
    assert Waiting(g, x, Elems(completed + [id])) <= Waiting(g, x, Elems(completed));
  }

  lemma NodesComplete(job: Job, s: State, id: nat)
    requires InvNodes(job, s) && id in s.started && id !in s.completed
    ensures InvNodes(job, s.(finished := s.finished + 1, completed := s.completed + [id],
                             ready := s.ready + Freed(job.graph, s.completed, id)))
  {
    FreedIsFree(job.graph, s.completed, s.started, id);
    forall x | x in s.started
      ensures Waiting(job.graph, x, Elems(s.completed + [id])) == {}
    {
      WaitingStaysEmpty(job.graph, x, s.completed, id);
    }
    forall d | d in job.graph[id].dependencies ensures d in s.completed {
      assert d !in Waiting(job.graph, id, Elems(s.completed));
    }
    TopologicalAppend(job.graph, s.completed, id);
    DistinctAppend(s.completed, id);
  }

  lemma NodesStep(job: Job, s: State, step: Step)
    requires InvNodes(job, s) && InvRunning(job, s) && Enabled(job, s, step)
    ensures InvNodes(job, Apply(job, s, step))
  {
    match step
    case Pick(w, id) => NodesPick(job, s, w, id);
    case Finish(w, result) =>
      if result.Ok? && !s.stop {
        NodesComplete(job, s, s.workers[w].id);
      }
    case _ =>
  }

  lemma RunningStep(job: Job, s: State, step: Step)
    requires InvNodes(job, s) && InvRunning(job, s) && Enabled(job, s, step)
    ensures InvRunning(job, Apply(job, s, step))
  {
    var s' := Apply(job, s, step);
    match step
    case Pick(w, id) => RunningPick(job, s, w, id);
    case Finish(w, result) => RunningFinish(job, s, w, result);
    case _ =>
      assert s'.started == s.started && s'.completed == s.completed;
      assert forall v :: 0 <= v < |s'.workers| && s'.workers[v].Running? ==> s.workers[v] == s'.workers[v];
  }

  lemma RunningPick(job: Job, s: State, w: nat, id: nat)
    requires InvNodes(job, s) && InvRunning(job, s) && Enabled(job, s, Pick(w, id))
    ensures InvRunning(job, ApplyPick(job, s, w, id))
  {
    assert id !in s.started;
  }

  lemma RunningFinish(job: Job, s: State, w: nat, result: Status)
    requires InvRunning(job, s) && Enabled(job, s, Finish(w, result))
    ensures InvRunning(job, ApplyFinish(job, s, w, result))
  {
  }

  // ----- Failures -----

  lemma FailurePick(job: Job, s: State, w: nat, id: nat)
    requires InvNodes(job, s) && InvFailure(job, s) && Enabled(job, s, Pick(w, id))
    ensures InvFailure(job, ApplyPick(job, s, w, id))
  {
    var s' := ApplyPick(job, s, w, id);
    assert s'.workers[w] == Running(id);
    forall x | x in s'.started
      ensures x in s'.completed || Running(x) in s'.workers
    {
      if x != id && x !in s.completed {
        var v :| 0 <= v < |s.workers| && s.workers[v] == Running(x);
        assert s'.workers[v] == Running(x);
      }
    }
  }

  lemma FailureFinish(job: Job, s: State, w: nat, result: Status)
    requires InvRunning(job, s) && InvFailure(job, s) && Enabled(job, s, Finish(w, result))
    ensures InvFailure(job, ApplyFinish(job, s, w, result))
  {
    var s' := ApplyFinish(job, s, w, result);
    var id := s.workers[w].id;
    assert Running(id) !in s'.workers;
    forall x | x in s.started && !s'.stop
      ensures x in s'.completed || Running(x) in s'.workers
    {
      if x != id && x !in s.completed {
        var v :| 0 <= v < |s.workers| && s.workers[v] == Running(x);
        assert s'.workers[v] == Running(x);
      }
    }
  }

  /** A worker that neither runs nor starts to run changes no failure fact. */
  lemma FailureIdle(job: Job, s: State, workers: seq<Worker>)
    requires InvFailure(job, s)
    requires |workers| == |s.workers|
    requires forall v, x :: 0 <= v < |workers| ==> (workers[v] == Running(x) <==> s.workers[v] == Running(x))
    ensures InvFailure(job, s.(workers := workers))
  {
    forall x ensures Running(x) in workers <==> Running(x) in s.workers {
      if Running(x) in workers {
        var v :| 0 <= v < |workers| && workers[v] == Running(x);
        assert s.workers[v] == Running(x);
      }
      if Running(x) in s.workers {
        var v :| 0 <= v < |workers| && s.workers[v] == Running(x);
        assert workers[v] == Running(x);
      }
    }
  }

  lemma FailureStep(job: Job, s: State, step: Step)
    requires InvNodes(job, s) && InvRunning(job, s) && InvFailure(job, s) && Enabled(job, s, step)
    ensures InvFailure(job, Apply(job, s, step))
  {
    match step
    case Pick(w, id) => FailurePick(job, s, w, id);
    case Finish(w, result) => FailureFinish(job, s, w, result);
    case Spin(w) =>
    case _ => FailureIdle(job, s, Apply(job, s, step).workers);
  }

  // ----- Wakeups -----

  /** Once every node is completed, none is running. */
  lemma FinishedMeansIdle(job: Job, s: State, w: nat)
    requires InvNodes(job, s) && InvRunning(job, s) && w < |s.workers| && s.workers[w].Running?
    ensures s.finished < |job.graph|
  {
    DistinctBelow(s.completed, |job.graph|);
    assert s.workers[w].id in Upto(|job.graph|) && s.workers[w].id !in Elems(s.completed);
  }

  lemma WakeStep(job: Job, s: State, step: Step)
    requires InvNodes(job, s) && InvRunning(job, s) && InvWake(job, s) && Enabled(job, s, step)
    ensures InvWake(job, Apply(job, s, step))
  {
    var s' := Apply(job, s, step);
    var w := step.w;
    match step {
      case Finish(_, _) =>
        FinishedMeansIdle(job, s, w);
        assert s'.workers[w] == Notifying;
      case Notify(_) =>
        assert Blocked !in s'.workers;
      case Spin(_) =>
      case _ =>
        if Notifying in s.workers {
          var v :| 0 <= v < |s.workers| && s.workers[v] == Notifying;
          assert s'.workers[v] == Notifying;
        }
    }
  }

  /** A running worker can always publish its result: its lane counter and the running counter are positive. */
  lemma RunningCanFinish(job: Job, s: State, w: nat)
    requires InvLanes(job, s) && w < |s.workers| && s.workers[w].Running?
    ensures Enabled(job, s, Finish(w, Ok))
  {
    CountSome(s.workers, IsRunning);
    assert IsRunning(s.workers[w]);
    var p := OnLane(job.graph, LaneOf(job.graph, s.workers[w].id));
    CountSome(s.workers, p);
    assert p(s.workers[w]);
  }

  lemma InvStep(job: Job, s: State, step: Step)
    requires Inv(job, s) && Enabled(job, s, step)
    ensures Inv(job, Apply(job, s, step))
  {
    LanesStep(job, s, step);
    NodesStep(job, s, step);
    RunningStep(job, s, step);
    FailureStep(job, s, step);
    WakeStep(job, s, step);
  }

  /** Every state of every run satisfies the invariant. */
  lemma {:induction false} RunInv(job: Job, states: seq<State>, steps: seq<Step>, i: nat)
    requires Runnable(job) && IsRun(job, states, steps) && i < |states|
    ensures Inv(job, states[i])
  {
    if i == 0 {
      InitInv(job);
    } else {
      RunInv(job, states, steps, i - 1);
      assert StepAt(job, states, steps, i - 1);
      InvStep(job, states[i - 1], steps[i - 1]);
    }
  }

  ghost predicate Reachable(job: Job, s: State) {
    exists states, steps :: IsRun(job, states, steps) && states[|steps|] == s
  }

  lemma ReachableInv(job: Job, s: State)
    requires Runnable(job) && Reachable(job, s)
    ensures Inv(job, s)
  {
    var states, steps :| IsRun(job, states, steps) && states[|steps|] == s;
    RunInv(job, states, steps, |steps|);
  }

  lemma InitReachable(job: Job)
    requires |job.limits| == 4
    ensures Reachable(job, Init(job))
  {
    assert IsRun(job, [Init(job)], []);
  }

  lemma ReachableStep(job: Job, s: State, step: Step, s': State)
    requires Reachable(job, s) && StepsTo(job, s, step, s')
    ensures Reachable(job, s')
  {
    var states, steps :| IsRun(job, states, steps) && states[|steps|] == s;
    var states', steps' := states + [s'], steps + [step];
    forall i | 0 <= i < |steps'| ensures StepAt(job, states', steps', i) {
      if i < |steps| {
        assert StepAt(job, states, steps, i);
      }
    }
    assert IsRun(job, states', steps');
  }
}
