/** What the operator scheduler guarantees over whole runs. */
module OperatorRunTheorems {
  import opened Collections
  import opened Statuses
  import opened OperatorGraph
  import opened OperatorRun
  import opened OperatorRunInvariants

  // ----- No deadlock -----

  /** Every step but the spin of a worker that finds all lanes full. */
  predicate IsProgress(step: Step) {
    !step.Spin?
  }

  /** Some worker can make progress without the luck of a spurious wakeup. */
  ghost predicate CanProgress(job: Job, s: State) {
    exists step :: IsProgress(step) && !step.Wake? && Enabled(job, s, step)
  }

  ghost predicate AllExited(s: State) {
    forall w :: 0 <= w < |s.workers| ==> s.workers[w].Exited?
  }

  /** Heap order is total, so any nonempty set of candidates has a first one. */
  lemma {:induction false} FirstCandidate(job: Job, ready: set<nat>, active: seq<nat>) returns (id: nat)
    requires exists x :: x in ready && HasRoom(job, active, x)
    ensures Selects(job, ready, active, id)
    decreases ready
  {
    var x :| x in ready && HasRoom(job, active, x);
    if y :| y in ready && y != x && HasRoom(job, active, y) {
      var rest := ready - {x};
      assert y in rest;
      var first := FirstCandidate(job, rest, active);
      id := if Before(job.graph, x, first) then x else first;
    } else {
      id := x;
    }
  }

  /** In a valid graph, some node outside a closed set of completed nodes waits for nothing. */
  lemma SomeNodeIsFree(g: Graph, completed: seq<nat>) returns (c: nat)
    requires Valid(g) && Distinct(completed) && |completed| < |g|
    requires forall x :: x in completed ==> x < |g|
    ensures c < |g| && c !in completed && Waiting(g, c, Elems(completed)) == {}
  {
    var rest := Unvisited(g, completed);
    DistinctSize(completed);
    assert rest != {};
    if forall x :: x in rest ==> DependsInside(g, x, rest) {
      StuckIsNotRanked(g, rest);
      assert false;
    }
    c :| c in rest && !DependsInside(g, c, rest);
    assert forall d :: d in g[c].dependencies ==> d in rest || d in completed;
  }

  /** With nothing running, nothing failed and nodes left, some node is ready. */
  lemma IdleMeansReady(job: Job, s: State)
    requires Runnable(job) && Inv(job, s) && !Over(job, s)
    requires forall w :: 0 <= w < |s.workers| ==> !s.workers[w].Running?
    ensures s.ready != {}
  {
    DistinctBelow(s.completed, |job.graph|);
    var c := SomeNodeIsFree(job.graph, s.completed);
    assert c !in s.started;
    assert c in s.ready;
  }

  lemma IdleLanesHaveRoom(job: Job, s: State, id: nat)
    requires Runnable(job) && InvLanes(job, s) && id < |job.graph|
    requires forall w :: 0 <= w < |s.workers| ==> !s.workers[w].Running?
    ensures HasRoom(job, s.active, id)
  {
    CountNone(s.workers, OnLane(job.graph, LaneOf(job.graph, id)));
  }

  /** A worker at the top of its loop can always move on when no operator is running. */
  lemma TopCanMove(job: Job, s: State, w: nat)
    requires Runnable(job) && Inv(job, s)
    requires w < |s.workers| && s.workers[w].AtTop?
    requires forall v :: 0 <= v < |s.workers| ==> !s.workers[v].Running?
    ensures CanProgress(job, s)
  {
    if !WaitPredicate(job, s) {
      assert Enabled(job, s, Block(w)) && IsProgress(Block(w));
    } else if Over(job, s) {
      assert Enabled(job, s, Exit(w)) && IsProgress(Exit(w));
    } else {
      var x :| x in s.ready;
      IdleLanesHaveRoom(job, s, x);
      var id := FirstCandidate(job, s.ready, s.active);
      assert Enabled(job, s, Pick(w, id)) && IsProgress(Pick(w, id));
    }
  }

  /** No deadlock and no lost wakeup: until every worker has exited, some worker can take a real step. */
  lemma NoDeadlock(job: Job, s: State)
    requires Runnable(job) && Inv(job, s)
    ensures AllExited(s) || CanProgress(job, s)
  {
    if w :| 0 <= w < |s.workers| && s.workers[w].Running? {
      RunningCanFinish(job, s, w);
      assert IsProgress(Finish(w, Ok));
    } else if w :| 0 <= w < |s.workers| && s.workers[w].Notifying? {
      assert Enabled(job, s, Notify(w)) && IsProgress(Notify(w));
    } else if w :| 0 <= w < |s.workers| && s.workers[w].AtTop? {
      TopCanMove(job, s, w);
    } else if w :| 0 <= w < |s.workers| && s.workers[w].Blocked? {
      assert Blocked in s.workers;
      assert !WaitPredicate(job, s);
      IdleMeansReady(job, s);
      assert false;
    }
  }

  /** Steps that do the work of the graph. */
  predicate IsWork(step: Step) {
    step.Pick? || step.Finish? || step.Notify?
  }

  /** While nodes remain and nothing has failed, not merely some step but a pick, a finish or a notification is
      enabled: the pool never degenerates into sleeping, waking and spinning. */
  lemma WorkIsEnabled(job: Job, states: seq<State>, steps: seq<Step>, i: nat)
    requires Runnable(job) && IsRun(job, states, steps) && i < |states| && !Over(job, states[i])
    ensures exists step :: IsWork(step) && Enabled(job, states[i], step)
  {
    RunInv(job, states, steps, i);
    var s := states[i];
    if w :| 0 <= w < |s.workers| && s.workers[w].Running? {
      RunningCanFinish(job, s, w);
      assert IsWork(Finish(w, Ok));
    } else if w :| 0 <= w < |s.workers| && s.workers[w].Notifying? {
      assert Enabled(job, s, Notify(w)) && IsWork(Notify(w));
    } else {
      QuietMeansAtTop(job, s);
      var id := QuietCandidate(job, s);
      assert Enabled(job, s, Pick(0, id)) && IsWork(Pick(0, id));
    }
  }

  /** With nothing running and nobody notifying, every worker is awake. */
  lemma QuietMeansAtTop(job: Job, s: State)
    requires Runnable(job) && Inv(job, s) && !Over(job, s)
    requires forall w :: 0 <= w < |s.workers| ==> !s.workers[w].Running? && !s.workers[w].Notifying?
    ensures |s.workers| > 0 && s.workers[0].AtTop?
  {
    IdleMeansReady(job, s);
    assert Notifying !in s.workers;
    assert s.workers[0] in s.workers;
  }

  lemma QuietCandidate(job: Job, s: State) returns (id: nat)
    requires Runnable(job) && Inv(job, s) && !Over(job, s)
    requires forall w :: 0 <= w < |s.workers| ==> !s.workers[w].Running?
    ensures Selects(job, s.ready, s.active, id)
  {
    IdleMeansReady(job, s);
    var x :| x in s.ready;
    IdleLanesHaveRoom(job, s, x);
    id := FirstCandidate(job, s.ready, s.active);
  }

  /** The wakeup half on its own: a sleeper whose predicate holds is about to be notified. */
  lemma NoLostWakeup(job: Job, states: seq<State>, steps: seq<Step>, i: nat, w: nat)
    requires Runnable(job) && IsRun(job, states, steps) && i < |states|
    requires w < |states[i].workers| && states[i].workers[w].Blocked? && WaitPredicate(job, states[i])
    ensures exists v :: 0 <= v < |states[i].workers| && Enabled(job, states[i], Notify(v))
  {
    RunInv(job, states, steps, i);
    assert states[i].workers[w] == Blocked;
    var v :| 0 <= v < |states[i].workers| && states[i].workers[v] == Notifying;
    assert Enabled(job, states[i], Notify(v));
  }

  // ----- Termination -----

  /** Work left: three units for a node not started, two while it runs, one until its notification. */
  function Work(job: Job, s: State): int {
    3 * (|job.graph| - |s.started|) + 2 * Count(s.workers, IsRunning) + Count(s.workers, IsNotifying)
  }

  /** Wakefulness: sleepers whose predicate holds may still wake and block again. */
  function Wakeful(job: Job, s: State): int {
    Count(s.workers, IsAtTop) + if WaitPredicate(job, s) then 2 * Count(s.workers, IsBlocked) else 0
  }

  function Measure(job: Job, s: State): int {
    Times(2 * |s.workers| + 1, Work(job, s)) + Wakeful(job, s)
  }

  /** Multiplication by repeated addition. */
  function Times(k: nat, a: int): int {
    if k == 0 then 0 else a + Times(k - 1, a)
  }

  lemma {:induction false} TimesFacts(k: nat, a: int)
    ensures Times(k, a - 1) == Times(k, a) - k
    ensures a >= 0 ==> Times(k, a) >= 0
  {
    if k > 0 {
      TimesFacts(k - 1, a);
    }
  }

  lemma {:induction false} TimesIsProduct(k: nat, a: int)
    ensures Times(k, a) == k * a
  {
    if k > 0 {
      TimesIsProduct(k - 1, a);
    }
  }

  lemma {:induction false} TopAndBlocked(ws: seq<Worker>)
    ensures Count(ws, IsAtTop) + Count(ws, IsBlocked) <= |ws|
  {
    if ws != [] {
      TopAndBlocked(ws[1..]);
    }
  }

  lemma MeasureBounds(job: Job, s: State)
    requires InvNodes(job, s)
    ensures 0 <= Work(job, s) && 0 <= Wakeful(job, s) <= 2 * |s.workers|
    ensures 0 <= Measure(job, s)
  {
    WorkBounds(job, s);
    WakefulBounds(job, s);
    TimesFacts(2 * |s.workers| + 1, Work(job, s));
  }

  lemma WorkBounds(job: Job, s: State)
    requires InvNodes(job, s)
    ensures 0 <= Work(job, s)
  {
    DistinctBelow(s.started, |job.graph|);
  }

  lemma WakefulBounds(job: Job, s: State)
    ensures 0 <= Wakeful(job, s) <= 2 * |s.workers|
  {
    TopAndBlocked(s.workers);
  }

  lemma WorkDrops(job: Job, s: State, step: Step)
    requires Enabled(job, s, step) && (step.Pick? || step.Finish? || step.Notify?)
    ensures Work(job, Apply(job, s, step)) == Work(job, s) - 1
  {
    var w := step.w;
    match step {
      case Pick(_, id) =>
        CountUpdate(s.workers, IsRunning, w, Running(id));
        CountUpdate(s.workers, IsNotifying, w, Running(id));
      case Finish(_, _) =>
        CountUpdate(s.workers, IsRunning, w, Notifying);
        CountUpdate(s.workers, IsNotifying, w, Notifying);
      case Notify(_) =>
        CountWakeAll(s.workers, IsRunning);
        CountWakeAll(s.workers, IsNotifying);
        CountUpdate(WakeAll(s.workers), IsRunning, w, AtTop);
        CountUpdate(WakeAll(s.workers), IsNotifying, w, AtTop);
    }
  }

  lemma WakefulDrops(job: Job, s: State, step: Step)
    requires Enabled(job, s, step) && (step.Block? || step.Exit? || step.Wake?)
    ensures Work(job, Apply(job, s, step)) == Work(job, s)
    ensures Wakeful(job, Apply(job, s, step)) == Wakeful(job, s) - 1
  {
    var w := step.w;
    var x := if step.Block? then Blocked else if step.Exit? then Exited else AtTop;
    CountUpdate(s.workers, IsRunning, w, x);
    CountUpdate(s.workers, IsNotifying, w, x);
    CountUpdate(s.workers, IsAtTop, w, x);
    CountUpdate(s.workers, IsBlocked, w, x);
  }

  /** Every step but a spin strictly decreases the measure; a spin changes nothing. */
  lemma ProgressDecreases(job: Job, s: State, step: Step)
    requires Inv(job, s) && Enabled(job, s, step)
    ensures step.Spin? ==> Apply(job, s, step) == s
    ensures IsProgress(step) ==> Measure(job, Apply(job, s, step)) < Measure(job, s)
  {
    NodesStep(job, s, step);
    if step.Pick? || step.Finish? || step.Notify? {
      WorkDrops(job, s, step);
      LessWork(job, s, Apply(job, s, step));
    } else if IsProgress(step) {
      WakefulDrops(job, s, step);
    }
  }

  lemma LessWork(job: Job, s: State, s': State)
    requires InvNodes(job, s) && InvNodes(job, s') && |s'.workers| == |s.workers|
    requires Work(job, s') == Work(job, s) - 1
    ensures Measure(job, s') < Measure(job, s)
  {
    MeasureBounds(job, s);
    MeasureBounds(job, s');
    Outweighs(2 * |s.workers|, Work(job, s), Wakeful(job, s), Wakeful(job, s'));
  }

  lemma Outweighs(k: nat, a: int, b: int, b': int)
    requires 0 <= b && b' <= k
    ensures Times(k + 1, a - 1) + b' < Times(k + 1, a) + b
  {
    TimesFacts(k + 1, a);
  }

  function ProgressSteps(steps: seq<Step>): nat {
    if steps == [] then 0
    else ProgressSteps(steps[..|steps| - 1]) + if IsProgress(steps[|steps| - 1]) then 1 else 0
  }

  lemma RunPrefix(job: Job, states: seq<State>, steps: seq<Step>)
    requires IsRun(job, states, steps) && steps != []
    ensures IsRun(job, states[..|steps|], steps[..|steps| - 1])
  {
    var n := |steps| - 1;
    forall i | 0 <= i < n
      ensures StepAt(job, states[..|steps|], steps[..n], i)
    {
      assert StepAt(job, states, steps, i);
    }
  }

  lemma {:induction false} ProgressIsPaidFor(job: Job, states: seq<State>, steps: seq<Step>)
    requires Runnable(job) && IsRun(job, states, steps)
    ensures ProgressSteps(steps) + Measure(job, states[|steps|]) <= Measure(job, states[0])
    decreases |steps|
  {
    if steps != [] {
      var n := |steps| - 1;
      RunPrefix(job, states, steps);
      ProgressIsPaidFor(job, states[..n + 1], steps[..n]);
      RunInv(job, states, steps, n);
      assert StepAt(job, states, steps, n);
      ProgressDecreases(job, states[n], steps[n]);
    }
  }

  lemma {:induction false} CountAll(ws: seq<Worker>, p: Worker -> bool)
    requires forall w :: 0 <= w < |ws| ==> p(ws[w])
    ensures Count(ws, p) == |ws|
  {
    CountSome(ws, p);
  }

  /** Bounded runs: with n operators and W workers no run takes more than (2W + 1) * 3n + W real steps. */
  lemma RunsAreBounded(job: Job, states: seq<State>, steps: seq<Step>)
    requires Runnable(job) && IsRun(job, states, steps)
    ensures ProgressSteps(steps) <=
            (2 * WorkerCount(job.limits) + 1) * (3 * |job.graph|) + WorkerCount(job.limits)
  {
    ProgressIsPaidFor(job, states, steps);
    LastMeasure(job, states, steps);
    InitialMeasure(job);
  }

  lemma LastMeasure(job: Job, states: seq<State>, steps: seq<Step>)
    requires Runnable(job) && IsRun(job, states, steps)
    ensures 0 <= Measure(job, states[|steps|])
  {
    RunInv(job, states, steps, |steps|);
    MeasureBounds(job, states[|steps|]);
  }

  lemma InitialMeasure(job: Job)
    requires Runnable(job)
    ensures Measure(job, Init(job)) <=
            (2 * WorkerCount(job.limits) + 1) * (3 * |job.graph|) + WorkerCount(job.limits)
  {
    var s := Init(job);
    CountNone(s.workers, IsRunning);
    CountNone(s.workers, IsNotifying);
    CountNone(s.workers, IsBlocked);
    CountAll(s.workers, IsAtTop);
    TimesIsProduct(2 * |s.workers| + 1, 3 * |job.graph|);
  }

  function PickSteps(steps: seq<Step>): nat {
    if steps == [] then 0 else PickSteps(steps[..|steps| - 1]) + One(steps[|steps| - 1].Pick?)
  }

  function FinishSteps(steps: seq<Step>): nat {
    if steps == [] then 0 else FinishSteps(steps[..|steps| - 1]) + One(steps[|steps| - 1].Finish?)
  }

  /** Picks and finishes are conserved: one pick for each started operator, one finish for each that no longer
      runs. So a run has at most n picks and 2n picks and finishes together. */
  lemma {:induction false} PicksAndFinishes(job: Job, states: seq<State>, steps: seq<Step>)
    requires Runnable(job) && IsRun(job, states, steps)
    ensures PickSteps(steps) == |states[|steps|].started| <= |job.graph|
    ensures FinishSteps(steps) + Count(states[|steps|].workers, IsRunning) == PickSteps(steps)
    decreases |steps|
  {
    StartedFits(job, states, steps);
    var n := |steps| - 1;
    if steps == [] {
      CountNone(states[0].workers, IsRunning);
    } else {
      RunPrefix(job, states, steps);
      PicksAndFinishes(job, states[..n + 1], steps[..n]);
      assert StepAt(job, states, steps, n);
      RunningChange(job, states[n], steps[n]);
    }
  }

  lemma StartedFits(job: Job, states: seq<State>, steps: seq<Step>)
    requires Runnable(job) && IsRun(job, states, steps)
    ensures |states[|steps|].started| <= |job.graph|
  {
    RunInv(job, states, steps, |steps|);
    DistinctBelow(states[|steps|].started, |job.graph|);
  }

  lemma RunningChange(job: Job, s: State, step: Step)
    requires Enabled(job, s, step)
    ensures var s' := Apply(job, s, step);
      && |s'.started| == |s.started| + One(step.Pick?)
      && Count(s'.workers, IsRunning) == Count(s.workers, IsRunning) + One(step.Pick?) - One(step.Finish?)
  {
    var w, s' := step.w, Apply(job, s, step);
    if step.Notify? {
      CountWakeAll(s.workers, IsRunning);
      CountUpdate(WakeAll(s.workers), IsRunning, w, AtTop);
    } else if !step.Spin? {
      CountUpdate(s.workers, IsRunning, w, s'.workers[w]);
    }
  }

  // ----- Order of execution -----

  /** Whenever an operator starts, it starts for the first time and all of its dependencies are completed. */
  lemma StartsAfterDependencies(job: Job, states: seq<State>, steps: seq<Step>, i: nat)
    requires Runnable(job) && IsRun(job, states, steps) && i < |steps| && steps[i].Pick?
    ensures steps[i].id < |job.graph| && steps[i].id !in states[i].started
    ensures forall d :: d in job.graph[steps[i].id].dependencies ==> d in states[i].completed
    ensures Distinct(states[i + 1].started)
  {
    RunInv(job, states, steps, i);
    RunInv(job, states, steps, i + 1);
    var s, id := states[i], steps[i].id;
    assert StepAt(job, states, steps, i);
    assert id in s.ready;
    forall d | d in job.graph[id].dependencies ensures d in s.completed {
      assert d !in Waiting(job.graph, id, Elems(s.completed));
    }
  }

  /** How many workers are running operators of this device. */
  function OnDevice(job: Job, s: State, device: Device): nat {
    Count(s.workers, RunsOn(job.graph, device))
  }

  /** Fewer workers than cpu_workers, gpu_workers, npu_workers or io_workers are running operators of this device. */
  predicate DeviceHasRoom(job: Job, s: State, device: Device) {
    && |job.limits| == 4
    && match device {
         case Cpu => OnDevice(job, s, Cpu) < job.limits[0]
         case Gpu => OnDevice(job, s, Gpu) < job.limits[1]
         case Npu => OnDevice(job, s, Npu) < job.limits[2]
         case Io => OnDevice(job, s, Io) < job.limits[3]
       }
  }

  /** Operator `id` could start now, said of the graph and the workers only: it has not started, all its
      dependencies have completed, and its device has room. */
  ghost predicate Startable(job: Job, s: State, id: nat) {
    && id < |job.graph| && id !in s.started
    && (forall d :: d in job.graph[id].dependencies ==> d in s.completed)
    && DeviceHasRoom(job, s, job.graph[id].device)
  }

  /** The scheduler always starts the best startable operator of the graph: it is startable itself, and every other
      operator that is has a smaller priority, or the same and a larger id. */
  lemma StartsByPriority(job: Job, states: seq<State>, steps: seq<Step>, i: nat, other: nat)
    requires Runnable(job) && IsRun(job, states, steps) && i < |steps| && steps[i].Pick?
    ensures Startable(job, states[i], steps[i].id)
    ensures Startable(job, states[i], other) && other != steps[i].id ==>
              var mine, its := job.graph[steps[i].id].priority, job.graph[other].priority;
              its < mine || (its == mine && steps[i].id < other)
  {
    RunInv(job, states, steps, i);
    assert StepAt(job, states, steps, i);
    StartableIffCandidate(job, states[i], steps[i].id);
    StartableIffCandidate(job, states[i], other);
  }

  lemma WaitsForNothing(g: Graph, id: nat, completed: seq<nat>)
    requires id < |g|
    ensures Waiting(g, id, Elems(completed)) == {} <==> forall d :: d in g[id].dependencies ==> d in completed
  {
    var waiting := Waiting(g, id, Elems(completed));
    if d :| d in g[id].dependencies && d !in completed {
      assert d in waiting;
    }
  }

  /** The heap and the lane counters together know exactly the startable operators. */
  lemma StartableIffCandidate(job: Job, s: State, id: nat)
    requires Runnable(job) && InvLanes(job, s) && InvNodes(job, s)
    ensures Startable(job, s, id) <==> id in s.ready && HasRoom(job, s.active, id)
  {
    if id < |job.graph| {
      WaitsForNothing(job.graph, id, s.completed);
      RoomOnDevice(job, s, job.graph[id].device);
    }
  }

  /** The counter of a lane counts the workers on its device. */
  lemma RoomOnDevice(job: Job, s: State, device: Device)
    requires Runnable(job) && InvLanes(job, s)
    ensures DeviceHasRoom(job, s, device) <==> s.active[Lane(device)] < job.limits[Lane(device)]
  {
    LaneIsDevice(job.graph, s.workers, device);
  }

  lemma {:induction false} StartedGrows(job: Job, states: seq<State>, steps: seq<Step>, i: nat, j: nat)
    requires IsRun(job, states, steps) && i <= j < |states|
    ensures states[i].started <= states[j].started
    decreases j
  {
    if i < j {
      StartedGrows(job, states, steps, i, j - 1);
      assert StepAt(job, states, steps, j - 1);
    }
  }

  /** After the first recorded failure nothing starts, nothing completes and the failure stays as recorded. */
  lemma {:induction false} NothingStartsAfterFailure(job: Job, states: seq<State>, steps: seq<Step>, i: nat, j: nat)
    requires IsRun(job, states, steps) && i <= j < |states| && states[i].stop
    ensures states[j].stop && states[j].failure == states[i].failure
    ensures states[j].started == states[i].started && states[j].completed == states[i].completed
    decreases j
  {
    if i < j {
      NothingStartsAfterFailure(job, states, steps, i, j - 1);
      assert StepAt(job, states, steps, j - 1);
    }
  }

  /** Nothing downstream of a node that is not completed has been started. */
  lemma {:induction false} DownstreamNotStarted(job: Job, s: State, p: seq<nat>)
    requires InvNodes(job, s) && IsPath(job.graph, p) && |p| > 1 && p[0] !in s.completed
    ensures p[|p| - 1] !in s.started
    decreases |p|
  {
    var n := |p| - 1;
    if n > 1 {
      assert IsPath(job.graph, p[..n]);
      DownstreamNotStarted(job, s, p[..n]);
    }
    assert p[n - 1] in Waiting(job.graph, p[n], Elems(s.completed));
  }

  /** No descendant of the failed operator is started at any point of the run, before or after the failure. */
  lemma NoDescendantRuns(job: Job, states: seq<State>, steps: seq<Step>, i: nat, j: nat, p: seq<nat>)
    requires Runnable(job) && IsRun(job, states, steps) && i < |states| && j < |states|
    requires states[i].failure.Some? && IsPath(job.graph, p) && |p| > 1 && p[0] == states[i].failure.value.id
    ensures p[|p| - 1] !in states[j].started
  {
    RunInv(job, states, steps, i);
    DownstreamNotStarted(job, states[i], p);
    if j <= i {
      StartedGrows(job, states, steps, j, i);
    } else {
      NothingStartsAfterFailure(job, states, steps, i, j);
    }
  }

  // ----- Lanes -----

  ghost predicate CouldTake(w: Worker) {
    w.AtTop? || w.Blocked? || w.Notifying?
  }

  /** Lane safety: at most cpu_workers, gpu_workers, npu_workers and io_workers operators of each device run at once,
      the counters are exact, and parallelism never exceeds the pool, which has one worker for each place. */
  lemma LaneSafety(job: Job, states: seq<State>, steps: seq<Step>, i: nat)
    requires Runnable(job) && IsRun(job, states, steps) && i < |states|
    ensures var s := states[i];
      && |s.active| == 4
      && s.active[0] == OnDevice(job, s, Cpu) <= job.limits[0]
      && s.active[1] == OnDevice(job, s, Gpu) <= job.limits[1]
      && s.active[2] == OnDevice(job, s, Npu) <= job.limits[2]
      && s.active[3] == OnDevice(job, s, Io) <= job.limits[3]
    ensures states[i].running == Count(states[i].workers, IsRunning) <= states[i].peak <= |states[i].workers|
    ensures |states[i].workers| == job.limits[0] + job.limits[1] + job.limits[2] + job.limits[3]
  {
    RunInv(job, states, steps, i);
    LaneIsDevice(job.graph, states[i].workers, Cpu);
    LaneIsDevice(job.graph, states[i].workers, Gpu);
    LaneIsDevice(job.graph, states[i].workers, Npu);
    LaneIsDevice(job.graph, states[i].workers, Io);
  }

  /** Work conservation: a ready operator whose lane has room always has a worker that could take it. */
  lemma WorkConservation(job: Job, s: State, id: nat)
    requires Runnable(job) && Inv(job, s) && !s.stop
    requires id in s.ready && HasRoom(job, s.active, id)
    ensures exists w :: 0 <= w < |s.workers| && CouldTake(s.workers[w])
  {
    NotAllRunning(job, s, id);
    CountSome(s.workers, IsRunning);
    var w :| 0 <= w < |s.workers| && !IsRunning(s.workers[w]);
    NoneHasExited(job, s, id);
    assert s.workers[w] != Exited;
    assert CouldTake(s.workers[w]);
  }

  lemma NotAllRunning(job: Job, s: State, id: nat)
    requires Runnable(job) && InvLanes(job, s) && HasRoom(job, s.active, id)
    ensures Count(s.workers, IsRunning) < |s.workers|
  {
    RunningIsSumOfLanes(job.graph, s.workers);
  }

  lemma NoneHasExited(job: Job, s: State, id: nat)
    requires Inv(job, s) && !s.stop && id in s.ready
    ensures Exited !in s.workers
  {
    DistinctBelow(s.completed, |job.graph|);
    assert id in Upto(|job.graph|) && id !in Elems(s.completed);
  }

  /** The reported peak is the largest number of operators that ever ran at once. */
  lemma {:induction false} PeakIsExact(job: Job, states: seq<State>, steps: seq<Step>, i: nat)
    requires IsRun(job, states, steps) && i < |states|
    ensures forall j :: 0 <= j <= i ==> states[j].running <= states[i].peak
    ensures exists j :: 0 <= j <= i && states[j].running == states[i].peak
  {
    if i > 0 {
      PeakIsExact(job, states, steps, i - 1);
      assert StepAt(job, states, steps, i - 1);
      var j :| 0 <= j <= i - 1 && states[j].running == states[i - 1].peak;
      if states[i].peak != states[i - 1].peak {
        assert states[i].running == states[i].peak;
      }
    } else {
      assert states[0].running == states[0].peak;
    }
  }

  // ----- The result of a run -----

  datatype Report = Report(completed: seq<string>, peakParallelism: nat)

  function Names(g: Graph, ids: seq<nat>): (r: seq<string>)
    requires forall i :: 0 <= i < |ids| ==> ids[i] < |g|
    ensures |r| == |ids|
    ensures forall i :: 0 <= i < |ids| ==> r[i] == g[ids[i]].name
  {
    seq(|ids|, i requires 0 <= i < |ids| => g[ids[i]].name)
  }

  /** What `run` returns once all workers have been joined. */
  function Outcome(job: Job, s: State): Result<Report>
    requires forall i :: 0 <= i < |s.completed| ==> s.completed[i] < |job.graph|
    requires s.failure.Some? ==> s.failure.value.id < |job.graph| && s.failure.value.status.Error?
  {
    match s.failure
    case Some(Failed(id, Error(code, message))) => Failure(Error(code, job.graph[id].name + ": " + message))
    case _ => Success(Report(Names(job.graph, s.completed), s.peak))
  }

  predicate IsBadFinish(step: Step) {
    step.Finish? && !step.result.Ok?
  }

  /** The recorded failure is the first bad status published in the run, with the operator that published it. */
  lemma {:induction false} FirstFailureIsRecorded(job: Job, states: seq<State>, steps: seq<Step>)
    requires IsRun(job, states, steps)
    ensures var s := states[|steps|];
      && (s.stop <==> s.failure.Some?)
      && (s.failure.None? <==> forall i :: 0 <= i < |steps| ==> !IsBadFinish(steps[i]))
      && (s.failure.Some? ==> exists i ::
            && 0 <= i < |steps| && IsBadFinish(steps[i])
            && (forall j :: 0 <= j < i ==> !IsBadFinish(steps[j]))
            && steps[i].w < |states[i].workers|
            && states[i].workers[steps[i].w] == Running(s.failure.value.id)
            && s.failure.value.status == steps[i].result)
    decreases |steps|
  {
    if steps != [] {
      var n := |steps| - 1;
      RunPrefix(job, states, steps);
      FirstFailureIsRecorded(job, states[..n + 1], steps[..n]);
      assert StepAt(job, states, steps, n);
      var s, s' := states[n], states[n + 1];
      assert states[..n + 1][n] == s;
      if s.failure.None? {
        assert forall i :: 0 <= i < n ==> !IsBadFinish(steps[..n][i]) && steps[..n][i] == steps[i];
      } else {
        assert s'.failure == s.failure;
        var i :| 0 <= i < n && IsBadFinish(steps[..n][i]) &&
                 (forall j :: 0 <= j < i ==> !IsBadFinish(steps[..n][j])) &&
                 steps[..n][i].w < |states[..n + 1][i].workers| &&
                 states[..n + 1][i].workers[steps[..n][i].w] == Running(s.failure.value.id) &&
                 s.failure.value.status == steps[..n][i].result;
        assert steps[i] == steps[..n][i] && IsBadFinish(steps[i]);
        assert forall j :: 0 <= j < i ==> steps[j] == steps[..n][j];
      }
    }
  }

  /** With all workers gone and no failure, every operator is listed once, after its dependencies. */
  lemma CompletedIsWholeGraph(job: Job, s: State)
    requires Runnable(job) && Inv(job, s) && AllExited(s) && !s.stop
    ensures Elems(s.completed) == Upto(|job.graph|) && Distinct(s.completed) && |s.completed| == |job.graph|
    ensures Topological(job.graph, s.completed)
  {
    assert s.workers[0] == Exited;
    assert Exited in s.workers;
    DistinctBelow(s.completed, |job.graph|);
  }

  /** Step i is the first bad finish of the run. */
  ghost predicate FirstBad(steps: seq<Step>, i: nat) {
    i < |steps| && IsBadFinish(steps[i]) && forall j :: 0 <= j < i ==> !IsBadFinish(steps[j])
  }

  /** What `run` returns when no operator failed: every operator once, dependencies first, and the largest number of
      operators that ever ran at once. */
  ghost predicate IsFullReport(job: Job, states: seq<State>, completed: seq<nat>, report: Report) {
    && Distinct(completed) && Elems(completed) == Upto(|job.graph|) && Topological(job.graph, completed)
    && |report.completed| == |completed|
    && (forall i :: 0 <= i < |completed| ==> completed[i] < |job.graph| && report.completed[i] == job.graph[completed[i]].name)
    && (forall j :: 0 <= j < |states| ==> states[j].running <= report.peakParallelism)
    && (exists j :: 0 <= j < |states| && states[j].running == report.peakParallelism)
  }

  /** What `run` returns when an operator failed: the code of the first bad status, and its message after the name of
      the operator that published it. */
  ghost predicate IsFirstFault(job: Job, states: seq<State>, steps: seq<Step>, status: Status) {
    exists i: nat, id: nat ::
      && FirstBad(steps, i) && PublishedBy(states, steps, i, id) && id < |job.graph|
      && status == Error(steps[i].result.code, job.graph[id].name + ": " + steps[i].result.message)
  }

  /** Step i publishes the status of operator id. */
  ghost predicate PublishedBy(states: seq<State>, steps: seq<Step>, i: nat, id: nat) {
    i < |steps| && i < |states| && steps[i].w < |states[i].workers| && states[i].workers[steps[i].w] == Running(id)
  }

  /** The whole story: a run that cannot progress further has joined every worker; it succeeds exactly when no operator
      published a bad status, and then its report is full; otherwise it returns the first fault. */
  lemma RunIsCorrect(job: Job, states: seq<State>, steps: seq<Step>)
    requires Runnable(job) && IsRun(job, states, steps) && !CanProgress(job, states[|steps|])
    ensures var s := states[|steps|];
      && Inv(job, s) && AllExited(s)
      && (forall i :: 0 <= i < |s.completed| ==> s.completed[i] < |job.graph|)
      && (s.failure.Some? ==> s.failure.value.id < |job.graph| && s.failure.value.status.Error?)
      && (Outcome(job, s).Success? <==> forall i :: 0 <= i < |steps| ==> !IsBadFinish(steps[i]))
      && (Outcome(job, s).Success? ==> IsFullReport(job, states, s.completed, Outcome(job, s).value))
      && (Outcome(job, s).Failure? ==> IsFirstFault(job, states, steps, Outcome(job, s).status))
  {
    var s := states[|steps|];
    RunInv(job, states, steps, |steps|);
    NoDeadlock(job, s);
    FirstFailureIsRecorded(job, states, steps);
    if s.stop {
      FaultIsReported(job, states, steps);
    } else {
      ReportIsFull(job, states, steps);
    }
  }

  lemma ReportIsFull(job: Job, states: seq<State>, steps: seq<Step>)
    requires Runnable(job) && IsRun(job, states, steps) && AllExited(states[|steps|]) && states[|steps|].failure.None?
    ensures var s := states[|steps|];
      && (forall i :: 0 <= i < |s.completed| ==> s.completed[i] < |job.graph|)
      && Outcome(job, s).Success? && IsFullReport(job, states, s.completed, Outcome(job, s).value)
  {
    RunInv(job, states, steps, |steps|);
    CompletedIsWholeGraph(job, states[|steps|]);
    PeakIsExact(job, states, steps, |steps|);
  }

  lemma FaultIsReported(job: Job, states: seq<State>, steps: seq<Step>)
    requires Runnable(job) && IsRun(job, states, steps) && states[|steps|].failure.Some?
    ensures var s := states[|steps|];
      && (forall i :: 0 <= i < |s.completed| ==> s.completed[i] < |job.graph|)
      && s.failure.value.id < |job.graph| && s.failure.value.status.Error?
      && Outcome(job, s).Failure? && IsFirstFault(job, states, steps, Outcome(job, s).status)
  {
    RunInv(job, states, steps, |steps|);
    FirstFailureIsRecorded(job, states, steps);
    var failure := states[|steps|].failure.value;
    var i: nat :| i < |steps| && IsBadFinish(steps[i]) && (forall j :: 0 <= j < i ==> !IsBadFinish(steps[j]))
      && steps[i].w < |states[i].workers| && states[i].workers[steps[i].w] == Running(failure.id)
      && failure.status == steps[i].result;
    assert FirstBad(steps, i) && PublishedBy(states, steps, i, failure.id);
  }
}
