/** src/operator_scheduler.cpp, second half: `OperatorScheduler::run` as a transition system.
    One step is one critical section of one worker, or one notification. */
module OperatorRun {
  import opened Collections
  import opened Statuses
  import opened OperatorGraph

  // ----- States -----

  /** Where a worker thread is. */
  datatype Worker =
    | AtTop                  // about to take the lock and test the wait predicate
    | Blocked                // asleep in condition.wait
    | Running(id: nat)       // executing an operator outside the lock
    | Notifying              // has published a result and is about to call notify_all
    | Exited

  datatype Failed = Failed(id: nat, status: Status)

  /** A graph and the capacities of the cpu, gpu, npu and io lanes. */
  datatype Job = Job(graph: Graph, limits: seq<nat>)

  /** The shared variables of `run`; `started` records the operators in the order they were picked. */
  datatype State = State(
    workers: seq<Worker>,
    ready: set<nat>,
    active: seq<nat>,
    running: nat,
    finished: nat,
    peak: nat,
    stop: bool,
    failure: Option<Failed>,
    completed: seq<nat>,
    started: seq<nat>)

  function Lane(device: Device): (lane: nat)
    ensures lane < 4
  {
    match device
    case Cpu => 0
    case Gpu => 1
    case Npu => 2
    case Io => 3
  }

  function LaneOf(g: Graph, id: nat): (lane: nat)
    requires id < |g|
    ensures lane < 4
  {
    Lane(g[id].device)
  }

  function WorkerCount(limits: seq<nat>): nat
    requires |limits| == 4
  {
    limits[0] + limits[1] + limits[2] + limits[3]
  }

  /** What the constructor of the scheduler and `validate` have checked before the workers start. */
  ghost predicate Runnable(job: Job) {
    && Valid(job.graph)
    && |job.limits| == 4
    && (forall d :: 0 <= d < 4 ==> job.limits[d] > 0)
  }

  /** The nodes that are not started and wait for nothing. */
  function Free(g: Graph, completed: seq<nat>, started: seq<nat>): (r: set<nat>)
    ensures forall c :: c in r <==> 0 <= c < |g| && c !in started && Waiting(g, c, Elems(completed)) == {}
  {
    set c | c in Upto(|g|) && c !in started && Waiting(g, c, Elems(completed)) == {}
  }

  ghost function Init(job: Job): State
    requires |job.limits| == 4
  {
    State(seq(WorkerCount(job.limits), _ => AtTop), Free(job.graph, [], []), [0, 0, 0, 0],
          0, 0, 0, false, None, [], [])
  }

  // ----- Steps -----

  datatype Step =
    | Pick(w: nat, id: nat)            // the selection loop found an operator
    | Spin(w: nat)                     // every ready operator's lane is full: `continue`
    | Block(w: nat)                    // the wait predicate is false
    | Exit(w: nat)                     // stopped or all finished
    | Finish(w: nat, result: Status)   // publish the operator's status, or the cancellation status
    | Notify(w: nat)                   // notify_all
    | Wake(w: nat)                     // a spurious wakeup that finds the predicate true

  predicate Over(job: Job, s: State) {
    s.stop || s.finished == |job.graph|
  }

  predicate WaitPredicate(job: Job, s: State) {
    Over(job, s) || s.ready != {}
  }

  predicate HasRoom(job: Job, active: seq<nat>, id: nat) {
    id < |job.graph| && |active| == 4 && |job.limits| == 4 &&
    active[LaneOf(job.graph, id)] < job.limits[LaneOf(job.graph, id)]
  }

  /** The order of the ready heap: larger priority first, then smaller id. */
  predicate Before(g: Graph, a: nat, b: nat)
    requires a < |g| && b < |g|
  {
    g[a].priority > g[b].priority || (g[a].priority == g[b].priority && a < b)
  }

  /** `id` is the first operator in heap order, among those in `ready`, whose lane has room. */
  predicate Selects(job: Job, ready: set<nat>, active: seq<nat>, id: nat) {
    && id in ready && HasRoom(job, active, id)
    && (forall other :: other in ready && other != id && HasRoom(job, active, other) ==> Before(job.graph, id, other))
  }

  predicate NothingFits(job: Job, ready: set<nat>, active: seq<nat>) {
    forall id :: id in ready ==> !HasRoom(job, active, id)
  }

  predicate Enabled(job: Job, s: State, step: Step) {
    && step.w < |s.workers|
    && match step {
         case Pick(w, id) => s.workers[w].AtTop? && !Over(job, s) && Selects(job, s.ready, s.active, id)
         case Spin(w) => s.workers[w].AtTop? && !Over(job, s) && s.ready != {} && NothingFits(job, s.ready, s.active)
         case Block(w) => s.workers[w].AtTop? && !WaitPredicate(job, s)
         case Exit(w) => s.workers[w].AtTop? && Over(job, s)
         case Finish(w, _) => s.workers[w].Running? && s.workers[w].id < |job.graph| && s.running > 0 &&
                              |s.active| == 4 && s.active[LaneOf(job.graph, s.workers[w].id)] > 0
         case Notify(w) => s.workers[w].Notifying?
         case Wake(w) => s.workers[w].Blocked? && WaitPredicate(job, s)
       }
  }

  function WakeAll(workers: seq<Worker>): (r: seq<Worker>)
    ensures |r| == |workers|
  {
    seq(|workers|, i requires 0 <= i < |workers| => if workers[i].Blocked? then AtTop else workers[i])
  }

  function Max(a: nat, b: nat): nat {
    if a < b then b else a
  }

  function ApplyPick(job: Job, s: State, w: nat, id: nat): State
    requires Enabled(job, s, Pick(w, id))
  {
    var lane := LaneOf(job.graph, id);
    s.(workers := s.workers[w := Running(id)],
       ready := s.ready - {id},
       active := s.active[lane := s.active[lane] + 1],
       running := s.running + 1,
       peak := Max(s.peak, s.running + 1),
       started := s.started + [id])
  }

  /** The operators that completing `id` makes ready. */
  function Freed(g: Graph, completed: seq<nat>, id: nat): (r: set<nat>) {
    set c | c in Upto(|g|) && id in g[c].dependencies && Waiting(g, c, Elems(completed + [id])) == {}
  }

  function Vacated(job: Job, s: State, w: nat): State
    requires Enabled(job, s, Finish(w, Ok))
  {
    var lane := LaneOf(job.graph, s.workers[w].id);
    s.(workers := s.workers[w := Notifying],
       active := s.active[lane := s.active[lane] - 1],
       running := s.running - 1)
  }

  function FailureRecorded(s: State, id: nat, result: Status): State {
    s.(stop := true, failure := Some(Failed(id, result)))
  }

  function CompletionRecorded(g: Graph, s: State, id: nat): State {
    s.(finished := s.finished + 1, completed := s.completed + [id], ready := s.ready + Freed(g, s.completed, id))
  }

  function ApplyFinish(job: Job, s: State, w: nat, result: Status): State
    requires Enabled(job, s, Finish(w, result))
  {
    var id := s.workers[w].id;
    if !result.Ok? && !s.stop then FailureRecorded(Vacated(job, s, w), id, result)
    else if !s.stop then CompletionRecorded(job.graph, Vacated(job, s, w), id)
    else Vacated(job, s, w)
  }

  function Apply(job: Job, s: State, step: Step): State
    requires Enabled(job, s, step)
  {
    match step
    case Pick(w, id) => ApplyPick(job, s, w, id)
    case Spin(w) => s
    case Block(w) => s.(workers := s.workers[w := Blocked])
    case Exit(w) => s.(workers := s.workers[w := Exited])
    case Finish(w, result) => ApplyFinish(job, s, w, result)
    case Notify(w) => s.(workers := WakeAll(s.workers)[w := AtTop])
    case Wake(w) => s.(workers := s.workers[w := AtTop])
  }

  ghost predicate StepsTo(job: Job, s: State, step: Step, s': State) {
    Enabled(job, s, step) && s' == Apply(job, s, step)
  }

  /** Step i of the sequence leads from its state to the next. */
  ghost predicate StepAt(job: Job, states: seq<State>, steps: seq<Step>, i: nat) {
    i < |steps| && i + 1 < |states| && StepsTo(job, states[i], steps[i], states[i + 1])
  }

  /** A run: an alternating sequence of states and steps from the initial state. */
  ghost predicate IsRun(job: Job, states: seq<State>, steps: seq<Step>) {
    && |states| == |steps| + 1
    && |job.limits| == 4 && states[0] == Init(job)
    && (forall i :: 0 <= i < |steps| ==> StepAt(job, states, steps, i))
  }

  // ----- Counting workers -----

  function Count(ws: seq<Worker>, p: Worker -> bool): nat {
    if ws == [] then 0 else (if p(ws[0]) then 1 else 0) + Count(ws[1..], p)
  }

  function One(b: bool): int {
    if b then 1 else 0
  }

  lemma {:induction false} CountUpdate(ws: seq<Worker>, p: Worker -> bool, w: nat, x: Worker)
    requires w < |ws|
    ensures Count(ws[w := x], p) == Count(ws, p) - One(p(ws[w])) + One(p(x))
  {
    if w > 0 {
      CountUpdate(ws[1..], p, w - 1, x);
      assert ws[w := x][1..] == ws[1..][w - 1 := x];
    } else {
      assert ws[w := x][1..] == ws[1..];
    }
  }

  lemma {:induction false} CountSome(ws: seq<Worker>, p: Worker -> bool)
    ensures Count(ws, p) > 0 <==> exists w :: 0 <= w < |ws| && p(ws[w])
    ensures Count(ws, p) < |ws| <==> exists w :: 0 <= w < |ws| && !p(ws[w])
    ensures Count(ws, p) <= |ws|
  {
    if ws != [] {
      CountSome(ws[1..], p);
      assert forall w :: 1 <= w < |ws| ==> ws[w] == ws[1..][w - 1];
    }
  }

  lemma {:induction false} CountWakeAll(ws: seq<Worker>, p: Worker -> bool)
    requires p(AtTop) == p(Blocked)
    ensures Count(WakeAll(ws), p) == Count(ws, p)
  {
    if ws != [] {
      CountWakeAll(ws[1..], p);
      assert WakeAll(ws)[1..] == WakeAll(ws[1..]);
    }
  }

  function OnLane(g: Graph, lane: nat): Worker -> bool {
    (x: Worker) => x.Running? && x.id < |g| && LaneOf(g, x.id) == lane
  }

  const IsRunning: Worker -> bool := (x: Worker) => x.Running?
  const IsAtTop: Worker -> bool := (x: Worker) => x.AtTop?
  const IsBlocked: Worker -> bool := (x: Worker) => x.Blocked?
  const IsNotifying: Worker -> bool := (x: Worker) => x.Notifying?

  lemma {:induction false} RunningIsSumOfLanes(g: Graph, ws: seq<Worker>)
    requires forall w :: 0 <= w < |ws| && ws[w].Running? ==> ws[w].id < |g|
    ensures Count(ws, IsRunning) == Count(ws, OnLane(g, 0)) + Count(ws, OnLane(g, 1)) +
                                    Count(ws, OnLane(g, 2)) + Count(ws, OnLane(g, 3))
  {
    if ws != [] {
      RunningIsSumOfLanes(g, ws[1..]);
    }
  }

  /** The workers running operators of one device. */
  function RunsOn(g: Graph, device: Device): Worker -> bool {
    (x: Worker) => x.Running? && x.id < |g| && g[x.id].device == device
  }

  /** Every device has a lane of its own. */
  lemma {:induction false} LaneIsDevice(g: Graph, ws: seq<Worker>, device: Device)
    ensures Count(ws, OnLane(g, Lane(device))) == Count(ws, RunsOn(g, device))
  {
    if ws != [] {
      LaneIsDevice(g, ws[1..], device);
    }
  }
}
