/** core/scheduler.py: the batching inference scheduler as a transition system.
    Accepted requests are numbered in the order in which they enter the queue. */
module BatchScheduler {
  import opened Collections

  type Output(!new, ==, 0)
  type Error(!new, ==, 0)

  datatype Policy = Policy(maxBatch: nat, maxQueue: nat)

  predicate Configured(policy: Policy) {
    policy.maxBatch > 0 && policy.maxQueue > 0
  }

  datatype Fault =
    | DeadlineExpired
    | RunnerFailed(error: Error)
    | WrongCount(got: nat, expected: nat)

  datatype Future = Pending | Cancelled | Result(output: Output) | Raised(fault: Fault)

  datatype Worker =
    | Idle
    | Collecting(batch: seq<nat>)
    | Checking(batch: seq<nat>, k: nat, valid: seq<nat>)        // batch[..k] checked, valid kept
    | Expiring(batch: seq<nat>, k: nat, valid: seq<nat>)        // batch[k] was not cancelled and is past its deadline
    | Executing(valid: seq<nat>)
    | Resolving(valid: seq<nat>, outputs: seq<Output>, k: nat)  // valid[..k] have their outputs
    | Failing(valid: seq<nat>, fault: Fault, k: nat)            // valid[..k] have the exception
    | Dead                                                      // killed by setting a cancelled future
    | Exited

  /** What the runner does with a batch. */
  datatype Reply = Returned(outputs: seq<Output>) | RunnerRaised(error: Error)

  /** The runner returned one output for each request. */
  predicate Matches(reply: Reply, expected: nat) {
    reply.Returned? && |reply.outputs| == expected
  }

  /** The exception of a batch whose reply does not match. */
  function FaultOf(reply: Reply, expected: nat): Fault {
    match reply
    case Returned(outputs) => WrongCount(|outputs|, expected)
    case RunnerRaised(error) => RunnerFailed(error)
  }

  datatype State = State(
    queue: seq<Option<nat>>,     // None is the stop sentinel
    stop: bool,
    worker: Worker,
    futures: seq<Future>,
    deadlines: seq<real>,
    clock: real,
    taken: nat,                  // requests that left the queue
    dispatched: seq<seq<nat>>,   // batches handed to the runner
    uncounted: nat,              // put into the queue, `_submitted` not yet bumped
    submitted: nat,
    completed: nat,
    failed: nat,
    expired: nat,
    rejected: nat,
    workerFailed: nat,
    skipped: nat,                // found cancelled at their check
    stranded: nat)               // left behind by a dead worker

  const INIT := State([], false, Idle, [], [], 0.0, 0, [], 0, 0, 0, 0, 0, 0, 0, 0, 0)

  // ----- Steps -----

  datatype Step =
    | Submit(deadline: real)
    | CountSubmit
    | Cancel(id: nat)
    | Tick(elapsed: real)
    | Close
    | First                      // the worker gets the first item of a batch, or the sentinel
    | More                       // it gets another item within the wait window
    | Seal                       // the window closed, the queue was empty, or the batch is full
    | CheckOne                   // future.cancelled(), then the deadline
    | Expire                     // set the exception of an expired request
    | Dispatch
    | Execute(reply: Reply)
    | Settle                     // set one future of the batch, or count the finished batch
    | Leave                      // the worker sees the stop flag

  predicate IsWorkerStep(step: Step) {
    || step.First? || step.More? || step.Seal? || step.CheckOne? || step.Expire?
    || step.Dispatch? || step.Execute? || step.Settle?
  }

  predicate Enabled(policy: Policy, s: State, step: Step) {
    && |s.deadlines| == |s.futures|
    && match step {
         case Submit(_) => true
         case CountSubmit => s.uncounted > 0
         case Cancel(id) => id < |s.futures| && s.futures[id].Pending?
         case Tick(elapsed) => elapsed >= 0.0
         case Close => !s.stop
         case First => s.worker.Idle? && s.queue != []
         case More => s.worker.Collecting? && |s.worker.batch| < policy.maxBatch && s.queue != []
         case Seal => s.worker.Collecting?
         case CheckOne => s.worker.Checking? && s.worker.k < |s.worker.batch| &&
                          s.worker.batch[s.worker.k] < |s.futures|
         case Expire => s.worker.Expiring? && s.worker.k < |s.worker.batch| &&
                        s.worker.batch[s.worker.k] < |s.futures|
         case Dispatch => s.worker.Checking? && s.worker.k == |s.worker.batch|
         case Execute(_) => s.worker.Executing?
         case Settle => (s.worker.Resolving? || s.worker.Failing?) && s.worker.k <= |s.worker.valid| &&
                        (s.worker.k < |s.worker.valid| ==> s.worker.valid[s.worker.k] < |s.futures|) &&
                        (s.worker.Resolving? ==> |s.worker.outputs| == |s.worker.valid|)
         case Leave => s.worker.Idle? && s.stop
       }
  }

  function ApplySubmit(policy: Policy, s: State, deadline: real): State {
    if |s.queue| < policy.maxQueue then
      s.(queue := s.queue + [Some(|s.futures|)], futures := s.futures + [Pending],
         deadlines := s.deadlines + [deadline], uncounted := s.uncounted + 1)
    else s.(failed := s.failed + 1, rejected := s.rejected + 1)
  }

  function ApplyCheck(policy: Policy, s: State): State
    requires Enabled(policy, s, CheckOne)
  {
    var batch, k, valid := s.worker.batch, s.worker.k, s.worker.valid;
    var id := batch[k];
    if s.futures[id].Cancelled? then
      s.(worker := Checking(batch, k + 1, valid), skipped := s.skipped + 1)
    else if s.clock >= s.deadlines[id] then s.(worker := Expiring(batch, k, valid))
    else s.(worker := Checking(batch, k + 1, valid + [id]))
  }

  /** Setting the exception of a future that was cancelled since its check raises out of the worker loop. */
  function ApplyExpire(policy: Policy, s: State): State
    requires Enabled(policy, s, Expire)
  {
    var batch, k, valid := s.worker.batch, s.worker.k, s.worker.valid;
    if s.futures[batch[k]].Cancelled? then
      s.(worker := Dead, stranded := s.stranded + |valid| + |batch| - k)
    else
      s.(worker := Checking(batch, k + 1, valid), futures := s.futures[batch[k] := Raised(DeadlineExpired)],
         expired := s.expired + 1)
  }

  function ApplySettle(policy: Policy, s: State): State
    requires Enabled(policy, s, Settle)
  {
    var valid, k := s.worker.valid, s.worker.k;
    if k == |valid| then
      if s.worker.Resolving? then s.(worker := Idle, completed := s.completed + |valid|)
      else s.(worker := Idle, failed := s.failed + |valid|, workerFailed := s.workerFailed + |valid|)
    else if s.futures[valid[k]].Cancelled? then
      s.(worker := Dead, stranded := s.stranded + |valid|)
    else if s.worker.Resolving? then
      s.(worker := Resolving(valid, s.worker.outputs, k + 1), futures := s.futures[valid[k] := Result(s.worker.outputs[k])])
    else s.(worker := Failing(valid, s.worker.fault, k + 1), futures := s.futures[valid[k] := Raised(s.worker.fault)])
  }

  function AfterReply(valid: seq<nat>, reply: Reply): Worker {
    if Matches(reply, |valid|) then Resolving(valid, reply.outputs, 0)
    else Failing(valid, FaultOf(reply, |valid|), 0)
  }

  function Apply(policy: Policy, s: State, step: Step): State
    requires Enabled(policy, s, step)
  {
    match step
    case Submit(deadline) => ApplySubmit(policy, s, deadline)
    case CountSubmit => s.(uncounted := s.uncounted - 1, submitted := s.submitted + 1)
    case Cancel(id) => s.(futures := s.futures[id := Cancelled])
    case Tick(elapsed) => s.(clock := s.clock + elapsed)
    case Close => s.(stop := true, queue := if |s.queue| < policy.maxQueue then s.queue + [None] else s.queue)
    case First =>
      (match s.queue[0]
       case Some(id) => s.(queue := s.queue[1..], worker := Collecting([id]), taken := s.taken + 1)
       case None => s.(queue := s.queue[1..], worker := Exited))
    case More =>
      (match s.queue[0]
       case Some(id) => s.(queue := s.queue[1..], worker := Collecting(s.worker.batch + [id]), taken := s.taken + 1)
       case None => s.(queue := s.queue[1..], worker := Checking(s.worker.batch, 0, []), stop := true))
    case Seal => s.(worker := Checking(s.worker.batch, 0, []))
    case CheckOne => ApplyCheck(policy, s)
    case Expire => ApplyExpire(policy, s)
    case Dispatch =>
      if s.worker.valid == [] then s.(worker := Idle)
      else s.(worker := Executing(s.worker.valid), dispatched := s.dispatched + [s.worker.valid])
    case Execute(reply) => s.(worker := AfterReply(s.worker.valid, reply))
    case Settle => ApplySettle(policy, s)
    case Leave => s.(worker := Exited)
  }

  ghost predicate StepsTo(policy: Policy, s: State, step: Step, s': State) {
    Enabled(policy, s, step) && s' == Apply(policy, s, step)
  }

  /** Step i of the sequence leads from its state to the next. */
  ghost predicate StepAt(policy: Policy, states: seq<State>, steps: seq<Step>, i: nat) {
    i < |steps| && i + 1 < |states| && StepsTo(policy, states[i], steps[i], states[i + 1])
  }

  ghost predicate IsRun(policy: Policy, states: seq<State>, steps: seq<Step>) {
    && |states| == |steps| + 1 && states[0] == INIT
    && (forall i :: 0 <= i < |steps| ==> StepAt(policy, states, steps, i))
  }
}
