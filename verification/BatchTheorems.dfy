/** What the batching scheduler guarantees over whole runs. */
module BatchTheorems {
  import opened Collections
  import opened BatchScheduler
  import opened BatchInvariants

  // ----- Queue, batches and accounting -----

  /** First in, first out: at any time requests 0 .. taken-1 have left the queue, in order, and the queue
      holds the rest in order. */
  lemma LeavesInOrder(policy: Policy, states: seq<State>, steps: seq<Step>, n: nat)
    requires Configured(policy) && IsRun(policy, states, steps) && n < |states|
    ensures var s := states[n];
      && s.taken + |QueuedIds(s.queue)| == |s.futures|
      && (forall k :: 0 <= k < |QueuedIds(s.queue)| ==> QueuedIds(s.queue)[k] == s.taken + k)
      && |s.queue| <= policy.maxQueue
  {
    RunQueue(policy, states, steps, n);
  }

  /** Each batch handed to the runner has between 1 and max_batch_size requests. */
  lemma BatchesAreBounded(policy: Policy, states: seq<State>, steps: seq<Step>, n: nat, b: nat)
    requires Configured(policy) && IsRun(policy, states, steps) && n < |states| && b < |states[n].dispatched|
    ensures 1 <= |states[n].dispatched[b]| <= policy.maxBatch
  {
    RunWorker(policy, states, steps, n);
  }

  /** Every request taken is accounted for once, across completed, failed, expired, cancelled, in the
      worker's hands, or stranded by its death; and the two counters of `failed` add up. */
  lemma TakenAreAccounted(policy: Policy, states: seq<State>, steps: seq<Step>, n: nat)
    requires Configured(policy) && IsRun(policy, states, steps) && n < |states|
    ensures var s := states[n];
      && s.taken == s.completed + s.workerFailed + s.expired + s.skipped + s.stranded + InHands(s.worker)
      && s.failed == s.workerFailed + s.rejected
      && s.submitted + s.uncounted == |s.futures|
  {
    RunBalance(policy, states, steps, n);
  }

  // ----- Batches contain only requests that passed their check -----

  /** Step m of the run checks request id, which is not cancelled then. */
  ghost predicate CheckedAt(states: seq<State>, steps: seq<Step>, id: nat, m: nat) {
    && m < |steps| && m < |states| && steps[m].CheckOne? && states[m].worker.Checking?
    && states[m].worker.k < |states[m].worker.batch| && states[m].worker.batch[states[m].worker.k] == id
    && id < |states[m].futures| && |states[m].deadlines| == |states[m].futures|
    && !states[m].futures[id].Cancelled?
  }

  /** It also finds the deadline still ahead. */
  ghost predicate PassedAt(states: seq<State>, steps: seq<Step>, id: nat, m: nat) {
    CheckedAt(states, steps, id, m) && states[m].clock < states[m].deadlines[id]
  }

  /** It finds the deadline passed. */
  ghost predicate ExpiredAt(states: seq<State>, steps: seq<Step>, id: nat, m: nat) {
    CheckedAt(states, steps, id, m) && states[m].clock >= states[m].deadlines[id]
  }

  lemma KeptGrows(policy: Policy, s: State, step: Step, id: nat)
    requires Enabled(policy, s, step) && id in Kept(Apply(policy, s, step).worker) && id !in Kept(s.worker)
    ensures step.CheckOne? && s.worker.batch[s.worker.k] == id
    ensures !s.futures[id].Cancelled? && s.clock < s.deadlines[id]
  {
    if IsOutside(step) {
      OutsideKeeps(policy, s, step);
    }
  }

  /** A batch never contains a request that was expired or cancelled at its check. */
  lemma {:induction false} KeptWereChecked(policy: Policy, states: seq<State>, steps: seq<Step>, n: nat, id: nat)
    requires IsRun(policy, states, steps) && n < |states| && id in Kept(states[n].worker)
    ensures exists m :: 0 <= m < n && PassedAt(states, steps, id, m)
  {
    if n > 0 {
      assert StepAt(policy, states, steps, n - 1);
      if id in Kept(states[n - 1].worker) {
        KeptWereChecked(policy, states, steps, n - 1, id);
      } else {
        KeptGrows(policy, states[n - 1], steps[n - 1], id);
        assert PassedAt(states, steps, id, n - 1);
      }
    }
  }

  lemma DispatchedStep(policy: Policy, s: State, step: Step)
    requires Enabled(policy, s, step) && Apply(policy, s, step).dispatched != s.dispatched
    ensures Apply(policy, s, step).dispatched == s.dispatched + [Kept(s.worker)]
  {
    if IsOutside(step) {
      OutsideKeeps(policy, s, step);
    }
  }

  lemma {:induction false} DispatchedWereChecked(policy: Policy, states: seq<State>, steps: seq<Step>, n: nat,
                                                 b: nat, id: nat)
    requires IsRun(policy, states, steps) && n < |states|
    requires b < |states[n].dispatched| && id in states[n].dispatched[b]
    ensures exists m :: 0 <= m < n && PassedAt(states, steps, id, m)
  {
    if n > 0 {
      assert StepAt(policy, states, steps, n - 1);
      if states[n].dispatched != states[n - 1].dispatched {
        DispatchedStep(policy, states[n - 1], steps[n - 1]);
      }
      if b < |states[n - 1].dispatched| {
        DispatchedWereChecked(policy, states, steps, n - 1, b, id);
      } else {
        KeptWereChecked(policy, states, steps, n - 1, id);
      }
    }
  }

  // ----- Where outcomes come from -----

  /** At step m the runner answers the batch `valid`, the last one dispatched, with `reply`. */
  ghost predicate AnsweredAt(states: seq<State>, steps: seq<Step>, m: nat, valid: seq<nat>, reply: Reply) {
    && m < |steps| && m < |states| && states[m].worker == Executing(valid) && steps[m] == Execute(reply)
    && states[m].dispatched != [] && states[m].dispatched[|states[m].dispatched| - 1] == valid
  }

  /** A settling worker goes back to the runner's answer. */
  lemma SettlingStep(policy: Policy, s: State, step: Step)
    requires Enabled(policy, s, step)
    requires Apply(policy, s, step).worker.Resolving? || Apply(policy, s, step).worker.Failing?
    ensures var w' := Apply(policy, s, step).worker;
      || (step.Execute? && s.worker.Executing? && w' == AfterReply(s.worker.valid, step.reply))
      || (s.worker.Resolving? && w'.Resolving? && w'.valid == s.worker.valid && w'.outputs == s.worker.outputs)
      || (s.worker.Failing? && w'.Failing? && w'.valid == s.worker.valid && w'.fault == s.worker.fault)
  {
    if IsOutside(step) {
      OutsideKeeps(policy, s, step);
    } else if step.Settle? {
      SettleEffect(policy, s);
    }
  }

  lemma LastDispatched(policy: Policy, states: seq<State>, steps: seq<Step>, n: nat)
    requires Configured(policy) && IsRun(policy, states, steps) && n < |states| && states[n].worker.Executing?
    ensures states[n].dispatched != [] && states[n].dispatched[|states[n].dispatched| - 1] == states[n].worker.valid
  {
    RunKept(policy, states, steps, n);
  }

  lemma {:induction false} SettlingWasAnswered(policy: Policy, states: seq<State>, steps: seq<Step>, n: nat)
    returns (m: nat, reply: Reply)
    requires Configured(policy) && IsRun(policy, states, steps) && n < |states|
    requires states[n].worker.Resolving? || states[n].worker.Failing?
    ensures m < n && AnsweredAt(states, steps, m, states[n].worker.valid, reply)
    ensures states[n].worker.Resolving? ==>
              Matches(reply, |states[n].worker.valid|) && states[n].worker.outputs == reply.outputs
    ensures states[n].worker.Failing? ==> IsFaultOf(reply, |states[n].worker.valid|, states[n].worker.fault)
  {
    var s, step := states[n - 1], steps[n - 1];
    assert StepAt(policy, states, steps, n - 1);
    SettlingStep(policy, s, step);
    if s.worker.Executing? {
      LastDispatched(policy, states, steps, n - 1);
      m, reply := n - 1, step.reply;
    } else {
      m, reply := SettlingWasAnswered(policy, states, steps, n - 1);
    }
  }

  lemma ExpiringStep(policy: Policy, s: State, step: Step)
    requires Enabled(policy, s, step) && Apply(policy, s, step).worker.Expiring?
    ensures Apply(policy, s, step).worker == s.worker ||
            (step.CheckOne? && Apply(policy, s, step).worker == Expiring(s.worker.batch, s.worker.k, s.worker.valid) &&
             !s.futures[s.worker.batch[s.worker.k]].Cancelled? && s.clock >= s.deadlines[s.worker.batch[s.worker.k]])
  {
    if IsOutside(step) {
      OutsideKeeps(policy, s, step);
    }
  }

  lemma {:induction false} ExpiringWasChecked(policy: Policy, states: seq<State>, steps: seq<Step>, n: nat) returns (m: nat)
    requires IsRun(policy, states, steps) && n < |states|
    requires states[n].worker.Expiring? && states[n].worker.k < |states[n].worker.batch|
    ensures m < n && ExpiredAt(states, steps, states[n].worker.batch[states[n].worker.k], m)
  {
    var s, step := states[n - 1], steps[n - 1];
    assert StepAt(policy, states, steps, n - 1);
    ExpiringStep(policy, s, step);
    if s.worker.Expiring? {
      m := ExpiringWasChecked(policy, states, steps, n - 1);
    } else {
      m := n - 1;
    }
  }

  predicate IsOutcome(f: Future) {
    f.Result? || f.Raised?
  }

  /** Only expiry and settlement give a future an outcome. */
  lemma OutcomeAppears(policy: Policy, s: State, step: Step, id: nat)
    requires Enabled(policy, s, step) && id < |Apply(policy, s, step).futures|
    requires IsOutcome(Apply(policy, s, step).futures[id])
    requires id >= |s.futures| || s.futures[id] != Apply(policy, s, step).futures[id]
    ensures var f := Apply(policy, s, step).futures[id];
      || (step.Expire? && s.worker.batch[s.worker.k] == id && f == Raised(DeadlineExpired))
      || (step.Settle? && s.worker.k < |s.worker.valid| && s.worker.valid[s.worker.k] == id &&
          f == OutcomeOf(s.worker, s.worker.k))
  {
    if IsOutside(step) {
      OutsideGrows(policy, s, step);
    } else if step.Settle? {
      SettleEffect(policy, s);
    } else if step.Expire? {
      ExpireEffect(policy, s);
    }
  }

  /** How a request came by its outcome. */
  ghost predicate HasOrigin(states: seq<State>, steps: seq<Step>, id: nat, f: Future, n: nat) {
    match f
    case Result(output) => exists m: nat, valid: seq<nat>, reply, i: nat ::
      GaveResult(states, steps, m, valid, reply, i, id, output) && m < n
    case Raised(DeadlineExpired) => exists m :: 0 <= m < n && ExpiredAt(states, steps, id, m)
    case Raised(fault) => exists m: nat, valid: seq<nat>, reply ::
      GaveFault(states, steps, m, valid, reply, id, fault) && m < n
    case _ => true
  }

  /** The runner returned `output` as entry i of a full reply to a batch whose entry i is the request. */
  ghost predicate GaveResult(states: seq<State>, steps: seq<Step>, m: nat, valid: seq<nat>, reply: Reply, i: nat,
                             id: nat, output: Output) {
    && AnsweredAt(states, steps, m, valid, reply) && reply.Returned? && |reply.outputs| == |valid|
    && i < |valid| && valid[i] == id && reply.outputs[i] == output
  }

  /** The runner raised `fault`, or returned the wrong number of outputs, on a batch with the request. */
  ghost predicate GaveFault(states: seq<State>, steps: seq<Step>, m: nat, valid: seq<nat>, reply: Reply, id: nat,
                            fault: Fault) {
    && AnsweredAt(states, steps, m, valid, reply) && id in valid && IsFaultOf(reply, |valid|, fault)
  }

  /** The exception of a batch of `expected` requests: what the runner raised, or the wrong number it returned. */
  predicate IsFaultOf(reply: Reply, expected: nat, fault: Fault) {
    match reply
    case RunnerRaised(error) => fault == RunnerFailed(error)
    case Returned(outputs) => |outputs| != expected && fault == WrongCount(|outputs|, expected)
  }

  lemma SettledHasOrigin(policy: Policy, states: seq<State>, steps: seq<Step>, n: nat)
    requires Configured(policy) && IsRun(policy, states, steps) && n < |steps| && steps[n].Settle?
    requires states[n].worker.Resolving? || states[n].worker.Failing?
    requires states[n].worker.k < |states[n].worker.valid|
    requires states[n].worker.Resolving? ==> |states[n].worker.outputs| == |states[n].worker.valid|
    ensures HasOrigin(states, steps, states[n].worker.valid[states[n].worker.k],
                      OutcomeOf(states[n].worker, states[n].worker.k), n + 1)
  {
    var w := states[n].worker;
    var m, reply := SettlingWasAnswered(policy, states, steps, n);
    if w.Resolving? {
      assert GaveResult(states, steps, m, w.valid, reply, w.k, w.valid[w.k], w.outputs[w.k]);
    } else {
      assert GaveFault(states, steps, m, w.valid, reply, w.valid[w.k], w.fault);
    }
  }

  lemma OriginStays(states: seq<State>, steps: seq<Step>, id: nat, f: Future, n: nat)
    requires HasOrigin(states, steps, id, f, n)
    ensures HasOrigin(states, steps, id, f, n + 1)
  {
    match f
    case Result(output) =>
      var m: nat, valid: seq<nat>, reply, i: nat :| GaveResult(states, steps, m, valid, reply, i, id, output) && m < n;
    case Raised(DeadlineExpired) =>
    case Raised(fault) =>
      var m: nat, valid: seq<nat>, reply :| GaveFault(states, steps, m, valid, reply, id, fault) && m < n;
    case _ =>
  }

  /** Every outcome has its origin in the run. A result is entry i of the runner's own reply to a dispatched batch
      whose entry i is that request; a runner fault is what the runner raised, or the wrong count it returned, for a
      dispatched batch with that request; an expiry follows a check that found the deadline passed. */
  lemma {:induction false} OutcomesHaveOrigins(policy: Policy, states: seq<State>, steps: seq<Step>, n: nat, id: nat)
    requires Configured(policy) && IsRun(policy, states, steps) && n < |states| && id < |states[n].futures|
    ensures HasOrigin(states, steps, id, states[n].futures[id], n)
  {
    var f := states[n].futures[id];
    if n > 0 && IsOutcome(f) {
      var s, step := states[n - 1], steps[n - 1];
      assert StepAt(policy, states, steps, n - 1);
      if id < |s.futures| && s.futures[id] == f {
        OutcomesHaveOrigins(policy, states, steps, n - 1, id);
        OriginStays(states, steps, id, f, n - 1);
      } else {
        OutcomeAppears(policy, s, step, id);
        if step.Settle? {
          SettledHasOrigin(policy, states, steps, n - 1);
        } else {
          var m := ExpiringWasChecked(policy, states, steps, n - 1);
        }
      }
    }
  }

  /** The completed counter grows only by a whole batch, all of whose futures hold their own output. */
  lemma CompletedBySettle(policy: Policy, s: State, step: Step)
    requires Enabled(policy, s, step) && InvKept(s) && Apply(policy, s, step).completed > s.completed
    ensures step.Settle? && s.worker.Resolving? && s.worker.k == |s.worker.valid|
    ensures Apply(policy, s, step).completed == s.completed + |s.worker.valid|
    ensures SetUpto(s.worker, Apply(policy, s, step).futures, |s.worker.valid|)
  {
    if IsOutside(step) {
      OutsideKeeps(policy, s, step);
    }
  }

  /** The worker's failed counter grows only by a whole batch, all of whose futures hold the one exception. */
  lemma FailedBySettle(policy: Policy, s: State, step: Step)
    requires Enabled(policy, s, step) && InvKept(s) && Apply(policy, s, step).workerFailed > s.workerFailed
    ensures step.Settle? && s.worker.Failing? && s.worker.k == |s.worker.valid|
    ensures Apply(policy, s, step).workerFailed == s.workerFailed + |s.worker.valid|
    ensures SetUpto(s.worker, Apply(policy, s, step).futures, |s.worker.valid|)
  {
    if IsOutside(step) {
      OutsideKeeps(policy, s, step);
    }
  }

  /** Request i gets exactly output i: when the scheduler counts a batch as completed, the runner had answered that
      dispatched batch with one output each, the counter grows by its size, and every request of it holds the output
      at its own place in the reply. */
  lemma OutputsAreAligned(policy: Policy, states: seq<State>, steps: seq<Step>, n: nat)
    returns (m: nat, valid: seq<nat>, outputs: seq<Output>)
    requires Configured(policy) && IsRun(policy, states, steps) && n < |steps|
    requires states[n + 1].completed > states[n].completed
    ensures m < n && AnsweredAt(states, steps, m, valid, Returned(outputs)) && |outputs| == |valid|
    ensures states[n + 1].completed == states[n].completed + |valid|
    ensures forall i :: 0 <= i < |valid| ==>
              valid[i] < |states[n + 1].futures| && states[n + 1].futures[valid[i]] == Result(outputs[i])
  {
    RunKept(policy, states, steps, n);
    assert StepAt(policy, states, steps, n);
    CompletedBySettle(policy, states[n], steps[n]);
    var w := states[n].worker;
    var at, reply := SettlingWasAnswered(policy, states, steps, n);
    m, valid, outputs := at, w.valid, reply.outputs;
    assert forall i :: 0 <= i < |valid| ==> OutcomeOf(w, i) == Result(outputs[i]);
  }

  /** Or the whole batch gets the one exception: when the worker counts a batch as failed, the runner had raised on
      that dispatched batch or returned the wrong number of outputs, and every request of it holds that exception. */
  lemma FailedBatchHoldsException(policy: Policy, states: seq<State>, steps: seq<Step>, n: nat)
    returns (m: nat, valid: seq<nat>, reply: Reply, fault: Fault)
    requires Configured(policy) && IsRun(policy, states, steps) && n < |steps|
    requires states[n + 1].workerFailed > states[n].workerFailed
    ensures m < n && AnsweredAt(states, steps, m, valid, reply)
    ensures reply.RunnerRaised? ==> fault == RunnerFailed(reply.error)
    ensures reply.Returned? ==> |reply.outputs| != |valid| && fault == WrongCount(|reply.outputs|, |valid|)
    ensures states[n + 1].workerFailed == states[n].workerFailed + |valid|
    ensures states[n + 1].failed == states[n].failed + |valid|
    ensures forall i :: 0 <= i < |valid| ==>
              valid[i] < |states[n + 1].futures| && states[n + 1].futures[valid[i]] == Raised(fault)
  {
    RunKept(policy, states, steps, n);
    assert StepAt(policy, states, steps, n);
    FailedBySettle(policy, states[n], steps[n]);
    var w := states[n].worker;
    m, reply := SettlingWasAnswered(policy, states, steps, n);
    valid, fault := w.valid, w.fault;
    assert forall i :: 0 <= i < |valid| ==> OutcomeOf(w, i) == Raised(fault);
  }

  // ----- No future is set twice -----

  lemma {:induction false} ResolvedOnce(policy: Policy, states: seq<State>, steps: seq<Step>, m: nat, n: nat, id: nat)
    requires Configured(policy) && IsRun(policy, states, steps) && m <= n < |states| && id < |states[m].futures|
    requires IsOutcome(states[m].futures[id])
    ensures id < |states[n].futures| && states[n].futures[id] == states[m].futures[id]
    decreases n
  {
    if m < n {
      ResolvedOnce(policy, states, steps, m, n - 1, id);
      ResolvedNext(policy, states, steps, n - 1, id);
    }
  }

  lemma ResolvedNext(policy: Policy, states: seq<State>, steps: seq<Step>, n: nat, id: nat)
    requires Configured(policy) && IsRun(policy, states, steps) && n < |steps| && id < |states[n].futures|
    requires IsOutcome(states[n].futures[id])
    ensures id < |states[n + 1].futures| && states[n + 1].futures[id] == states[n].futures[id]
  {
    RunHeld(policy, states, steps, n);
    NextIsUnresolved(states[n]);
    assert StepAt(policy, states, steps, n);
    ResolvedStays(policy, states[n], steps[n], id);
  }

  /** Whatever the worker is about to set is unresolved. */
  predicate NextUnresolved(w: Worker, futures: seq<Future>) {
    && ((w.Checking? || w.Expiring?) && w.k < |w.batch| ==>
          w.batch[w.k] < |futures| && Unresolved(futures[w.batch[w.k]]))
    && ((w.Resolving? || w.Failing?) && w.k < |w.valid| ==>
          w.valid[w.k] < |futures| && Unresolved(futures[w.valid[w.k]]))
  }

  lemma NextIsUnresolved(s: State)
    requires InvHeld(s)
    ensures NextUnresolved(s.worker, s.futures)
  {
    var held := Held(s.worker);
    if (s.worker.Checking? || s.worker.Expiring?) && s.worker.k < |s.worker.batch| {
      assert held[|s.worker.valid|] == s.worker.batch[s.worker.k];
    } else if (s.worker.Resolving? || s.worker.Failing?) && s.worker.k < |s.worker.valid| {
      assert held[0] == s.worker.valid[s.worker.k];
    }
  }

  lemma ResolvedStays(policy: Policy, s: State, step: Step, id: nat)
    requires NextUnresolved(s.worker, s.futures) && Enabled(policy, s, step)
    requires id < |s.futures| && IsOutcome(s.futures[id])
    ensures id < |Apply(policy, s, step).futures| && Apply(policy, s, step).futures[id] == s.futures[id]
  {
    if IsOutside(step) {
      OutsideGrows(policy, s, step);
    } else if step.Settle? {
      SettleEffect(policy, s);
    } else if step.Expire? {
      ExpireEffect(policy, s);
    } else {
      assert Apply(policy, s, step).futures == s.futures;
    }
  }

  // ----- Progress -----

  ghost predicate CanStep(policy: Policy, s: State) {
    exists step :: IsWorkerStep(step) && Enabled(policy, s, step)
  }

  /** A worker inside a batch always has a step, stopped or not. */
  lemma BusyWorkerCanStep(policy: Policy, s: State)
    requires Inv(policy, s) && !s.worker.Dead? && !s.worker.Exited? && !s.worker.Idle?
    ensures CanStep(policy, s)
  {
    NextIsUnresolved(s);
    match s.worker
    case Collecting(_) => assert Enabled(policy, s, Seal) && IsWorkerStep(Seal);
    case Checking(batch, k, _) =>
      if k < |batch| {
        assert Enabled(policy, s, CheckOne) && IsWorkerStep(CheckOne);
      } else {
        assert Enabled(policy, s, Dispatch) && IsWorkerStep(Dispatch);
      }
    case Expiring(_, _, _) => assert Enabled(policy, s, Expire) && IsWorkerStep(Expire);
    case Executing(_) =>
      var reply := Returned([]);
      assert Enabled(policy, s, Execute(reply)) && IsWorkerStep(Execute(reply));
    case Resolving(_, _, _) => assert Enabled(policy, s, Settle) && IsWorkerStep(Settle);
    case Failing(_, _, _) => assert Enabled(policy, s, Settle) && IsWorkerStep(Settle);
  }

  /** Before close, a live worker with anything queued or in hand always has a step. */
  lemma WorkerCanStep(policy: Policy, s: State)
    requires Inv(policy, s) && !s.stop && !s.worker.Dead? && !s.worker.Exited?
    requires s.queue != [] || !s.worker.Idle?
    ensures CanStep(policy, s)
  {
    if s.worker.Idle? {
      assert Enabled(policy, s, First) && IsWorkerStep(First);
    } else {
      BusyWorkerCanStep(policy, s);
    }
  }

  /** After close a live worker finishes the batch in its hands, and then leaves. */
  lemma StoppedWorkerLeaves(policy: Policy, s: State)
    requires Inv(policy, s) && s.stop && !s.worker.Dead? && !s.worker.Exited?
    ensures if s.worker.Idle? then Enabled(policy, s, Leave) && Apply(policy, s, Leave) == s.(worker := Exited)
            else CanStep(policy, s)
  {
    if !s.worker.Idle? {
      BusyWorkerCanStep(policy, s);
    }
  }

  /** Worker steps left: eight for an item still queued, fewer as it moves through a batch. */
  function WorkLeft(w: Worker): int {
    match w
    case Collecting(batch) => 4 * |batch| + 3
    case Checking(batch, k, valid) => 4 * (|batch| - k) + 3 * |valid| + 2
    case Expiring(batch, k, valid) => 4 * (|batch| - k) + 3 * |valid| + 1
    case Executing(valid) => 3 * |valid| + 1
    case Resolving(valid, _, k) => 2 * (|valid| - k) + 1
    case Failing(valid, _, k) => 2 * (|valid| - k) + 1
    case _ => 0
  }

  function Measure(s: State): int {
    8 * |s.queue| + WorkLeft(s.worker)
  }

  lemma TakeMeasure(policy: Policy, s: State, step: Step)
    requires InvWorker(policy, s) && Enabled(policy, s, step) && (step.First? || step.More? || step.Seal?)
    ensures Measure(Apply(policy, s, step)) < Measure(s)
  {
  }

  lemma CheckMeasure(policy: Policy, s: State)
    requires InvWorker(policy, s) && Enabled(policy, s, CheckOne)
    ensures Measure(ApplyCheck(policy, s)) < Measure(s)
  {
  }

  lemma ExpireMeasure(policy: Policy, s: State)
    requires InvWorker(policy, s) && Enabled(policy, s, Expire)
    ensures Measure(ApplyExpire(policy, s)) < Measure(s)
  {
  }

  lemma RunnerMeasure(policy: Policy, s: State, step: Step)
    requires InvWorker(policy, s) && Enabled(policy, s, step) && (step.Dispatch? || step.Execute?)
    ensures Measure(Apply(policy, s, step)) < Measure(s)
  {
  }

  lemma SettleMeasure(policy: Policy, s: State)
    requires InvWorker(policy, s) && Enabled(policy, s, Settle)
    ensures Measure(ApplySettle(policy, s)) < Measure(s)
  {
  }

  lemma OutsideMeasure(policy: Policy, s: State, step: Step)
    requires Enabled(policy, s, step) && IsOutside(step)
    ensures Measure(Apply(policy, s, step)) ==
            Measure(s) + 8 * (|Apply(policy, s, step).queue| - |s.queue|)
    ensures |Apply(policy, s, step).queue| - |s.queue| ==
            |Apply(policy, s, step).futures| - |s.futures| + if step.Close? && |s.queue| < policy.maxQueue then 1 else 0
  {
  }

  lemma MeasureNonNegative(policy: Policy, s: State)
    requires InvWorker(policy, s)
    ensures Measure(s) >= 0
  {
  }

  lemma WorkerStepDecreases(policy: Policy, s: State, step: Step)
    requires InvWorker(policy, s) && Enabled(policy, s, step) && IsWorkerStep(step)
    ensures Measure(Apply(policy, s, step)) < Measure(s)
    ensures |Apply(policy, s, step).futures| == |s.futures| && (s.stop ==> Apply(policy, s, step).stop)
  {
    match step
    case CheckOne => CheckMeasure(policy, s);
    case Expire => ExpireMeasure(policy, s);
    case Dispatch => RunnerMeasure(policy, s, step);
    case Execute(_) => RunnerMeasure(policy, s, step);
    case Settle => SettleMeasure(policy, s);
    case _ => TakeMeasure(policy, s, step);
  }

  function WorkerSteps(steps: seq<Step>, n: nat): nat
    requires n <= |steps|
  {
    if n == 0 then 0 else WorkerSteps(steps, n - 1) + if IsWorkerStep(steps[n - 1]) then 1 else 0
  }

  function Budget(s: State): int {
    8 * |s.futures| + if s.stop then 8 else 0
  }

  lemma BudgetStep(policy: Policy, s: State, step: Step)
    requires InvWorker(policy, s) && Enabled(policy, s, step)
    ensures Measure(Apply(policy, s, step)) + (if IsWorkerStep(step) then 1 else 0) + Budget(s) <=
            Measure(s) + Budget(Apply(policy, s, step))
  {
    if IsOutside(step) {
      OutsideMeasure(policy, s, step);
    } else if IsWorkerStep(step) {
      WorkerStepDecreases(policy, s, step);
    }
  }

  lemma {:induction false} StepsArePaidFor(policy: Policy, states: seq<State>, steps: seq<Step>, n: nat)
    requires Configured(policy) && IsRun(policy, states, steps) && n <= |steps|
    ensures WorkerSteps(steps, n) + Measure(states[n]) <= Budget(states[n])
  {
    if n > 0 {
      StepsArePaidFor(policy, states, steps, n - 1);
      RunWorker(policy, states, steps, n - 1);
      assert StepAt(policy, states, steps, n - 1);
      BudgetStep(policy, states[n - 1], steps[n - 1]);
    }
  }

  /** A run takes at most eight worker steps for each accepted request, and eight more for the stop sentinel. */
  lemma RunsAreBounded(policy: Policy, states: seq<State>, steps: seq<Step>, n: nat)
    requires Configured(policy) && IsRun(policy, states, steps) && n <= |steps|
    ensures WorkerSteps(steps, n) <= 8 * |states[n].futures| + if states[n].stop then 8 else 0
  {
    StepsArePaidFor(policy, states, steps, n);
    RunWorker(policy, states, steps, n);
    MeasureNonNegative(policy, states[n]);
  }

  // ----- Late cancellation -----

  /** Requests whose cancelled() test is behind and whose future is still to be set: an expired one, and those kept. */
  function Committed(w: Worker): seq<nat> {
    match w
    case Expiring(batch, k, valid) => if k < |batch| then valid + [batch[k]] else valid
    case Resolving(valid, _, k) => if k <= |valid| then valid[k..] else []
    case Failing(valid, _, k) => if k <= |valid| then valid[k..] else []
    case _ => Kept(w)
  }

  /** Cancelling a request between its cancelled() test and the setting of its future. */
  predicate IsLate(s: State, step: Step) {
    step.Cancel? && step.id in Committed(s.worker)
  }

  /** The worker is dead or bound to die: some request it is committed to is cancelled, and setting it will raise. */
  predicate Doomed(s: State) {
    s.worker.Dead? || AnyCancelled(Committed(s.worker), s.futures)
  }

  lemma AnyCancelledCancel(ids: seq<nat>, futures: seq<Future>, id: nat)
    requires id < |futures|
    ensures AnyCancelled(ids, futures[id := Cancelled]) <==> AnyCancelled(ids, futures) || id in ids
  {
    var futures' := futures[id := Cancelled];
    if i :| 0 <= i < |ids| && ids[i] == id {
      assert futures'[ids[i]].Cancelled?;
    }
    if i :| 0 <= i < |ids| && ids[i] < |futures| && futures[ids[i]].Cancelled? {
      assert futures'[ids[i]].Cancelled?;
    }
    if i :| 0 <= i < |ids| && ids[i] < |futures'| && futures'[ids[i]].Cancelled? {
      assert ids[i] == id || futures[ids[i]].Cancelled?;
    }
  }

  lemma AnyCancelledAppend(ids: seq<nat>, futures: seq<Future>, f: Future)
    requires !f.Cancelled?
    ensures AnyCancelled(ids, futures + [f]) <==> AnyCancelled(ids, futures)
  {
    var futures' := futures + [f];
    if i :| 0 <= i < |ids| && ids[i] < |futures| && futures[ids[i]].Cancelled? {
      assert futures'[ids[i]].Cancelled?;
    }
    if i :| 0 <= i < |ids| && ids[i] < |futures'| && futures'[ids[i]].Cancelled? {
      assert ids[i] < |futures|;
    }
  }

  /** An outcome given to some other request changes nothing. */
  lemma AnyCancelledSet(ids: seq<nat>, futures: seq<Future>, id: nat, f: Future)
    requires id < |futures| && id !in ids
    ensures AnyCancelled(ids, futures[id := f]) <==> AnyCancelled(ids, futures)
  {
    var futures' := futures[id := f];
    assert forall i :: 0 <= i < |ids| && ids[i] < |futures| ==> futures'[ids[i]] == futures[ids[i]];
  }

  /** A request that is not cancelled may join or leave. */
  lemma AnyCancelledSnoc(ids: seq<nat>, id: nat, futures: seq<Future>)
    requires id < |futures|
    ensures AnyCancelled(ids + [id], futures) <==> AnyCancelled(ids, futures) || futures[id].Cancelled?
  {
    var all := ids + [id];
    assert all[|ids|] == id;
    if i :| 0 <= i < |ids| && ids[i] < |futures| && futures[ids[i]].Cancelled? {
      assert all[i] == ids[i];
    }
    if i :| 0 <= i < |all| && all[i] < |futures| && futures[all[i]].Cancelled? {
      assert i < |ids| ==> all[i] == ids[i];
    }
  }

  lemma AnyCancelledFirst(valid: seq<nat>, k: nat, futures: seq<Future>)
    requires k < |valid| && valid[k] < |futures|
    ensures AnyCancelled(valid[k..], futures) <==> AnyCancelled(valid[k + 1..], futures) || futures[valid[k]].Cancelled?
  {
    var all, rest := valid[k..], valid[k + 1..];
    assert all[0] == valid[k];
    if i :| 0 <= i < |rest| && rest[i] < |futures| && futures[rest[i]].Cancelled? {
      assert all[i + 1] == rest[i];
    }
    if i :| 0 <= i < |all| && all[i] < |futures| && futures[all[i]].Cancelled? {
      assert i > 0 ==> rest[i - 1] == all[i];
    }
  }

  lemma DoomedOutside(policy: Policy, s: State, step: Step)
    requires Enabled(policy, s, step) && IsOutside(step)
    ensures Doomed(Apply(policy, s, step)) <==> Doomed(s) || IsLate(s, step)
  {
    OutsideKeeps(policy, s, step);
    var ids := Committed(s.worker);
    match step
    case Cancel(id) => AnyCancelledCancel(ids, s.futures, id);
    case Submit(_) => AnyCancelledAppend(ids, s.futures, Pending);
    case _ =>
  }

  lemma DoomedCheck(policy: Policy, s: State)
    requires Enabled(policy, s, CheckOne)
    ensures Doomed(ApplyCheck(policy, s)) <==> Doomed(s)
  {
    CheckEffect(policy, s);
    AnyCancelledSnoc(s.worker.valid, s.worker.batch[s.worker.k], s.futures);
  }

  lemma DoomedExpire(policy: Policy, s: State)
    requires InvHeld(s) && Enabled(policy, s, Expire)
    ensures Doomed(ApplyExpire(policy, s)) <==> Doomed(s)
  {
    var w, id := s.worker, s.worker.batch[s.worker.k];
    ExpireEffect(policy, s);
    AnyCancelledSnoc(w.valid, id, s.futures);
    CheckApart(s);
    AnyCancelledSet(w.valid, s.futures, id, Raised(DeadlineExpired));
  }

  lemma DoomedSettle(policy: Policy, s: State)
    requires Enabled(policy, s, Settle) && Increasing(s.worker.valid)
    ensures Doomed(ApplySettle(policy, s)) <==> Doomed(s)
  {
    var w := s.worker;
    SettleEffect(policy, s);
    CommittedOf(w);
    if w.k < |w.valid| {
      CommittedOf(NextSet(w));
      AnyCancelledFirst(w.valid, w.k, s.futures);
      AnyCancelledNext(w.valid, w.k, s.futures, OutcomeOf(w, w.k));
    }
  }

  lemma CommittedOf(w: Worker)
    requires (w.Resolving? || w.Failing?) && w.k <= |w.valid|
    ensures Committed(w) == w.valid[w.k..]
    ensures w.k == |w.valid| ==> Committed(w) == []
  {
  }

  /** Setting the first of the requests still to be set tells nothing about the others. */
  lemma AnyCancelledNext(valid: seq<nat>, k: nat, futures: seq<Future>, f: Future)
    requires Increasing(valid) && k < |valid| && valid[k] < |futures|
    ensures AnyCancelled(valid[k + 1..], futures[valid[k] := f]) <==> AnyCancelled(valid[k + 1..], futures)
  {
    var rest := valid[k + 1..];
    assert forall i :: 0 <= i < |rest| ==> rest[i] == valid[k + 1 + i];
    AnyCancelledSet(rest, futures, valid[k], f);
  }

  lemma DoomedOther(policy: Policy, s: State, step: Step)
    requires InvWorker(policy, s) && Enabled(policy, s, step) && !IsOutside(step)
    requires !step.CheckOne? && !step.Expire? && !step.Settle?
    ensures Doomed(Apply(policy, s, step)) <==> Doomed(s)
  {
    var s' := Apply(policy, s, step);
    assert s'.futures == s.futures && !s.worker.Dead? && !s'.worker.Dead?;
    assert Committed(s'.worker) == Committed(s.worker);
  }

  /** A step dooms the worker exactly when it is a late cancellation, and nothing saves a doomed worker. */
  lemma DoomedStep(policy: Policy, s: State, step: Step)
    requires Inv(policy, s) && Enabled(policy, s, step)
    ensures Doomed(Apply(policy, s, step)) <==> Doomed(s) || IsLate(s, step)
  {
    if IsOutside(step) {
      DoomedOutside(policy, s, step);
    } else {
      match step
      case CheckOne => DoomedCheck(policy, s);
      case Expire => DoomedExpire(policy, s);
      case Settle =>
        assert Kept(s.worker) == s.worker.valid;
        DoomedSettle(policy, s);
      case _ => DoomedOther(policy, s, step);
    }
  }

  /** Some step before n cancelled a committed request. */
  ghost predicate LateBefore(states: seq<State>, steps: seq<Step>, n: nat) {
    exists m :: 0 <= m < n && m < |steps| && m < |states| && IsLate(states[m], steps[m])
  }

  /** Exactly when the worker is lost: it is dead, or bound to die, if and only if some request was cancelled between
      its cancelled() test and the setting of its future. */
  lemma {:induction false} DoomedIffLate(policy: Policy, states: seq<State>, steps: seq<Step>, n: nat)
    requires Configured(policy) && IsRun(policy, states, steps) && n < |states|
    ensures Doomed(states[n]) <==> LateBefore(states, steps, n)
  {
    if n > 0 {
      DoomedIffLate(policy, states, steps, n - 1);
      DoomedNext(policy, states, steps, n - 1);
      LateStep(states, steps, n - 1);
    }
  }

  lemma DoomedNext(policy: Policy, states: seq<State>, steps: seq<Step>, n: nat)
    requires Configured(policy) && IsRun(policy, states, steps) && n < |steps|
    ensures Doomed(states[n + 1]) <==> Doomed(states[n]) || IsLate(states[n], steps[n])
  {
    RunInv(policy, states, steps, n);
    assert StepAt(policy, states, steps, n);
    DoomedStep(policy, states[n], steps[n]);
  }

  lemma LateStep(states: seq<State>, steps: seq<Step>, n: nat)
    requires n < |steps| && n < |states|
    ensures LateBefore(states, steps, n + 1) <==> LateBefore(states, steps, n) || IsLate(states[n], steps[n])
  {
    if LateBefore(states, steps, n + 1) {
      var m :| 0 <= m < n + 1 && m < |steps| && m < |states| && IsLate(states[m], steps[m]);
      assert m < n || m == n;
    }
  }

  /** When the worker can do nothing more, it is dead if and only if there was a late cancellation. */
  lemma DeadIffLate(policy: Policy, states: seq<State>, steps: seq<Step>, n: nat)
    requires Configured(policy) && IsRun(policy, states, steps) && n < |states| && !CanStep(policy, states[n])
    ensures states[n].worker.Dead? <==> LateBefore(states, steps, n)
  {
    DoomedIffLate(policy, states, steps, n);
    RunInv(policy, states, steps, n);
    var w := states[n].worker;
    if !w.Dead? && !w.Idle? && !w.Exited? {
      BusyWorkerCanStep(policy, states[n]);
    }
    assert w.Idle? || w.Exited? ==> Committed(w) == [];
  }

  lemma StrandedStep(policy: Policy, s: State, step: Step)
    requires Enabled(policy, s, step)
    ensures Apply(policy, s, step).stranded != s.stranded ==> Apply(policy, s, step).worker.Dead?
    ensures s.worker.Dead? ==> Apply(policy, s, step).worker.Dead?
  {
    if IsOutside(step) {
      OutsideKeeps(policy, s, step);
    }
  }

  /** A worker that is alive has stranded nothing. */
  lemma {:induction false} AliveStrandsNothing(policy: Policy, states: seq<State>, steps: seq<Step>, n: nat)
    requires IsRun(policy, states, steps) && n < |states| && !states[n].worker.Dead?
    ensures states[n].stranded == 0
  {
    if n > 0 {
      assert StepAt(policy, states, steps, n - 1);
      StrandedStep(policy, states[n - 1], steps[n - 1]);
      AliveStrandsNothing(policy, states, steps, n - 1);
    }
  }

  predicate NoNewOutcome(before: seq<Future>, after: seq<Future>) {
    forall id :: 0 <= id < |after| && IsOutcome(after[id]) ==> id < |before| && before[id] == after[id]
  }

  /** A dead worker stays dead and takes no step, so no future ever gets an outcome again. */
  lemma {:induction false} DeadForever(policy: Policy, states: seq<State>, steps: seq<Step>, m: nat, n: nat)
    requires IsRun(policy, states, steps) && m <= n < |states| && states[m].worker.Dead?
    ensures states[n].worker.Dead? && !CanStep(policy, states[n])
    ensures NoNewOutcome(states[m].futures, states[n].futures)
    decreases n
  {
    if m < n {
      DeadForever(policy, states, steps, m, n - 1);
      assert StepAt(policy, states, steps, n - 1);
      StrandedStep(policy, states[n - 1], steps[n - 1]);
      DeadStep(policy, states[n - 1], steps[n - 1]);
    }
  }

  lemma DeadStep(policy: Policy, s: State, step: Step)
    requires s.worker.Dead? && Enabled(policy, s, step)
    ensures IsOutside(step) && Grown(s.futures, Apply(policy, s, step).futures)
  {
    OutsideGrows(policy, s, step);
  }

  /** A run without late cancellation never loses its worker, so it strands nothing. */
  lemma TimelyRunsKeepTheWorker(policy: Policy, states: seq<State>, steps: seq<Step>, n: nat)
    requires Configured(policy) && IsRun(policy, states, steps) && n < |states| && !LateBefore(states, steps, n)
    ensures !states[n].worker.Dead? && states[n].stranded == 0
  {
    DoomedIffLate(policy, states, steps, n);
    AliveStrandsNothing(policy, states, steps, n);
  }

  /** Only close makes the worker leave. */
  predicate OpenMeansServing(s: State) {
    s.worker.Exited? || None in s.queue ==> s.stop
  }

  lemma OpenStep(policy: Policy, s: State, step: Step)
    requires OpenMeansServing(s) && Enabled(policy, s, step)
    ensures OpenMeansServing(Apply(policy, s, step))
  {
    var s' := Apply(policy, s, step);
    if IsOutside(step) {
      OutsideKeeps(policy, s, step);
      assert !step.Close? && None in s'.queue ==> None in s.queue;
    } else {
      assert None in s'.queue ==> None in s.queue;
    }
  }

  lemma {:induction false} OpenWorkerServes(policy: Policy, states: seq<State>, steps: seq<Step>, n: nat)
    requires IsRun(policy, states, steps) && n < |states|
    ensures OpenMeansServing(states[n])
  {
    if n > 0 {
      OpenWorkerServes(policy, states, steps, n - 1);
      assert StepAt(policy, states, steps, n - 1);
      OpenStep(policy, states[n - 1], steps[n - 1]);
    }
  }

  /** Before close and without late cancellation, when no worker step is left every accepted request has an outcome
      or was cancelled by its client. */
  lemma EveryRequestSettles(policy: Policy, states: seq<State>, steps: seq<Step>, n: nat, id: nat)
    requires Configured(policy) && IsRun(policy, states, steps) && n < |states| && !LateBefore(states, steps, n)
    requires !states[n].stop && !CanStep(policy, states[n]) && id < |states[n].futures|
    ensures !states[n].futures[id].Pending?
  {
    var s := states[n];
    TimelyRunsKeepTheWorker(policy, states, steps, n);
    OpenWorkerServes(policy, states, steps, n);
    RunInv(policy, states, steps, n);
    if !s.worker.Idle? || s.queue != [] {
      WorkerCanStep(policy, s);
    }
    assert QueuedIds(s.queue) == [] && Held(s.worker) == [];
  }

  // ----- Two runs that lose the worker -----

  lemma RunExtend(policy: Policy, states: seq<State>, steps: seq<Step>, step: Step)
    requires IsRun(policy, states, steps) && Enabled(policy, states[|steps|], step)
    ensures IsRun(policy, states + [Apply(policy, states[|steps|], step)], steps + [step])
  {
    var s' := Apply(policy, states[|steps|], step);
    var states', steps' := states + [s'], steps + [step];
    forall i | 0 <= i < |steps'| ensures StepAt(policy, states', steps', i) {
      if i < |steps| {
        assert StepAt(policy, states, steps, i);
      }
    }
  }

  /** A scheduler that saw one request: its future and the worker. */
  function Lone(f: Future, queue: seq<Option<nat>>, worker: Worker, deadline: real, taken: nat,
                dispatched: seq<seq<nat>>, stranded: nat): State {
    State(queue, false, worker, [f], [deadline], 0.0, taken, dispatched, 1, 0, 0, 0, 0, 0, 0, 0, stranded)
  }

  lemma LoneOpening(policy: Policy, deadline: real)
    requires Configured(policy)
    ensures StepsTo(policy, INIT, Submit(deadline), Lone(Pending, [Some(0)], Idle, deadline, 0, [], 0))
    ensures StepsTo(policy, Lone(Pending, [Some(0)], Idle, deadline, 0, [], 0), First,
                    Lone(Pending, [], Collecting([0]), deadline, 1, [], 0))
    ensures StepsTo(policy, Lone(Pending, [], Collecting([0]), deadline, 1, [], 0), Seal,
                    Lone(Pending, [], Checking([0], 0, []), deadline, 1, [], 0))
  {
    assert [] + [Some(0)] == [Some(0)] && [Some(0)][1..] == [];
  }

  /** Past its deadline: the check, the client's cancellation, and the exception that cannot be set. */
  lemma LoneExpires(policy: Policy)
    ensures StepsTo(policy, Lone(Pending, [], Checking([0], 0, []), 0.0, 1, [], 0), CheckOne,
                    Lone(Pending, [], Expiring([0], 0, []), 0.0, 1, [], 0))
    ensures StepsTo(policy, Lone(Pending, [], Expiring([0], 0, []), 0.0, 1, [], 0), Cancel(0),
                    Lone(Cancelled, [], Expiring([0], 0, []), 0.0, 1, [], 0))
    ensures StepsTo(policy, Lone(Cancelled, [], Expiring([0], 0, []), 0.0, 1, [], 0), Expire,
                    Lone(Cancelled, [], Dead, 0.0, 1, [], 1))
  {
    assert [Pending][0 := Cancelled] == [Cancelled];
  }

  /** Within its deadline: the check, the cancellation while the runner works, and the result that cannot be set. */
  lemma LoneRuns(policy: Policy)
    ensures StepsTo(policy, Lone(Pending, [], Checking([0], 0, []), 1.0, 1, [], 0), CheckOne,
                    Lone(Pending, [], Checking([0], 1, [0]), 1.0, 1, [], 0))
    ensures StepsTo(policy, Lone(Pending, [], Checking([0], 1, [0]), 1.0, 1, [], 0), Dispatch,
                    Lone(Pending, [], Executing([0]), 1.0, 1, [[0]], 0))
    ensures StepsTo(policy, Lone(Pending, [], Executing([0]), 1.0, 1, [[0]], 0), Cancel(0),
                    Lone(Cancelled, [], Executing([0]), 1.0, 1, [[0]], 0))
  {
    assert [] + [0] == [0] && [] + [[0]] == [[0]];
    assert [Pending][0 := Cancelled] == [Cancelled];
  }

  lemma LoneSettles(policy: Policy, output: Output)
    ensures StepsTo(policy, Lone(Cancelled, [], Executing([0]), 1.0, 1, [[0]], 0), Execute(Returned([output])),
                    Lone(Cancelled, [], Resolving([0], [output], 0), 1.0, 1, [[0]], 0))
    ensures StepsTo(policy, Lone(Cancelled, [], Resolving([0], [output], 0), 1.0, 1, [[0]], 0), Settle,
                    Lone(Cancelled, [], Dead, 1.0, 1, [[0]], 1))
  {
  }

  /** After the worker died, another request is accepted and nothing will ever serve it. */
  lemma NextIsStranded(policy: Policy, states: seq<State>, steps: seq<Step>, deadline: real)
    returns (states': seq<State>, steps': seq<Step>)
    requires Configured(policy) && IsRun(policy, states, steps) && |steps| > 0
    requires states[|steps|].worker.Dead? && states[|steps|].queue == [] && |states[|steps|].futures| == 1
    requires |states[|steps|].deadlines| == 1
    ensures IsRun(policy, states', steps') && |steps'| == |steps| + 1 && steps <= steps' && states <= states'
    ensures var s := states'[|steps'|]; |s.futures| == 2 && s.futures[1].Pending? && !CanStep(policy, s)
  {
    var s := states[|steps|];
    RunExtend(policy, states, steps, Submit(deadline));
    states', steps' := states + [Apply(policy, s, Submit(deadline))], steps + [Submit(deadline)];
  }

  /** Concretely: a request that is past its deadline and is cancelled between its check and the setting of its
      exception kills the worker, and the next request stays pending with no worker step left. */
  lemma ExpiryCancellationStrands(policy: Policy) returns (states: seq<State>, steps: seq<Step>)
    requires Configured(policy)
    ensures IsRun(policy, states, steps) && LateBefore(states, steps, |steps|)
    ensures var s := states[|steps|]; |s.futures| == 2 && s.futures[1].Pending? && !CanStep(policy, s)
  {
    LoneOpening(policy, 0.0);
    LoneExpires(policy);
    states := [INIT,
               Lone(Pending, [Some(0)], Idle, 0.0, 0, [], 0),
               Lone(Pending, [], Collecting([0]), 0.0, 1, [], 0),
               Lone(Pending, [], Checking([0], 0, []), 0.0, 1, [], 0),
               Lone(Pending, [], Expiring([0], 0, []), 0.0, 1, [], 0),
               Lone(Cancelled, [], Expiring([0], 0, []), 0.0, 1, [], 0),
               Lone(Cancelled, [], Dead, 0.0, 1, [], 1)];
    steps := [Submit(0.0), First, Seal, CheckOne, Cancel(0), Expire];
    LoneCommits();
    states, steps := NextIsStranded(policy, states, steps, 0.0);
    assert IsLate(states[4], steps[4]);
  }

  lemma LoneCommits()
    ensures IsLate(Lone(Pending, [], Expiring([0], 0, []), 0.0, 1, [], 0), Cancel(0))
  {
    assert Committed(Expiring([0], 0, [])) == [0];
  }

  /** And so does one that is cancelled while the runner works on it. */
  lemma LateCancellationStrands(policy: Policy, output: Output) returns (states: seq<State>, steps: seq<Step>)
    requires Configured(policy)
    ensures IsRun(policy, states, steps) && LateBefore(states, steps, |steps|)
    ensures var s := states[|steps|]; |s.futures| == 2 && s.futures[1].Pending? && !CanStep(policy, s)
  {
    LoneOpening(policy, 1.0);
    LoneRuns(policy);
    LoneSettles(policy, output);
    states := [INIT,
               Lone(Pending, [Some(0)], Idle, 1.0, 0, [], 0),
               Lone(Pending, [], Collecting([0]), 1.0, 1, [], 0),
               Lone(Pending, [], Checking([0], 0, []), 1.0, 1, [], 0),
               Lone(Pending, [], Checking([0], 1, [0]), 1.0, 1, [], 0),
               Lone(Pending, [], Executing([0]), 1.0, 1, [[0]], 0),
               Lone(Cancelled, [], Executing([0]), 1.0, 1, [[0]], 0),
               Lone(Cancelled, [], Resolving([0], [output], 0), 1.0, 1, [[0]], 0),
               Lone(Cancelled, [], Dead, 1.0, 1, [[0]], 1)];
    steps := [Submit(1.0), First, Seal, CheckOne, Dispatch, Cancel(0), Execute(Returned([output])), Settle];
    assert IsLate(states[5], steps[5]);
    states, steps := NextIsStranded(policy, states, steps, 1.0);
    assert IsLate(states[5], steps[5]);
  }
}
