/** What the batching scheduler records of each request: its deadline, and the counters the client can read. */
module BatchRequests {
  import opened Collections
  import opened BatchScheduler
  import opened BatchInvariants
  import opened BatchTheorems

  // ----- Submissions -----

  /** A client submits with this deadline at step m, the queue has room, and the request gets number id. */
  ghost predicate AcceptedAt(policy: Policy, states: seq<State>, steps: seq<Step>, m: nat, id: nat, deadline: real) {
    && m < |steps| && m < |states| && steps[m] == Submit(deadline)
    && |states[m].queue| < policy.maxQueue && |states[m].futures| == id
  }

  lemma DeadlinesStep(policy: Policy, s: State, step: Step)
    requires Enabled(policy, s, step)
    ensures var s' := Apply(policy, s, step);
      && |s'.deadlines| == |s'.futures|
      && s'.deadlines ==
         if step.Submit? && |s.queue| < policy.maxQueue then s.deadlines + [step.deadline] else s.deadlines
  {
    if step.Settle? {
      SettleEffect(policy, s);
    } else if step.Expire? {
      ExpireEffect(policy, s);
    }
  }

  lemma DeadlinesNext(policy: Policy, states: seq<State>, steps: seq<Step>, n: nat)
    requires IsRun(policy, states, steps) && n < |steps|
    ensures |states[n].deadlines| == |states[n].futures| && |states[n + 1].deadlines| == |states[n + 1].futures|
    ensures states[n + 1].deadlines ==
            if steps[n].Submit? && |states[n].queue| < policy.maxQueue then states[n].deadlines + [steps[n].deadline]
            else states[n].deadlines
  {
    assert StepAt(policy, states, steps, n);
    DeadlinesStep(policy, states[n], steps[n]);
  }

  /** A request is judged by the deadline it was submitted with, for the whole run. */
  lemma {:induction false} DeadlineIsKept(policy: Policy, states: seq<State>, steps: seq<Step>, m: nat, n: nat, id: nat,
                                          deadline: real)
    requires IsRun(policy, states, steps) && m < n < |states| && AcceptedAt(policy, states, steps, m, id, deadline)
    ensures id < |states[n].futures| == |states[n].deadlines| && states[n].deadlines[id] == deadline
    decreases n
  {
    DeadlinesNext(policy, states, steps, n - 1);
    if m < n - 1 {
      DeadlineIsKept(policy, states, steps, m, n - 1, id, deadline);
    }
  }

  /** Every request was accepted at some step. */
  lemma {:induction false} RequestWasAccepted(policy: Policy, states: seq<State>, steps: seq<Step>, n: nat, id: nat)
    returns (m: nat)
    requires IsRun(policy, states, steps) && n < |states| && id < |states[n].futures|
    ensures id < |states[n].deadlines|
    ensures m < n && AcceptedAt(policy, states, steps, m, id, states[n].deadlines[id])
  {
    DeadlinesNext(policy, states, steps, n - 1);
    if id < |states[n - 1].futures| {
      m := RequestWasAccepted(policy, states, steps, n - 1, id);
    } else {
      m := n - 1;
    }
  }

  /** The time that has passed in the first n steps. */
  function Elapsed(steps: seq<Step>, n: nat): real
    requires n <= |steps|
  {
    if n == 0 then 0.0 else Elapsed(steps, n - 1) + if steps[n - 1].Tick? then steps[n - 1].elapsed else 0.0
  }

  /** Submissions that found the queue full in the first n steps. */
  ghost function Refusals(policy: Policy, states: seq<State>, steps: seq<Step>, n: nat): nat
    requires n <= |steps| && n <= |states|
  {
    if n == 0 then 0
    else Refusals(policy, states, steps, n - 1) +
         if steps[n - 1].Submit? && |states[n - 1].queue| >= policy.maxQueue then 1 else 0
  }

  /** The clock shows the time that has passed, and the refusals are counted. */
  lemma {:induction false} ClockAndRefusals(policy: Policy, states: seq<State>, steps: seq<Step>, n: nat)
    requires IsRun(policy, states, steps) && n < |states|
    ensures states[n].clock == Elapsed(steps, n)
    ensures states[n].rejected == Refusals(policy, states, steps, n)
  {
    if n > 0 {
      ClockAndRefusals(policy, states, steps, n - 1);
      assert StepAt(policy, states, steps, n - 1);
    }
  }

  /** A request expires only when its own deadline, as submitted, is not later than the time that has passed. */
  lemma ExpiresOnItsDeadline(policy: Policy, states: seq<State>, steps: seq<Step>, k: nat, m: nat, id: nat, deadline: real)
    requires IsRun(policy, states, steps) && k < m && AcceptedAt(policy, states, steps, k, id, deadline)
    requires CheckedAt(states, steps, id, m)
    ensures m <= |steps|
    ensures ExpiredAt(states, steps, id, m) <==> deadline <= Elapsed(steps, m)
    ensures PassedAt(states, steps, id, m) <==> Elapsed(steps, m) < deadline
  {
    DeadlineIsKept(policy, states, steps, k, m, id, deadline);
    ClockAndRefusals(policy, states, steps, m);
  }

  // ----- Counters -----

  type Kind = Future -> bool

  const IsResult: Kind := (f: Future) => f.Result?
  const IsExpiry: Kind := (f: Future) => f == Raised(DeadlineExpired)
  const IsRunnerFault: Kind := (f: Future) => f.Raised? && f.fault != DeadlineExpired

  /** How many futures are of this kind. */
  function Tally(futures: seq<Future>, kind: Kind): nat {
    if futures == [] then 0
    else Tally(futures[..|futures| - 1], kind) + if kind(futures[|futures| - 1]) then 1 else 0
  }

  lemma {:induction false} TallyUpdate(futures: seq<Future>, kind: Kind, id: nat, f: Future)
    requires id < |futures|
    ensures Tally(futures[id := f], kind) ==
            Tally(futures, kind) - (if kind(futures[id]) then 1 else 0) + if kind(f) then 1 else 0
  {
    var n := |futures| - 1;
    if id < n {
      TallyUpdate(futures[..n], kind, id, f);
      assert futures[id := f][..n] == futures[..n][id := f];
    } else {
      assert futures[id := f][..n] == futures[..n];
    }
  }

  lemma TallyAppend(futures: seq<Future>, kind: Kind, f: Future)
    ensures Tally(futures + [f], kind) == Tally(futures, kind) + if kind(f) then 1 else 0
  {
    assert (futures + [f])[..|futures|] == futures;
  }

  /** Futures of the batch in hand that are set and not yet counted. */
  function SetSoFar(w: Worker, resolving: bool): nat {
    match w
    case Resolving(_, _, k) => if resolving then k else 0
    case Failing(_, _, k) => if resolving then 0 else k
    case _ => 0
  }

  /** The counters agree with the futures. */
  predicate Tallied(s: State) {
    && s.expired == Tally(s.futures, IsExpiry)
    && (!s.worker.Dead? ==>
          && Tally(s.futures, IsResult) == s.completed + SetSoFar(s.worker, true)
          && Tally(s.futures, IsRunnerFault) == s.workerFailed + SetSoFar(s.worker, false))
  }

  predicate FaultIsRunners(w: Worker) {
    w.Failing? ==> w.fault != DeadlineExpired
  }

  lemma TallyOne(futures: seq<Future>, id: nat, f: Future)
    requires id < |futures| && Unresolved(futures[id])
    ensures var after := futures[id := f];
      && Tally(after, IsResult) == Tally(futures, IsResult) + (if f.Result? then 1 else 0)
      && Tally(after, IsExpiry) == Tally(futures, IsExpiry) + (if f == Raised(DeadlineExpired) then 1 else 0)
      && Tally(after, IsRunnerFault) ==
         Tally(futures, IsRunnerFault) + (if f.Raised? && f.fault != DeadlineExpired then 1 else 0)
  {
    TallyUpdate(futures, IsResult, id, f);
    TallyUpdate(futures, IsExpiry, id, f);
    TallyUpdate(futures, IsRunnerFault, id, f);
  }

  lemma TallyOutside(policy: Policy, s: State, step: Step)
    requires Enabled(policy, s, step) && IsOutside(step) && Tallied(s)
    ensures Tallied(Apply(policy, s, step))
  {
    OutsideKeeps(policy, s, step);
    if step.Submit? {
      TallyAppend(s.futures, IsResult, Pending);
      TallyAppend(s.futures, IsExpiry, Pending);
      TallyAppend(s.futures, IsRunnerFault, Pending);
    } else if step.Cancel? {
      TallyOne(s.futures, step.id, Cancelled);
    }
  }

  lemma TallySettle(policy: Policy, s: State)
    requires Enabled(policy, s, Settle) && Tallied(s) && FaultIsRunners(s.worker) && NextUnresolved(s.worker, s.futures)
    ensures Tallied(ApplySettle(policy, s)) && FaultIsRunners(ApplySettle(policy, s).worker)
  {
    var w := s.worker;
    if w.k < |w.valid| {
      TallyOne(s.futures, w.valid[w.k], if w.Resolving? then Result(w.outputs[w.k]) else Raised(w.fault));
    }
  }

  lemma TallyExpire(policy: Policy, s: State)
    requires Enabled(policy, s, Expire) && Tallied(s) && NextUnresolved(s.worker, s.futures)
    ensures Tallied(ApplyExpire(policy, s))
  {
    TallyOne(s.futures, s.worker.batch[s.worker.k], Raised(DeadlineExpired));
  }

  lemma TallyStep(policy: Policy, s: State, step: Step)
    requires Enabled(policy, s, step) && Tallied(s) && FaultIsRunners(s.worker) && NextUnresolved(s.worker, s.futures)
    ensures Tallied(Apply(policy, s, step)) && FaultIsRunners(Apply(policy, s, step).worker)
  {
    if IsOutside(step) {
      TallyOutside(policy, s, step);
      OutsideKeeps(policy, s, step);
    } else if step.Settle? {
      TallySettle(policy, s);
    } else if step.Expire? {
      TallyExpire(policy, s);
    } else {
      TallyOther(policy, s, step);
    }
  }

  lemma TallyOther(policy: Policy, s: State, step: Step)
    requires Enabled(policy, s, step) && Tallied(s) && FaultIsRunners(s.worker)
    requires !IsOutside(step) && !step.Settle? && !step.Expire?
    ensures Tallied(Apply(policy, s, step)) && FaultIsRunners(Apply(policy, s, step).worker)
  {
    var s' := Apply(policy, s, step);
    assert s'.futures == s.futures && s'.expired == s.expired;
    assert s'.completed == s.completed && s'.workerFailed == s.workerFailed;
    assert SetSoFar(s'.worker, true) == SetSoFar(s.worker, true) == 0;
    assert SetSoFar(s'.worker, false) == SetSoFar(s.worker, false) == 0;
  }

  lemma TallyNext(policy: Policy, states: seq<State>, steps: seq<Step>, n: nat)
    requires Configured(policy) && IsRun(policy, states, steps) && n < |steps|
    requires Tallied(states[n]) && FaultIsRunners(states[n].worker)
    ensures Tallied(states[n + 1]) && FaultIsRunners(states[n + 1].worker)
  {
    RunHeld(policy, states, steps, n);
    NextIsUnresolved(states[n]);
    assert StepAt(policy, states, steps, n);
    TallyStep(policy, states[n], steps[n]);
  }

  lemma {:induction false} RunTallied(policy: Policy, states: seq<State>, steps: seq<Step>, n: nat)
    requires Configured(policy) && IsRun(policy, states, steps) && n < |states|
    ensures Tallied(states[n]) && FaultIsRunners(states[n].worker)
  {
    if n > 0 {
      RunTallied(policy, states, steps, n - 1);
      TallyNext(policy, states, steps, n - 1);
    }
  }

  /** The statistics are exact in every state of every run: `expired` is the number of futures with the timeout; between
      batches of a live worker `completed` is the number of futures with a result, and `failed` the number with the
      runner's exception plus the submissions that were refused. */
  lemma StatisticsAreExact(policy: Policy, states: seq<State>, steps: seq<Step>, n: nat)
    requires Configured(policy) && IsRun(policy, states, steps) && n < |states|
    ensures var s := states[n];
      && s.expired == Tally(s.futures, IsExpiry)
      && (!s.worker.Dead? && !s.worker.Resolving? ==> s.completed == Tally(s.futures, IsResult))
      && (!s.worker.Dead? && !s.worker.Failing? ==>
            s.failed == Tally(s.futures, IsRunnerFault) + Refusals(policy, states, steps, n))
  {
    RunTallied(policy, states, steps, n);
    TakenAreAccounted(policy, states, steps, n);
    ClockAndRefusals(policy, states, steps, n);
  }
}
