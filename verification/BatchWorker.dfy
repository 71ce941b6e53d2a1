/** core/scheduler.py in its own form: the fields of the scheduler, `submit`, `close` and the phases of `_worker`.
    Every method is a path of steps of `BatchScheduler`, so what holds of every run holds of the object. */
module BatchWorker {
  import opened Collections
  import opened BatchScheduler
  import opened BatchInvariants

  // ----- Paths of steps -----

  ghost predicate IsTrace(policy: Policy, s: State, states: seq<State>, steps: seq<Step>, s': State) {
    && |states| == |steps| + 1 && states[0] == s && states[|steps|] == s'
    && forall i :: 0 <= i < |steps| ==> StepAt(policy, states, steps, i)
  }

  /** The steps lead from s to s'. */
  ghost predicate Path(policy: Policy, s: State, steps: seq<Step>, s': State) {
    exists states :: IsTrace(policy, s, states, steps, s')
  }

  lemma PathNil(policy: Policy, s: State)
    ensures Path(policy, s, [], s)
  {
    assert IsTrace(policy, s, [s], [], s);
  }

  lemma StepElsewhere(policy: Policy, states: seq<State>, steps: seq<Step>, i: nat, states': seq<State>, steps': seq<Step>, j: nat)
    requires StepAt(policy, states, steps, i) && j < |steps'| && j + 1 < |states'|
    requires states'[j] == states[i] && states'[j + 1] == states[i + 1] && steps'[j] == steps[i]
    ensures StepAt(policy, states', steps', j)
  {
  }

  lemma TraceConcat(policy: Policy, s: State, a: seq<State>, aSteps: seq<Step>, mid: State, b: seq<State>, bSteps: seq<Step>,
                    s': State)
    requires IsTrace(policy, s, a, aSteps, mid) && IsTrace(policy, mid, b, bSteps, s')
    ensures IsTrace(policy, s, a + b[1..], aSteps + bSteps, s')
  {
    var states, steps := a + b[1..], aSteps + bSteps;
    forall i | 0 <= i < |steps| ensures StepAt(policy, states, steps, i) {
      if i < |aSteps| {
        assert StepAt(policy, a, aSteps, i);
        StepElsewhere(policy, a, aSteps, i, states, steps, i);
      } else {
        var j := i - |aSteps|;
        assert StepAt(policy, b, bSteps, j);
        StepElsewhere(policy, b, bSteps, j, states, steps, i);
      }
    }
  }

  lemma PathConcat(policy: Policy, s: State, a: seq<Step>, mid: State, b: seq<Step>, s': State)
    requires Path(policy, s, a, mid) && Path(policy, mid, b, s')
    ensures Path(policy, s, a + b, s')
  {
    var first :| IsTrace(policy, s, first, a, mid);
    var second :| IsTrace(policy, mid, second, b, s');
    TraceConcat(policy, s, first, a, mid, second, b, s');
  }

  lemma PathOne(policy: Policy, s: State, step: Step, s': State)
    requires StepsTo(policy, s, step, s')
    ensures Path(policy, s, [step], s')
  {
    assert StepAt(policy, [s, s'], [step], 0);
    assert IsTrace(policy, s, [s, s'], [step], s');
  }

  lemma PathSnoc(policy: Policy, s: State, steps: seq<Step>, mid: State, step: Step, s': State)
    requires Path(policy, s, steps, mid) && StepsTo(policy, mid, step, s')
    ensures Path(policy, s, steps + [step], s')
  {
    PathOne(policy, mid, step, s');
    PathConcat(policy, s, steps, mid, [step], s');
  }

  /** The state before the last step of a path. */
  lemma PathLast(policy: Policy, s: State, steps: seq<Step>, s': State) returns (mid: State)
    requires Path(policy, s, steps, s') && steps != []
    ensures Path(policy, s, steps[..|steps| - 1], mid) && StepsTo(policy, mid, steps[|steps| - 1], s')
  {
    var states :| IsTrace(policy, s, states, steps, s');
    var last := |steps| - 1;
    mid := states[last];
    assert StepAt(policy, states, steps, last);
    TraceFront(policy, s, states, steps, s');
  }

  lemma TraceFront(policy: Policy, s: State, states: seq<State>, steps: seq<Step>, s': State)
    requires IsTrace(policy, s, states, steps, s') && steps != []
    ensures IsTrace(policy, s, states[..|steps|], steps[..|steps| - 1], states[|steps| - 1])
  {
    var front, fewer := states[..|steps|], steps[..|steps| - 1];
    forall i | 0 <= i < |fewer| ensures StepAt(policy, front, fewer, i) {
      assert StepAt(policy, states, steps, i);
      StepElsewhere(policy, states, steps, i, front, fewer, i);
    }
  }

  lemma NoSteps(policy: Policy, s: State, s': State)
    requires Path(policy, s, [], s')
    ensures s == s'
  {
    var states :| IsTrace(policy, s, states, [], s');
  }

  ghost predicate Reachable(policy: Policy, s: State) {
    exists states, steps :: IsRun(policy, states, steps) && states[|steps|] == s
  }

  lemma ReachableInit(policy: Policy)
    ensures Reachable(policy, INIT)
  {
    assert IsRun(policy, [INIT], []);
  }

  lemma ReachableStep(policy: Policy, s: State, step: Step, s': State)
    requires Reachable(policy, s) && StepsTo(policy, s, step, s')
    ensures Reachable(policy, s')
  {
    var states, steps :| IsRun(policy, states, steps) && states[|steps|] == s;
    var states', steps' := states + [s'], steps + [step];
    forall i | 0 <= i < |steps'| ensures StepAt(policy, states', steps', i) {
      if i < |steps| {
        assert StepAt(policy, states, steps, i);
      }
    }
    assert IsRun(policy, states', steps');
  }

  lemma ReachableInv(policy: Policy, s: State)
    requires Configured(policy) && Reachable(policy, s)
    ensures Inv(policy, s)
  {
    var states, steps :| IsRun(policy, states, steps) && states[|steps|] == s;
    RunInv(policy, states, steps, |steps|);
  }

  lemma ReachableSizes(policy: Policy, s: State)
    requires Configured(policy) && Reachable(policy, s)
    ensures |s.deadlines| == |s.futures|
  {
    ReachableInv(policy, s);
  }

  // ----- What other threads do meanwhile -----

  predicate AllOutside(steps: seq<Step>) {
    forall i :: 0 <= i < |steps| ==> IsOutside(steps[i])
  }

  predicate Meanwhile(s: State, s': State) {
    s'.worker == s.worker && s'.completed == s.completed && Aged(s.futures, s'.futures)
  }

  lemma MeanwhileStep(policy: Policy, s: State, step: Step)
    requires Enabled(policy, s, step) && IsOutside(step)
    ensures Meanwhile(s, Apply(policy, s, step))
  {
    OutsideKeeps(policy, s, step);
    OutsideGrows(policy, s, step);
  }

  lemma MeanwhileTransitive(a: State, b: State, c: State)
    requires Meanwhile(a, b) && Meanwhile(b, c)
    ensures Meanwhile(a, c)
  {
  }

  lemma {:induction false} MeanwhilePath(policy: Policy, s: State, steps: seq<Step>, s': State)
    requires Path(policy, s, steps, s') && AllOutside(steps)
    ensures Meanwhile(s, s')
    decreases |steps|
  {
    if steps == [] {
      NoSteps(policy, s, s');
    } else {
      var last := |steps| - 1;
      var mid := PathLast(policy, s, steps, s');
      MeanwhilePath(policy, s, steps[..last], mid);
      MeanwhileStep(policy, mid, steps[last]);
      MeanwhileTransitive(s, mid, s');
    }
  }

  // ----- What the phases compute, whatever happens meanwhile -----

  /** The request the worker turns to next exists. */
  lemma NextInRange(policy: Policy, s: State)
    requires Configured(policy) && Reachable(policy, s)
    ensures |s.deadlines| == |s.futures|
    ensures (s.worker.Checking? || s.worker.Expiring?) && s.worker.k < |s.worker.batch| ==>
              s.worker.batch[s.worker.k] < |s.futures|
    ensures s.worker.Resolving? || s.worker.Failing? ==> SetUpto(s.worker, s.futures, s.worker.k)
    ensures (s.worker.Resolving? || s.worker.Failing?) && s.worker.k < |s.worker.valid| ==>
              s.worker.valid[s.worker.k] < |s.futures|
  {
    ReachableInv(policy, s);
    var w, held := s.worker, Held(s.worker);
    if (w.Checking? || w.Expiring?) && w.k < |w.batch| {
      assert held[|w.valid|] == w.batch[w.k];
    } else if (w.Resolving? || w.Failing?) && w.k < |w.valid| {
      assert held[0] == w.valid[w.k];
    }
  }

  lemma StartsUnchecked(policy: Policy, s: State)
    requires Configured(policy) && Reachable(policy, s) && s.worker.Checking? && s.worker.k == 0
    ensures s.worker.valid == []
  {
    ReachableInv(policy, s);
  }

  /** Request id exists in state s. */
  predicate Knows(s: State, id: nat) {
    |s.deadlines| == |s.futures| && id < |s.futures|
  }

  predicate PassesIn(s: State, id: nat) {
    Knows(s, id) && !s.futures[id].Cancelled? && s.clock < s.deadlines[id]
  }

  predicate ExpiresIn(s: State, id: nat) {
    Knows(s, id) && !s.futures[id].Cancelled? && s.clock >= s.deadlines[id]
  }

  /** The requests that pass, each judged by the state in which it is its turn. */
  function Passing(ids: seq<nat>, at: seq<State>): seq<nat>
    requires |ids| == |at|
  {
    if ids == [] then []
    else
      var last := |ids| - 1;
      Passing(ids[..last], at[..last]) + if PassesIn(at[last], ids[last]) then [ids[last]] else []
  }

  /** Those that were expired in their turn have the exception. */
  predicate ExpiredAreSet(ids: seq<nat>, at: seq<State>, futures: seq<Future>)
    requires |ids| == |at|
  {
    forall j :: 0 <= j < |ids| && ExpiresIn(at[j], ids[j]) ==>
      ids[j] < |futures| && futures[ids[j]] == Raised(DeadlineExpired)
  }

  /** The first k requests of the batch have been checked, in the states listed. */
  ghost predicate CheckedUpto(batch: seq<nat>, s: State, k: nat, at: seq<State>) {
    && k == |at| <= |batch|
    && s.worker == Checking(batch, k, Passing(batch[..k], at))
    && ExpiredAreSet(batch[..k], at, s.futures)
  }

  /** State `seen` is the one on the path in which step `turn` checks request k of the batch. */
  ghost predicate IsTurn(policy: Policy, start: State, steps: seq<Step>, batch: seq<nat>, k: nat, seen: State, turn: nat) {
    && turn < |steps| && steps[turn] == CheckOne && Path(policy, start, steps[..turn], seen)
    && seen.worker.Checking? && seen.worker.batch == batch && seen.worker.k == k
  }

  /** Each request was checked in its own turn. */
  ghost predicate InTurn(policy: Policy, start: State, steps: seq<Step>, batch: seq<nat>, at: seq<State>, turns: seq<nat>) {
    |turns| == |at| && forall k :: 0 <= k < |at| ==> IsTurn(policy, start, steps, batch, k, at[k], turns[k])
  }

  lemma TurnsGrow(policy: Policy, start: State, steps: seq<Step>, steps': seq<Step>, batch: seq<nat>, at: seq<State>,
                  turns: seq<nat>)
    requires InTurn(policy, start, steps, batch, at, turns) && steps <= steps'
    ensures InTurn(policy, start, steps', batch, at, turns)
  {
    forall k | 0 <= k < |at| ensures IsTurn(policy, start, steps', batch, k, at[k], turns[k]) {
      assert IsTurn(policy, start, steps, batch, k, at[k], turns[k]);
      assert steps'[..turns[k]] == steps[..turns[k]];
    }
  }

  lemma TurnsSnoc(policy: Policy, start: State, steps: seq<Step>, batch: seq<nat>, at: seq<State>, turns: seq<nat>,
                  seen: State, turn: nat)
    requires InTurn(policy, start, steps, batch, at, turns) && IsTurn(policy, start, steps, batch, |at|, seen, turn)
    ensures InTurn(policy, start, steps, batch, at + [seen], turns + [turn])
  {
    var at', turns' := at + [seen], turns + [turn];
    forall k | 0 <= k < |at'| ensures IsTurn(policy, start, steps, batch, k, at'[k], turns'[k]) {
      if k < |at| {
        assert IsTurn(policy, start, steps, batch, k, at[k], turns[k]);
      }
    }
  }

  /** Request k was found expired in state `seen` and has not yet got its exception. */
  ghost predicate ExpiringNext(batch: seq<nat>, s: State, k: nat, at: seq<State>, seen: State) {
    && k == |at| < |batch| && ExpiresIn(seen, batch[k])
    && s.worker == Expiring(batch, k, Passing(batch[..k], at))
    && ExpiredAreSet(batch[..k], at, s.futures)
  }

  lemma ExpiredAge(ids: seq<nat>, at: seq<State>, before: seq<Future>, after: seq<Future>)
    requires |ids| == |at| && ExpiredAreSet(ids, at, before) && Aged(before, after)
    ensures ExpiredAreSet(ids, at, after)
  {
  }

  lemma CheckedAges(batch: seq<nat>, s: State, s': State, k: nat, at: seq<State>)
    requires CheckedUpto(batch, s, k, at) && Meanwhile(s, s')
    ensures CheckedUpto(batch, s', k, at)
  {
    ExpiredAge(batch[..k], at, s.futures, s'.futures);
  }

  lemma ExpiringAges(batch: seq<nat>, s: State, s': State, k: nat, at: seq<State>, seen: State)
    requires ExpiringNext(batch, s, k, at, seen) && Meanwhile(s, s')
    ensures ExpiringNext(batch, s', k, at, seen)
  {
    ExpiredAge(batch[..k], at, s.futures, s'.futures);
  }

  lemma PassingSnoc(batch: seq<nat>, k: nat, at: seq<State>, seen: State)
    requires k == |at| < |batch|
    ensures Passing(batch[..k + 1], at + [seen]) ==
            Passing(batch[..k], at) + if PassesIn(seen, batch[k]) then [batch[k]] else []
  {
    assert batch[..k + 1][..k] == batch[..k] && (at + [seen])[..k] == at;
  }

  lemma ExpiredSnoc(batch: seq<nat>, k: nat, at: seq<State>, seen: State, futures: seq<Future>)
    requires k == |at| < |batch| && ExpiredAreSet(batch[..k], at, futures)
    requires ExpiresIn(seen, batch[k]) ==> batch[k] < |futures| && futures[batch[k]] == Raised(DeadlineExpired)
    ensures ExpiredAreSet(batch[..k + 1], at + [seen], futures)
  {
    var ids, all := batch[..k + 1], at + [seen];
    forall j | 0 <= j < |ids| && ExpiresIn(all[j], ids[j])
      ensures ids[j] < |futures| && futures[ids[j]] == Raised(DeadlineExpired)
    {
      if j < k {
        assert batch[..k][j] == ids[j] && at[j] == all[j];
      }
    }
  }

  /** The next request is skipped, kept, or found expired. */
  lemma CheckOneMore(policy: Policy, batch: seq<nat>, s: State, k: nat, at: seq<State>)
    requires CheckedUpto(batch, s, k, at) && Enabled(policy, s, CheckOne)
    ensures var s' := ApplyCheck(policy, s);
      if s'.worker.Expiring? then ExpiringNext(batch, s', k, at, s) else CheckedUpto(batch, s', k + 1, at + [s])
  {
    CheckEffect(policy, s);
    PassingSnoc(batch, k, at, s);
    if !ExpiresIn(s, batch[k]) {
      ExpiredSnoc(batch, k, at, s, s.futures);
    }
  }

  /** It gets its exception, unless it was cancelled since: then the worker is gone. */
  lemma ExpireOneMore(policy: Policy, batch: seq<nat>, s: State, k: nat, at: seq<State>, seen: State)
    requires ExpiringNext(batch, s, k, at, seen) && Enabled(policy, s, Expire)
    ensures var s' := ApplyExpire(policy, s);
      if s'.worker.Dead? then s'.futures == s.futures && s.futures[batch[k]].Cancelled?
      else CheckedUpto(batch, s', k + 1, at + [seen])
  {
    ExpireEffect(policy, s);
    PassingSnoc(batch, k, at, seen);
    if !s.futures[batch[k]].Cancelled? {
      var futures := s.futures[batch[k] := Raised(DeadlineExpired)];
      ExpiredSet(batch[..k], at, s.futures, batch[k]);
      ExpiredSnoc(batch, k, at, seen, futures);
    }
  }

  lemma ExpiredSet(ids: seq<nat>, at: seq<State>, futures: seq<Future>, id: nat)
    requires |ids| == |at| && ExpiredAreSet(ids, at, futures) && id < |futures|
    ensures ExpiredAreSet(ids, at, futures[id := Raised(DeadlineExpired)])
  {
  }

  /** The same worker at request k. */
  function SettlingAt(begun: Worker, k: nat): Worker
    requires begun.Resolving? || begun.Failing?
  {
    if begun.Resolving? then Resolving(begun.valid, begun.outputs, k) else Failing(begun.valid, begun.fault, k)
  }

  /** Request k gets its outcome, unless it is cancelled. */
  lemma SettleOneMore(policy: Policy, begun: Worker, s: State, k: nat)
    requires begun.Resolving? || begun.Failing?
    requires s.worker == SettlingAt(begun, k) && k < |begun.valid| && Enabled(policy, s, Settle)
    ensures var s' := ApplySettle(policy, s);
      && s'.completed == s.completed
      && if s'.worker.Dead? then AnyCancelled(begun.valid, s'.futures) else s'.worker == SettlingAt(begun, k + 1)
  {
    SettleEffect(policy, s);
    if s.futures[begun.valid[k]].Cancelled? {
      assert AnyCancelled(begun.valid, s.futures);
    }
  }

  /** When all futures are set, only the counting is left. */
  lemma AllSettled(policy: Policy, begun: Worker, s: State)
    requires Configured(policy) && Reachable(policy, s) && (begun.Resolving? || begun.Failing?)
    requires s.worker == SettlingAt(begun, |begun.valid|)
    ensures Enabled(policy, s, Settle)
    ensures var s' := ApplySettle(policy, s);
      && s'.worker == Idle && SetUpto(begun, s'.futures, |begun.valid|) && !AnyCancelled(begun.valid, s'.futures)
      && s'.completed == s.completed + if begun.Resolving? then |begun.valid| else 0
  {
    NextInRange(policy, s);
    assert forall i :: 0 <= i < |begun.valid| && (begun.Resolving? ==> i < |begun.outputs|) ==>
             OutcomeOf(s.worker, i) == OutcomeOf(begun, i);
  }

  /** The batch is the front of the queue, in order. */
  predicate FrontOf(queue: seq<Option<nat>>, batch: seq<nat>) {
    |batch| <= |queue| && forall j :: 0 <= j < |batch| ==> queue[j] == Some(batch[j])
  }

  /** What lines 157-179 collect: the front of the queue, until the batch is full, the window closes, the queue is
      empty or a sentinel comes, which is taken out too. */
  predicate Collected(policy: Policy, queue: seq<Option<nat>>, batch: seq<nat>, left: seq<Option<nat>>, polls: nat) {
    var n := |batch|;
    && FrontOf(queue, batch) && 1 <= n <= policy.maxBatch && n <= polls + 1
    && if left == queue[n..] then n == policy.maxBatch || n == polls + 1 || left == []
       else n < |queue| && queue[n] == None && left == queue[n + 1..] && n < policy.maxBatch && n < polls + 1
  }

  lemma FrontGrows(queue: seq<Option<nat>>, batch: seq<nat>)
    requires FrontOf(queue, batch) && |batch| < |queue|
    ensures queue[|batch|..][0] == queue[|batch|] && queue[|batch|..][1..] == queue[|batch| + 1..]
    ensures queue[|batch|].Some? ==> FrontOf(queue, batch + [queue[|batch|].value])
    ensures queue[|batch| + 1..] != queue[|batch|..]
  {
    assert |queue[|batch| + 1..]| < |queue[|batch|..]|;
  }

  // ----- The object -----

  class InferenceScheduler {
    const policy: Policy
    var queue: seq<Option<nat>>
    var stop: bool
    var worker: Worker
    var futures: seq<Future>
    var deadlines: seq<real>
    var clock: real
    ghost var taken: nat
    ghost var dispatched: seq<seq<nat>>
    ghost var uncounted: nat
    var submitted: nat
    var completed: nat
    var failed: nat
    var expired: nat
    ghost var rejected: nat
    ghost var workerFailed: nat
    ghost var skipped: nat
    ghost var stranded: nat

    ghost function Abs(): State
      reads this
    {
      State(queue, stop, worker, futures, deadlines, clock, taken, dispatched, uncounted, submitted, completed, failed,
            expired, rejected, workerFailed, skipped, stranded)
    }

    ghost predicate Valid()
      reads this
    {
      Configured(policy) && Reachable(policy, Abs())
    }

    constructor (policy: Policy)
      requires Configured(policy)
      ensures Valid() && this.policy == policy && Abs() == INIT
    {
      this.policy := policy;
      queue, stop, worker, futures, deadlines, clock := [], false, Idle, [], [], 0.0;
      taken, dispatched, uncounted, submitted, completed, failed := 0, [], 0, 0, 0, 0;
      expired, rejected, workerFailed, skipped, stranded := 0, 0, 0, 0, 0;
      ReachableInit(policy);
    }

    /** Lines 102-137: put into the queue or refuse, then count. */
    method Submit(deadline: real) returns (id: Option<nat>)
      requires Valid()
      modifies this
      ensures Valid()
      ensures id.None? <==> |old(queue)| >= policy.maxQueue
      ensures id.None? ==> Path(policy, old(Abs()), [Step.Submit(deadline)], Abs())
      ensures id.Some? ==> id.value == |old(futures)| &&
                           Path(policy, old(Abs()), [Step.Submit(deadline), CountSubmit], Abs())
      ensures id.None? ==> Abs() == old(Abs()).(failed := old(failed) + 1, rejected := old(rejected) + 1)
      ensures id.Some? ==>
                Abs() == old(Abs()).(queue := old(queue) + [id], futures := old(futures) + [Pending],
                                     deadlines := old(deadlines) + [deadline], submitted := old(submitted) + 1)
    {
      ghost var start := Abs();
      id := Put(deadline);
      PathOne(policy, start, Step.Submit(deadline), Abs());
      if id.Some? {
        ghost var mid := Abs();
        CountAccepted();
        PathSnoc(policy, start, [Step.Submit(deadline)], mid, CountSubmit, Abs());
        assert [Step.Submit(deadline)] + [CountSubmit] == [Step.Submit(deadline), CountSubmit];
      }
    }

    method Put(deadline: real) returns (id: Option<nat>)
      requires Valid()
      modifies this
      ensures Valid() && StepsTo(policy, old(Abs()), Step.Submit(deadline), Abs())
      ensures id.None? <==> |old(queue)| >= policy.maxQueue
      ensures id.Some? ==> id.value == |old(futures)| && uncounted > 0
      ensures id.None? ==> Abs() == old(Abs()).(failed := old(failed) + 1, rejected := old(rejected) + 1)
      ensures id.Some? ==>
                Abs() == old(Abs()).(queue := old(queue) + [id], futures := old(futures) + [Pending],
                                     deadlines := old(deadlines) + [deadline], uncounted := old(uncounted) + 1)
    {
      ReachableSizes(policy, Abs());
      if |queue| < policy.maxQueue {
        id := Some(|futures|);
        queue, futures, deadlines := queue + [id], futures + [Pending], deadlines + [deadline];
        uncounted := uncounted + 1;
      } else {
        id := None;
        failed, rejected := failed + 1, rejected + 1;
      }
      ReachableStep(policy, old(Abs()), Step.Submit(deadline), Abs());
    }

    method CountAccepted()
      requires Valid() && uncounted > 0
      modifies `uncounted, `submitted
      ensures Valid() && StepsTo(policy, old(Abs()), CountSubmit, Abs())
      ensures uncounted == old(uncounted) - 1 && submitted == old(submitted) + 1
    {
      ReachableSizes(policy, Abs());
      uncounted, submitted := uncounted - 1, submitted + 1;
      ReachableStep(policy, old(Abs()), CountSubmit, Abs());
    }

    /** Lines 139-147: close once, leaving a sentinel if there is room for it. */
    method Close()
      requires Valid()
      modifies `stop, `queue
      ensures Valid()
      ensures old(stop) ==> Abs() == old(Abs())
      ensures !old(stop) ==> StepsTo(policy, old(Abs()), Step.Close, Abs())
      ensures stop
      ensures !old(stop) ==> queue == old(queue) + if |old(queue)| < policy.maxQueue then [None] else []
    {
      if stop {
        return;
      }
      ReachableSizes(policy, Abs());
      stop := true;
      if |queue| < policy.maxQueue {
        queue := queue + [None];
      }
      ReachableStep(policy, old(Abs()), Step.Close, Abs());
    }

    /** Lines 157-162: the first item of a batch, or the sentinel. */
    method GetFirst()
      requires Valid() && worker.Idle? && queue != []
      modifies `queue, `worker, `taken
      ensures Valid() && StepsTo(policy, old(Abs()), First, Abs())
      ensures worker == match old(queue[0]) { case Some(id) => Collecting([id]) case None => Exited }
      ensures queue == old(queue)[1..] && taken == old(taken) + if old(queue[0]).Some? then 1 else 0
    {
      ReachableSizes(policy, Abs());
      match queue[0] {
        case Some(id) => worker, taken := Collecting([id]), taken + 1;
        case None => worker := Exited;
      }
      queue := queue[1..];
      ReachableStep(policy, old(Abs()), First, Abs());
    }

    /** Lines 172-179: one more item within the wait window; a sentinel ends the batch. */
    method GetMore()
      requires Valid() && worker.Collecting? && |worker.batch| < policy.maxBatch && queue != []
      modifies `queue, `worker, `taken, `stop
      ensures Valid() && StepsTo(policy, old(Abs()), More, Abs())
      ensures worker == match old(queue[0]) {
                          case Some(id) => Collecting(old(worker.batch) + [id])
                          case None => Checking(old(worker.batch), 0, [])
                        }
      ensures queue == old(queue)[1..] && taken == old(taken) + if old(queue[0]).Some? then 1 else 0
      ensures stop == (old(stop) || old(queue[0]).None?)
    {
      ReachableSizes(policy, Abs());
      match queue[0] {
        case Some(id) => worker, taken := Collecting(worker.batch + [id]), taken + 1;
        case None => worker, stop := Checking(worker.batch, 0, []), true;
      }
      queue := queue[1..];
      ReachableStep(policy, old(Abs()), More, Abs());
    }

    method SealBatch()
      requires Valid() && worker.Collecting?
      modifies `worker
      ensures Valid() && StepsTo(policy, old(Abs()), Seal, Abs())
      ensures worker == Checking(old(worker.batch), 0, [])
    {
      ReachableSizes(policy, Abs());
      worker := Checking(worker.batch, 0, []);
      ReachableStep(policy, old(Abs()), Seal, Abs());
    }

    /** Lines 157-179: collect a batch; `polls` is how many more gets succeed before the wait window closes. */
    method Collect(polls: nat) returns (ghost steps: seq<Step>)
      requires Valid() && worker.Idle? && queue != []
      modifies `queue, `worker, `taken, `stop
      ensures Valid() && Path(policy, old(Abs()), steps, Abs())
      ensures worker.Exited? <==> old(queue[0]).None?
      ensures !worker.Exited? ==> worker.Checking? && worker.k == 0 && worker.valid == []
      ensures !worker.Exited? ==> Collected(policy, old(queue), worker.batch, queue, polls)
    {
      ghost var start := Abs();
      GetFirst();
      PathOne(policy, start, First, Abs());
      steps := [First];
      if worker.Exited? {
        return;
      }
      steps := CollectMore(polls, start, steps);
    }

    /** Lines 164-179: the loop that adds to the batch. */
    method CollectMore(polls: nat, ghost start: State, ghost before: seq<Step>) returns (ghost steps: seq<Step>)
      requires Valid() && Path(policy, start, before, Abs()) && worker.Collecting? && |worker.batch| == 1
      requires FrontOf(start.queue, worker.batch) && queue == start.queue[1..]
      modifies `queue, `worker, `taken, `stop
      ensures Valid() && Path(policy, start, steps, Abs())
      ensures worker.Checking? && worker.k == 0 && worker.valid == []
      ensures Collected(policy, start.queue, worker.batch, queue, polls)
    {
      steps := before;
      var left: nat := polls;
      while left > 0 && |worker.batch| < policy.maxBatch && queue != []
        invariant Valid() && worker.Collecting? && Path(policy, start, steps, Abs())
        invariant FrontOf(start.queue, worker.batch) && queue == start.queue[|worker.batch|..]
        invariant 1 <= |worker.batch| <= policy.maxBatch && left + |worker.batch| == polls + 1
        decreases left
      {
        ghost var mid := Abs();
        GetMore();
        PathSnoc(policy, start, steps, mid, More, Abs());
        steps := steps + [More];
        FrontGrows(start.queue, mid.worker.batch);
        if worker.Checking? {
          return;
        }
        left := left - 1;
      }
      ghost var mid := Abs();
      SealBatch();
      PathSnoc(policy, start, steps, mid, Seal, Abs());
      steps := steps + [Seal];
    }

    /** Lines 183-188 and 195: skip a cancelled request, keep one within its deadline. */
    method CheckItem()
      requires Valid() && Enabled(policy, Abs(), CheckOne)
      modifies `worker, `skipped
      ensures Valid() && StepsTo(policy, old(Abs()), CheckOne, Abs())
      ensures var batch, k, valid := old(worker.batch), old(worker.k), old(worker.valid);
        var id := batch[k];
        && worker == (if futures[id].Cancelled? then Checking(batch, k + 1, valid)
                      else if deadlines[id] <= clock then Expiring(batch, k, valid)
                      else Checking(batch, k + 1, valid + [id]))
        && skipped == old(skipped) + if futures[id].Cancelled? then 1 else 0
    {
      var batch, k, valid := worker.batch, worker.k, worker.valid;
      var id := batch[k];
      if futures[id].Cancelled? {
        skipped := skipped + 1;
        worker := Checking(batch, k + 1, valid);
      } else if clock >= deadlines[id] {
        worker := Expiring(batch, k, valid);
      } else {
        worker := Checking(batch, k + 1, valid + [id]);
      }
      ReachableStep(policy, old(Abs()), CheckOne, Abs());
    }

    /** Lines 189-194: set the exception of an expired request, unless it was cancelled meanwhile. */
    method ExpireItem()
      requires Valid() && Enabled(policy, Abs(), Expire)
      modifies `worker, `futures, `expired, `stranded
      ensures Valid() && StepsTo(policy, old(Abs()), Expire, Abs())
      ensures var batch, k, valid := old(worker.batch), old(worker.k), old(worker.valid);
        if old(futures)[batch[k]].Cancelled? then
          Abs() == old(Abs()).(worker := Dead, stranded := old(stranded) + |valid| + |batch| - k)
        else
          Abs() == old(Abs()).(worker := Checking(batch, k + 1, valid), expired := old(expired) + 1,
                               futures := old(futures)[batch[k] := Raised(DeadlineExpired)])
    {
      var batch, k, valid := worker.batch, worker.k, worker.valid;
      if futures[batch[k]].Cancelled? {
        worker, stranded := Dead, stranded + |valid| + |batch| - k;
      } else {
        futures, expired := futures[batch[k] := Raised(DeadlineExpired)], expired + 1;
        worker := Checking(batch, k + 1, valid);
      }
      ReachableStep(policy, old(Abs()), Expire, Abs());
    }

    /** What clients, the clock and close may do while the worker is between two of its steps. It happens to be
        nothing here; the callers rely only on the contract, which allows any environment. */
    method Interfere() returns (ghost steps: seq<Step>)
      requires Valid()
      modifies this
      ensures Valid() && Path(policy, old(Abs()), steps, Abs()) && AllOutside(steps)
    {
      PathNil(policy, Abs());
      steps := [];
    }

    /** Lines 181-195, with anything happening in between: exactly the requests that are neither cancelled nor expired
        in their own turn are kept, and those expired in their turn get the exception; or one of these was cancelled
        before it could be set, and the worker is dead. */
    method CheckBatch() returns (ghost steps: seq<Step>, ghost at: seq<State>, ghost turns: seq<nat>)
      requires Valid() && worker.Checking? && worker.k == 0
      modifies this
      ensures Valid() && Path(policy, old(Abs()), steps, Abs())
      ensures InTurn(policy, old(Abs()), steps, old(worker.batch), at, turns)
      ensures worker.Dead? ==> AnyCancelled(old(worker.batch), futures)
      ensures !worker.Dead? ==> CheckedUpto(old(worker.batch), Abs(), |old(worker.batch)|, at)
    {
      ghost var start := Abs();
      StartsUnchecked(policy, start);
      var batch := worker.batch;
      PathNil(policy, start);
      steps, at, turns := [], [], [];
      for k := 0 to |batch|
        invariant Valid() && CheckedUpto(batch, Abs(), k, at)
        invariant Path(policy, start, steps, Abs()) && InTurn(policy, start, steps, batch, at, turns)
      {
        ghost var seen, turn, before := Abs(), 0, steps;
        steps, seen, turn := CheckNext(start, steps, batch, k, at);
        TurnsGrow(policy, start, before, steps, batch, at, turns);
        TurnsSnoc(policy, start, steps, batch, at, turns, seen, turn);
        if worker.Expiring? {
          before := steps;
          steps := ExpireNext(start, steps, batch, k, at, seen);
          TurnsGrow(policy, start, before, steps, batch, at + [seen], turns + [turn]);
          if worker.Dead? {
            at, turns := at + [seen], turns + [turn];
            return;
          }
        }
        at, turns := at + [seen], turns + [turn];
      }
    }

    /** The cancelled() test and the deadline test of one request, after an interference. */
    method CheckNext(ghost start: State, ghost before: seq<Step>, ghost batch: seq<nat>, ghost k: nat, ghost at: seq<State>)
      returns (ghost steps: seq<Step>, ghost seen: State, ghost turn: nat)
      requires Valid() && CheckedUpto(batch, Abs(), k, at) && k < |batch| && Path(policy, start, before, Abs())
      modifies this
      ensures Valid() && Path(policy, start, steps, Abs()) && before <= steps
      ensures IsTurn(policy, start, steps, batch, k, seen, turn)
      ensures if worker.Expiring? then ExpiringNext(batch, Abs(), k, at, seen)
              else CheckedUpto(batch, Abs(), k + 1, at + [seen])
    {
      ghost var s := Abs();
      ghost var noise := Interfere();
      seen := Abs();
      MeanwhilePath(policy, s, noise, seen);
      PathConcat(policy, start, before, s, noise, seen);
      CheckedAges(batch, s, seen, k, at);
      NextInRange(policy, seen);
      CheckOneMore(policy, batch, seen, k, at);
      CheckItem();
      PathSnoc(policy, start, before + noise, seen, CheckOne, Abs());
      steps, turn := before + noise + [CheckOne], |before + noise|;
      assert steps[..turn] == before + noise;
    }

    /** The exception of an expired request, after an interference. */
    method ExpireNext(ghost start: State, ghost before: seq<Step>, ghost batch: seq<nat>, ghost k: nat, ghost at: seq<State>,
                      ghost seen: State)
      returns (ghost steps: seq<Step>)
      requires Valid() && ExpiringNext(batch, Abs(), k, at, seen) && Path(policy, start, before, Abs())
      modifies this
      ensures Valid() && Path(policy, start, steps, Abs()) && before <= steps
      ensures if worker.Dead? then AnyCancelled(batch, futures) else CheckedUpto(batch, Abs(), k + 1, at + [seen])
    {
      ghost var s := Abs();
      ghost var noise := Interfere();
      ghost var mid := Abs();
      MeanwhilePath(policy, s, noise, mid);
      PathConcat(policy, start, before, s, noise, mid);
      ExpiringAges(batch, s, mid, k, at, seen);
      NextInRange(policy, mid);
      ExpireOneMore(policy, batch, mid, k, at, seen);
      ExpireItem();
      PathSnoc(policy, start, before + noise, mid, Expire, Abs());
      steps := before + noise + [Expire];
    }

    /** Lines 197-202: hand the kept requests to the runner, if any. */
    method StartBatch()
      requires Valid() && worker.Checking? && worker.k == |worker.batch|
      modifies `worker, `dispatched
      ensures Valid() && StepsTo(policy, old(Abs()), Dispatch, Abs())
      ensures worker == if old(worker.valid) == [] then Idle else Executing(old(worker.valid))
      ensures dispatched == old(dispatched) + if old(worker.valid) == [] then [] else [old(worker.valid)]
    {
      ReachableSizes(policy, Abs());
      if worker.valid == [] {
        worker := Idle;
      } else {
        dispatched := dispatched + [worker.valid];
        worker := Executing(worker.valid);
      }
      ReachableStep(policy, old(Abs()), Dispatch, Abs());
    }

    /** Lines 199-208: take the runner's reply; a wrong number of outputs is an exception too. */
    method TakeReply(reply: Reply)
      requires Valid() && worker.Executing?
      modifies `worker
      ensures Valid() && StepsTo(policy, old(Abs()), Execute(reply), Abs())
      ensures var valid := old(worker.valid);
        match reply
        case RunnerRaised(error) => worker == Failing(valid, RunnerFailed(error), 0)
        case Returned(outputs) =>
          worker == if |outputs| == |valid| then Resolving(valid, outputs, 0)
                    else Failing(valid, WrongCount(|outputs|, |valid|), 0)
    {
      ReachableSizes(policy, Abs());
      if reply.Returned? && |reply.outputs| == |worker.valid| {
        worker := Resolving(worker.valid, reply.outputs, 0);
      } else {
        var fault := match reply {
          case Returned(outputs) => WrongCount(|outputs|, |worker.valid|)
          case RunnerRaised(error) => RunnerFailed(error)
        };
        worker := Failing(worker.valid, fault, 0);
      }
      ReachableStep(policy, old(Abs()), Execute(reply), Abs());
    }

    /** Lines 211-212 and 216-217: count the finished batch. */
    method CountBatch()
      requires Enabled(policy, Abs(), Settle) && worker.k == |worker.valid|
      modifies `worker, `completed, `failed, `workerFailed
      ensures Abs() == ApplySettle(policy, old(Abs()))
      ensures var n := |old(worker.valid)|;
        if old(worker).Resolving? then Abs() == old(Abs()).(worker := Idle, completed := old(completed) + n)
        else Abs() == old(Abs()).(worker := Idle, failed := old(failed) + n, workerFailed := old(workerFailed) + n)
    {
      if worker.Resolving? {
        completed := completed + |worker.valid|;
      } else {
        failed, workerFailed := failed + |worker.valid|, workerFailed + |worker.valid|;
      }
      worker := Idle;
    }

    /** Lines 210 and 215: set one future; if it was cancelled meanwhile this raises and the worker is gone. */
    method SetFuture()
      requires Enabled(policy, Abs(), Settle) && worker.k < |worker.valid|
      modifies `worker, `futures, `stranded
      ensures Abs() == ApplySettle(policy, old(Abs()))
      ensures var w := old(worker);
        var id := w.valid[w.k];
        if old(futures)[id].Cancelled? then Abs() == old(Abs()).(worker := Dead, stranded := old(stranded) + |w.valid|)
        else if w.Resolving? then
          Abs() == old(Abs()).(worker := Resolving(w.valid, w.outputs, w.k + 1),
                               futures := old(futures)[id := Result(w.outputs[w.k])])
        else
          Abs() == old(Abs()).(worker := Failing(w.valid, w.fault, w.k + 1), futures := old(futures)[id := Raised(w.fault)])
    {
      var valid, k := worker.valid, worker.k;
      if futures[valid[k]].Cancelled? {
        worker, stranded := Dead, stranded + |valid|;
      } else if worker.Resolving? {
        futures := futures[valid[k] := Result(worker.outputs[k])];
        worker := Resolving(valid, worker.outputs, k + 1);
      } else {
        futures := futures[valid[k] := Raised(worker.fault)];
        worker := Failing(valid, worker.fault, k + 1);
      }
    }

    /** One iteration of the loops of lines 208-217, or the counting after them. */
    method SettleOne()
      requires Valid() && Enabled(policy, Abs(), Settle)
      modifies `worker, `futures, `completed, `failed, `workerFailed, `stranded
      ensures Valid() && StepsTo(policy, old(Abs()), Settle, Abs())
    {
      if worker.k == |worker.valid| {
        CountBatch();
      } else {
        SetFuture();
      }
      ReachableStep(policy, old(Abs()), Settle, Abs());
    }

    /** One future of the batch, after an interference. */
    method SettleNext(ghost start: State, ghost before: seq<Step>, ghost begun: Worker, ghost k: nat)
      returns (ghost steps: seq<Step>)
      requires Valid() && Path(policy, start, before, Abs()) && (begun.Resolving? || begun.Failing?)
      requires worker == SettlingAt(begun, k) && k < |begun.valid|
      modifies this
      ensures Valid() && Path(policy, start, steps, Abs()) && completed == old(completed)
      ensures if worker.Dead? then AnyCancelled(begun.valid, futures) else worker == SettlingAt(begun, k + 1)
    {
      ghost var s := Abs();
      ghost var noise := Interfere();
      ghost var mid := Abs();
      MeanwhilePath(policy, s, noise, mid);
      PathConcat(policy, start, before, s, noise, mid);
      NextInRange(policy, mid);
      SettleOneMore(policy, begun, mid, k);
      SettleOne();
      PathSnoc(policy, start, before + noise, mid, Settle, Abs());
      steps := before + noise + [Settle];
    }

    /** Lines 208-217, with anything happening in between: every future of the batch is set to its own outcome and the
        batch is counted; or a request of it was cancelled before it could be set, and the worker is dead. */
    method SettleBatch() returns (ghost steps: seq<Step>)
      requires Valid() && (worker.Resolving? || worker.Failing?) && worker.k == 0
      modifies this
      ensures Valid() && Path(policy, old(Abs()), steps, Abs())
      ensures worker.Idle? || worker.Dead?
      ensures worker.Dead? <==> AnyCancelled(old(worker.valid), futures)
      ensures worker.Idle? ==> SetUpto(old(worker), futures, |old(worker.valid)|)
      ensures worker.Idle? ==>
                completed == old(completed) + if old(worker).Resolving? then |old(worker.valid)| else 0
    {
      ghost var start, begun := Abs(), worker;
      var size := |worker.valid|;
      PathNil(policy, start);
      steps := [];
      for k := 0 to size
        invariant Valid() && Path(policy, start, steps, Abs()) && completed == start.completed
        invariant worker == SettlingAt(begun, k)
      {
        steps := SettleNext(start, steps, begun, k);
        if worker.Dead? {
          return;
        }
      }
      ghost var before := Abs();
      AllSettled(policy, begun, before);
      SettleOne();
      PathSnoc(policy, start, steps, before, Settle, Abs());
      steps := steps + [Settle];
    }
  }
}
