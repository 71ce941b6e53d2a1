/** What every step of the batching scheduler keeps. */
module BatchInvariants {
  import opened Collections
  import opened BatchScheduler

  // ----- Steps of the environment -----

  predicate IsOutside(step: Step) {
    step.Submit? || step.CountSubmit? || step.Cancel? || step.Tick? || step.Close?
  }

  /** Futures age: there may be more of them, and pending ones may be cancelled. */
  predicate Aged(before: seq<Future>, after: seq<Future>) {
    && |before| <= |after|
    && (forall id :: 0 <= id < |before| ==>
          after[id] == before[id] || (before[id].Pending? && after[id].Cancelled?))
  }

  /** Some of these requests are cancelled. */
  predicate AnyCancelled(ids: seq<nat>, futures: seq<Future>) {
    exists i :: 0 <= i < |ids| && ids[i] < |futures| && futures[ids[i]].Cancelled?
  }

  /** What clients can do to the futures in one step: add pending ones and cancel pending ones. */
  predicate Grown(before: seq<Future>, after: seq<Future>) {
    && Aged(before, after)
    && (forall id :: |before| <= id < |after| ==> after[id].Pending?)
  }

  lemma OutsideGrows(policy: Policy, s: State, step: Step)
    requires Enabled(policy, s, step) && IsOutside(step)
    ensures Grown(s.futures, Apply(policy, s, step).futures)
  {
  }

  lemma OutsideKeeps(policy: Policy, s: State, step: Step)
    requires Enabled(policy, s, step) && IsOutside(step)
    ensures var s' := Apply(policy, s, step);
      && s'.worker == s.worker && s'.taken == s.taken && s'.dispatched == s.dispatched
      && s'.completed == s.completed && s'.workerFailed == s.workerFailed && s'.expired == s.expired
      && s'.skipped == s.skipped && s'.stranded == s.stranded
  {
  }

  // ----- First in, first out -----

  function QueuedIds(queue: seq<Option<nat>>): seq<nat> {
    if queue == [] then []
    else (match queue[0] case Some(id) => [id] case None => []) + QueuedIds(queue[1..])
  }

  lemma {:induction false} QueuedIdsAppend(queue: seq<Option<nat>>, x: Option<nat>)
    ensures QueuedIds(queue + [x]) == QueuedIds(queue) + match x { case Some(id) => [id] case None => [] }
  {
    if queue == [] {
      assert queue + [x] == [x];
      assert QueuedIds([x][1..]) == [];
    } else {
      QueuedIdsAppend(queue[1..], x);
      assert (queue + [x])[1..] == queue[1..] + [x];
    }
  }

  /** The queue holds, in order, exactly the requests from `taken` on. */
  predicate QueueOk(queue: seq<Option<nat>>, taken: nat, count: nat) {
    && taken + |QueuedIds(queue)| == count
    && (forall k :: 0 <= k < |QueuedIds(queue)| ==> QueuedIds(queue)[k] == taken + k)
  }

  predicate InvQueue(policy: Policy, s: State) {
    |s.deadlines| == |s.futures| && |s.queue| <= policy.maxQueue && QueueOk(s.queue, s.taken, |s.futures|)
  }

  lemma QueueAppend(queue: seq<Option<nat>>, taken: nat, count: nat)
    requires QueueOk(queue, taken, count)
    ensures QueueOk(queue + [Some(count)], taken, count + 1)
    ensures QueueOk(queue + [None], taken, count)
  {
    QueuedIdsAppend(queue, Some(count));
    QueuedIdsAppend(queue, None);
  }

  lemma TakeHead(queue: seq<Option<nat>>, taken: nat, count: nat)
    requires queue != [] && QueueOk(queue, taken, count)
    ensures queue[0].Some? ==> queue[0].value == taken < count && QueueOk(queue[1..], taken + 1, count)
    ensures queue[0].None? ==> QueueOk(queue[1..], taken, count)
  {
    var ids, rest := QueuedIds(queue), QueuedIds(queue[1..]);
    if queue[0].Some? {
      assert ids == [queue[0].value] + rest;
      assert ids[0] == queue[0].value;
      forall k | 0 <= k < |rest| ensures rest[k] == taken + 1 + k {
        assert ids[k + 1] == rest[k];
      }
    } else {
      assert ids == rest;
    }
  }

  lemma QueueSubmit(policy: Policy, s: State, deadline: real)
    requires InvQueue(policy, s)
    ensures InvQueue(policy, ApplySubmit(policy, s, deadline))
  {
    QueueAppend(s.queue, s.taken, |s.futures|);
  }

  lemma QueueClose(policy: Policy, s: State)
    requires InvQueue(policy, s) && Enabled(policy, s, Close)
    ensures InvQueue(policy, Apply(policy, s, Close))
  {
    QueueAppend(s.queue, s.taken, |s.futures|);
  }

  lemma QueueTake(policy: Policy, s: State, step: Step)
    requires InvQueue(policy, s) && Enabled(policy, s, step) && (step.First? || step.More?)
    ensures InvQueue(policy, Apply(policy, s, step))
  {
    TakeHead(s.queue, s.taken, |s.futures|);
  }

  lemma QueueSame(policy: Policy, s: State, step: Step)
    requires InvQueue(policy, s) && Enabled(policy, s, step)
    requires !step.Submit? && !step.Close? && !step.First? && !step.More?
    ensures InvQueue(policy, Apply(policy, s, step))
  {
    var s' := Apply(policy, s, step);
    assert s'.queue == s.queue && s'.taken == s.taken && |s'.futures| == |s.futures| && s'.deadlines == s.deadlines;
  }

  lemma QueueStep(policy: Policy, s: State, step: Step)
    requires InvQueue(policy, s) && Enabled(policy, s, step)
    ensures InvQueue(policy, Apply(policy, s, step))
  {
    match step
    case Submit(deadline) => QueueSubmit(policy, s, deadline);
    case Close => QueueClose(policy, s);
    case First => QueueTake(policy, s, step);
    case More => QueueTake(policy, s, step);
    case _ => QueueSame(policy, s, step);
  }

  // ----- The shape of the worker -----

  predicate WorkerOk(policy: Policy, w: Worker) {
    match w
    case Collecting(batch) => 1 <= |batch| <= policy.maxBatch
    case Checking(batch, k, valid) => 1 <= |batch| <= policy.maxBatch && |valid| <= k <= |batch|
    case Expiring(batch, k, valid) => |batch| <= policy.maxBatch && |valid| <= k < |batch|
    case Executing(valid) => 1 <= |valid| <= policy.maxBatch
    case Resolving(valid, outputs, k) => 1 <= |valid| <= policy.maxBatch && k <= |valid| == |outputs|
    case Failing(valid, _, k) => 1 <= |valid| <= policy.maxBatch && k <= |valid|
    case _ => true
  }

  /** Batch sizes between 1 and the maximum. */
  predicate InvWorker(policy: Policy, s: State) {
    && WorkerOk(policy, s.worker)
    && (forall b :: 0 <= b < |s.dispatched| ==> 1 <= |s.dispatched[b]| <= policy.maxBatch)
  }

  lemma WorkerTake(policy: Policy, s: State, step: Step)
    requires Configured(policy) && InvWorker(policy, s) && Enabled(policy, s, step)
    requires step.First? || step.More? || step.Seal? || step.Leave?
    ensures InvWorker(policy, Apply(policy, s, step))
  {
  }

  lemma WorkerCheck(policy: Policy, s: State)
    requires InvWorker(policy, s) && Enabled(policy, s, CheckOne)
    ensures InvWorker(policy, ApplyCheck(policy, s))
  {
  }

  lemma WorkerExpire(policy: Policy, s: State)
    requires InvWorker(policy, s) && Enabled(policy, s, Expire)
    ensures InvWorker(policy, ApplyExpire(policy, s))
  {
  }

  lemma WorkerRunner(policy: Policy, s: State, step: Step)
    requires InvWorker(policy, s) && Enabled(policy, s, step) && (step.Dispatch? || step.Execute?)
    ensures InvWorker(policy, Apply(policy, s, step))
  {
  }

  lemma WorkerSettle(policy: Policy, s: State)
    requires InvWorker(policy, s) && Enabled(policy, s, Settle)
    ensures InvWorker(policy, ApplySettle(policy, s))
  {
  }

  lemma WorkerStep(policy: Policy, s: State, step: Step)
    requires Configured(policy) && InvWorker(policy, s) && Enabled(policy, s, step)
    ensures InvWorker(policy, Apply(policy, s, step))
  {
    if IsOutside(step) {
      OutsideKeeps(policy, s, step);
    } else {
      match step
      case CheckOne => WorkerCheck(policy, s);
      case Expire => WorkerExpire(policy, s);
      case Dispatch => WorkerRunner(policy, s, step);
      case Execute(_) => WorkerRunner(policy, s, step);
      case Settle => WorkerSettle(policy, s);
      case _ => WorkerTake(policy, s, step);
    }
  }

  // ----- The worker's hands -----

  /** Requests the worker has taken and not finished with, in order. */
  function Held(w: Worker): seq<nat> {
    match w
    case Collecting(batch) => batch
    case Checking(batch, k, valid) => if k <= |batch| then valid + batch[k..] else []
    case Expiring(batch, k, valid) => if k <= |batch| then valid + batch[k..] else []
    case Executing(valid) => valid
    case Resolving(valid, _, k) => if k <= |valid| then valid[k..] else []
    case Failing(valid, _, k) => if k <= |valid| then valid[k..] else []
    case _ => []
  }

  predicate Unresolved(f: Future) {
    f.Pending? || f.Cancelled?
  }

  /** The worker is settling a batch and the outcome of its request i is this. */
  function OutcomeOf(w: Worker, i: nat): Future
    requires w.Resolving? || w.Failing?
    requires w.Resolving? ==> i < |w.outputs|
  {
    if w.Resolving? then Result(w.outputs[i]) else Raised(w.fault)
  }

  /** The same worker, one request further. */
  function NextSet(w: Worker): Worker
    requires w.Resolving? || w.Failing?
  {
    if w.Resolving? then Resolving(w.valid, w.outputs, w.k + 1) else Failing(w.valid, w.fault, w.k + 1)
  }

  /** What settling does, in terms of the worker and the futures. */
  lemma SettleEffect(policy: Policy, s: State)
    requires Enabled(policy, s, Settle)
    ensures var w, s' := s.worker, ApplySettle(policy, s);
      && s'.taken == s.taken && s'.dispatched == s.dispatched
      && (w.k == |w.valid| ==> s'.worker == Idle && s'.futures == s.futures)
      && (w.k < |w.valid| && s.futures[w.valid[w.k]].Cancelled? ==> s'.worker == Dead && s'.futures == s.futures)
      && (w.k < |w.valid| && !s.futures[w.valid[w.k]].Cancelled? ==>
            s'.worker == NextSet(w) && s'.futures == s.futures[w.valid[w.k] := OutcomeOf(w, w.k)])
  {
  }

  /** Held requests are in order, taken and unresolved; requests still queued are unresolved too. */
  predicate HeldOk(held: seq<nat>, futures: seq<Future>, taken: nat) {
    && taken <= |futures|
    && Increasing(held)
    && (forall k :: 0 <= k < |held| ==> held[k] < taken && Unresolved(futures[held[k]]))
    && (forall id :: taken <= id < |futures| ==> Unresolved(futures[id]))
  }

  predicate InvHeld(s: State) {
    HeldOk(Held(s.worker), s.futures, s.taken)
  }

  lemma HeldRemove(held: seq<nat>, futures: seq<Future>, taken: nat, i: nat, f: Future)
    requires HeldOk(held, futures, taken) && i < |held|
    ensures held[i] < |futures|
    ensures HeldOk(held[..i] + held[i + 1..], futures[held[i] := f], taken)
  {
    var rest := held[..i] + held[i + 1..];
    assert forall k :: 0 <= k < |rest| ==> rest[k] == held[if k < i then k else k + 1];
  }

  lemma HeldGrows(held: seq<nat>, futures: seq<Future>, futures': seq<Future>, taken: nat)
    requires HeldOk(held, futures, taken) && Grown(futures, futures')
    ensures HeldOk(held, futures', taken)
  {
  }

  lemma HeldAppend(held: seq<nat>, futures: seq<Future>, taken: nat)
    requires HeldOk(held, futures, taken) && taken < |futures|
    ensures HeldOk(held + [taken], futures, taken + 1)
  {
  }

  lemma HeldNone(held: seq<nat>, futures: seq<Future>, taken: nat)
    requires HeldOk(held, futures, taken)
    ensures HeldOk([], futures, taken)
  {
  }

  lemma HeldTake(policy: Policy, s: State, step: Step)
    requires InvQueue(policy, s) && InvHeld(s) && Enabled(policy, s, step) && (step.First? || step.More?)
    ensures InvHeld(Apply(policy, s, step))
  {
    TakeHead(s.queue, s.taken, |s.futures|);
    var s', held := Apply(policy, s, step), Held(s.worker);
    if s.queue[0].Some? {
      HeldAppend(held, s.futures, s.taken);
      assert Held(s'.worker) == held + [s.taken];
    } else {
      assert Held(s'.worker) == held;
    }
  }

  /** The request under check leaves the hands with an outcome, or because it was found cancelled. */
  lemma HeldDropped(batch: seq<nat>, k: nat, valid: seq<nat>, futures: seq<Future>, taken: nat, f: Future)
    requires k < |batch| && HeldOk(valid + batch[k..], futures, taken)
    ensures batch[k] < |futures|
    ensures HeldOk(valid + batch[k + 1..], futures[batch[k] := f], taken)
  {
    var held := valid + batch[k..];
    assert held[|valid|] == batch[k];
    HeldRemove(held, futures, taken, |valid|, f);
    assert held[..|valid|] + held[|valid| + 1..] == valid + batch[k + 1..];
  }

  /** What a check does, in terms of the worker; it sets no future. */
  function Checked(w: Worker, cancelled: bool, late: bool): Worker
    requires w.Checking? && w.k < |w.batch|
  {
    if cancelled then Checking(w.batch, w.k + 1, w.valid)
    else if late then Expiring(w.batch, w.k, w.valid)
    else Checking(w.batch, w.k + 1, w.valid + [w.batch[w.k]])
  }

  lemma CheckEffect(policy: Policy, s: State)
    requires Enabled(policy, s, CheckOne)
    ensures var w, s' := s.worker, ApplyCheck(policy, s);
      && s'.taken == s.taken && s'.dispatched == s.dispatched && s'.futures == s.futures
      && s'.worker == Checked(w, s.futures[w.batch[w.k]].Cancelled?, s.clock >= s.deadlines[w.batch[w.k]])
  {
  }

  lemma SameUpdate(futures: seq<Future>, id: nat)
    requires id < |futures|
    ensures futures[id := futures[id]] == futures
  {
  }

  /** A request that is not dropped stays in the hands. */
  lemma CheckedHolds(w: Worker, late: bool)
    requires w.Checking? && w.k < |w.batch|
    ensures Held(Checked(w, false, late)) == Held(w)
  {
    assert w.valid + [w.batch[w.k]] + w.batch[w.k + 1..] == w.valid + w.batch[w.k..];
  }

  lemma HeldChecked(w: Worker, futures: seq<Future>, taken: nat, late: bool)
    requires w.Checking? && w.k < |w.batch| && HeldOk(Held(w), futures, taken) && w.batch[w.k] < |futures|
    ensures HeldOk(Held(Checked(w, futures[w.batch[w.k]].Cancelled?, late)), futures, taken)
  {
    var id := w.batch[w.k];
    if futures[id].Cancelled? {
      HeldDropped(w.batch, w.k, w.valid, futures, taken, futures[id]);
      SameUpdate(futures, id);
    } else {
      CheckedHolds(w, late);
    }
  }

  lemma HeldCheck(policy: Policy, s: State)
    requires InvHeld(s) && Enabled(policy, s, CheckOne)
    ensures InvHeld(ApplyCheck(policy, s))
  {
    CheckEffect(policy, s);
    HeldChecked(s.worker, s.futures, s.taken, s.clock >= s.deadlines[s.worker.batch[s.worker.k]]);
  }

  lemma ExpireEffect(policy: Policy, s: State)
    requires Enabled(policy, s, Expire)
    ensures var w, s' := s.worker, ApplyExpire(policy, s);
      && s'.taken == s.taken && s'.dispatched == s.dispatched
      && (s.futures[w.batch[w.k]].Cancelled? ==> s'.worker == Dead && s'.futures == s.futures)
      && (!s.futures[w.batch[w.k]].Cancelled? ==>
            && s'.worker == Checking(w.batch, w.k + 1, w.valid)
            && s'.futures == s.futures[w.batch[w.k] := Raised(DeadlineExpired)])
  {
  }

  lemma HeldExpire(policy: Policy, s: State)
    requires InvHeld(s) && Enabled(policy, s, Expire)
    ensures InvHeld(ApplyExpire(policy, s))
  {
    ExpireEffect(policy, s);
    HeldNone(Held(s.worker), s.futures, s.taken);
    HeldDropped(s.worker.batch, s.worker.k, s.worker.valid, s.futures, s.taken, Raised(DeadlineExpired));
  }

  lemma HeldFirst(valid: seq<nat>, k: nat, futures: seq<Future>, taken: nat, f: Future)
    requires k < |valid| && HeldOk(valid[k..], futures, taken)
    ensures valid[k] < |futures| && HeldOk(valid[k + 1..], futures[valid[k] := f], taken)
  {
    var held := valid[k..];
    HeldRemove(held, futures, taken, 0, f);
    assert held[..0] + held[1..] == valid[k + 1..];
  }

  lemma HeldSettle(policy: Policy, s: State)
    requires InvHeld(s) && Enabled(policy, s, Settle)
    ensures InvHeld(ApplySettle(policy, s))
  {
    SettleEffect(policy, s);
    var w := s.worker;
    assert Held(w) == w.valid[w.k..];
    HeldNone(w.valid[w.k..], s.futures, s.taken);
    if w.k < |w.valid| {
      HeldFirst(w.valid, w.k, s.futures, s.taken, OutcomeOf(w, w.k));
      assert Held(NextSet(w)) == w.valid[w.k + 1..];
    }
  }

  /** The steps that keep what is held and change no future. */
  lemma HeldSame(policy: Policy, s: State, step: Step)
    requires InvWorker(policy, s) && Enabled(policy, s, step)
    requires step.Seal? || step.Dispatch? || step.Execute? || step.Leave?
    ensures var s' := Apply(policy, s, step);
      && Held(s'.worker) == Held(s.worker) && !s.worker.Dead? && !s'.worker.Dead?
      && s'.futures == s.futures && s'.taken == s.taken
  {
  }

  lemma HeldStep(policy: Policy, s: State, step: Step)
    requires InvQueue(policy, s) && InvWorker(policy, s) && InvHeld(s) && Enabled(policy, s, step)
    ensures InvHeld(Apply(policy, s, step))
  {
    if IsOutside(step) {
      OutsideKeeps(policy, s, step);
      OutsideGrows(policy, s, step);
      HeldGrows(Held(s.worker), s.futures, Apply(policy, s, step).futures, s.taken);
    } else {
      match step
      case First => HeldTake(policy, s, step);
      case More => HeldTake(policy, s, step);
      case CheckOne => HeldCheck(policy, s);
      case Expire => HeldExpire(policy, s);
      case Settle => HeldSettle(policy, s);
      case _ => HeldSame(policy, s, step);
    }
  }

  // ----- Accounting -----

  function InHands(w: Worker): int {
    match w
    case Collecting(batch) => |batch|
    case Checking(batch, k, valid) => |valid| + |batch| - k
    case Expiring(batch, k, valid) => |valid| + |batch| - k
    case Executing(valid) => |valid|
    case Resolving(valid, _, _) => |valid|
    case Failing(valid, _, _) => |valid|
    case _ => 0
  }

  predicate Balanced(s: State) {
    && s.taken == s.completed + s.workerFailed + s.expired + s.skipped + s.stranded + InHands(s.worker)
    && s.failed == s.workerFailed + s.rejected
    && |s.futures| == s.submitted + s.uncounted
  }

  lemma BalanceOutside(policy: Policy, s: State, step: Step)
    requires Balanced(s) && Enabled(policy, s, step) && IsOutside(step)
    ensures Balanced(Apply(policy, s, step))
  {
  }

  lemma BalanceTake(policy: Policy, s: State, step: Step)
    requires Balanced(s) && Enabled(policy, s, step) && (step.First? || step.More? || step.Seal? || step.Leave?)
    ensures Balanced(Apply(policy, s, step))
  {
  }

  lemma BalanceCheck(policy: Policy, s: State)
    requires Balanced(s) && Enabled(policy, s, CheckOne)
    ensures Balanced(ApplyCheck(policy, s))
  {
  }

  lemma BalanceExpire(policy: Policy, s: State)
    requires Balanced(s) && Enabled(policy, s, Expire)
    ensures Balanced(ApplyExpire(policy, s))
  {
  }

  lemma BalanceRunner(policy: Policy, s: State, step: Step)
    requires Balanced(s) && Enabled(policy, s, step) && (step.Dispatch? || step.Execute?)
    ensures Balanced(Apply(policy, s, step))
  {
  }

  lemma BalanceSettle(policy: Policy, s: State)
    requires Balanced(s) && Enabled(policy, s, Settle)
    ensures Balanced(ApplySettle(policy, s))
  {
  }

  lemma BalanceStep(policy: Policy, s: State, step: Step)
    requires Balanced(s) && Enabled(policy, s, step)
    ensures Balanced(Apply(policy, s, step))
  {
    if IsOutside(step) {
      BalanceOutside(policy, s, step);
    } else {
      match step
      case CheckOne => BalanceCheck(policy, s);
      case Expire => BalanceExpire(policy, s);
      case Dispatch => BalanceRunner(policy, s, step);
      case Execute(_) => BalanceRunner(policy, s, step);
      case Settle => BalanceSettle(policy, s);
      case _ => BalanceTake(policy, s, step);
    }
  }

  // ----- Outcomes go to their own requests -----

  /** The requests of the batch that passed their check. */
  function Kept(w: Worker): seq<nat> {
    match w
    case Checking(_, _, valid) => valid
    case Expiring(_, _, valid) => valid
    case Executing(valid) => valid
    case Resolving(valid, _, _) => valid
    case Failing(valid, _, _) => valid
    case _ => []
  }

  /** The first k requests have their outcome. */
  predicate SetUpto(w: Worker, futures: seq<Future>, k: nat) {
    && (w.Resolving? || w.Failing?) && k <= |w.valid|
    && (w.Resolving? ==> |w.outputs| == |w.valid|)
    && (forall i :: 0 <= i < k ==> w.valid[i] < |futures| && futures[w.valid[i]] == OutcomeOf(w, i))
  }

  /** Request i of a batch being settled has its own outcome, and the batch is the last one dispatched. */
  predicate KeptOk(w: Worker, futures: seq<Future>, dispatched: seq<seq<nat>>) {
    && Increasing(Kept(w))
    && (w.Resolving? || w.Failing? ==> SetUpto(w, futures, w.k))
    && (w.Executing? || w.Resolving? || w.Failing? ==>
          dispatched != [] && dispatched[|dispatched| - 1] == w.valid)
  }

  predicate InvKept(s: State) {
    KeptOk(s.worker, s.futures, s.dispatched)
  }

  /** The request under check is not among those kept. */
  lemma KeptApart(valid: seq<nat>, batch: seq<nat>, k: nat)
    requires k < |batch| && Increasing(valid + batch[k..])
    ensures forall i :: 0 <= i < |valid| ==> valid[i] < batch[k]
    ensures Increasing(valid + [batch[k]])
  {
    var held := valid + batch[k..];
    assert held[|valid|] == batch[k];
    assert forall i :: 0 <= i < |valid| ==> held[i] == valid[i];
  }

  lemma CheckApart(s: State)
    requires InvHeld(s) && (s.worker.Checking? || s.worker.Expiring?) && s.worker.k < |s.worker.batch|
    ensures forall i :: 0 <= i < |s.worker.valid| ==> s.worker.valid[i] < s.worker.batch[s.worker.k]
    ensures Increasing(s.worker.valid + [s.worker.batch[s.worker.k]])
  {
    KeptApart(s.worker.valid, s.worker.batch, s.worker.k);
  }

  lemma KeptCheck(policy: Policy, s: State)
    requires InvKept(s) && Enabled(policy, s, CheckOne)
    requires Increasing(s.worker.valid + [s.worker.batch[s.worker.k]])
    ensures InvKept(ApplyCheck(policy, s))
  {
  }

  /** Setting one more future of an increasing batch leaves the earlier ones alone. */
  lemma SetNext(valid: seq<nat>, k: nat, futures: seq<Future>, f: Future)
    requires Increasing(valid) && k < |valid| && valid[k] < |futures|
    requires forall i :: 0 <= i < k ==> valid[i] < |futures|
    ensures var futures' := futures[valid[k] := f];
      futures'[valid[k]] == f && forall i :: 0 <= i < k ==> futures'[valid[i]] == futures[valid[i]]
  {
  }

  lemma SetOneMore(w: Worker, futures: seq<Future>)
    requires (w.Resolving? || w.Failing?) && SetUpto(w, futures, w.k) && Increasing(w.valid)
    requires w.k < |w.valid| && w.valid[w.k] < |futures|
    ensures SetUpto(NextSet(w), futures[w.valid[w.k] := OutcomeOf(w, w.k)], w.k + 1)
  {
    SetNext(w.valid, w.k, futures, OutcomeOf(w, w.k));
  }

  lemma KeptNext(w: Worker, futures: seq<Future>, dispatched: seq<seq<nat>>)
    requires KeptOk(w, futures, dispatched) && (w.Resolving? || w.Failing?)
    requires w.k < |w.valid| && w.valid[w.k] < |futures|
    ensures KeptOk(NextSet(w), futures[w.valid[w.k] := OutcomeOf(w, w.k)], dispatched)
  {
    SetOneMore(w, futures);
  }

  lemma KeptSettle(policy: Policy, s: State)
    requires InvKept(s) && Enabled(policy, s, Settle)
    ensures InvKept(ApplySettle(policy, s))
  {
    SettleEffect(policy, s);
    if s.worker.k < |s.worker.valid| {
      KeptNext(s.worker, s.futures, s.dispatched);
    }
  }

  lemma KeptGrown(w: Worker, futures: seq<Future>, futures': seq<Future>, k: nat)
    requires SetUpto(w, futures, k) && Grown(futures, futures')
    ensures SetUpto(w, futures', k)
  {
  }

  lemma KeptOther(policy: Policy, s: State, step: Step)
    requires InvKept(s) && Enabled(policy, s, step) && !IsOutside(step) && !step.CheckOne? && !step.Settle?
    ensures InvKept(Apply(policy, s, step))
  {
  }

  lemma KeptStep(policy: Policy, s: State, step: Step)
    requires InvHeld(s) && InvKept(s) && Enabled(policy, s, step)
    ensures InvKept(Apply(policy, s, step))
  {
    if IsOutside(step) {
      OutsideKeeps(policy, s, step);
      OutsideGrows(policy, s, step);
      if s.worker.Resolving? || s.worker.Failing? {
        KeptGrown(s.worker, s.futures, Apply(policy, s, step).futures, s.worker.k);
      }
    } else {
      match step
      case CheckOne =>
        CheckApart(s);
        KeptCheck(policy, s);
      case Settle => KeptSettle(policy, s);
      case _ => KeptOther(policy, s, step);
    }
  }

  // ----- Nothing is forgotten -----

  /** A request that was taken and is still pending is in the worker's hands. */
  predicate Tracked(held: set<nat>, futures: seq<Future>, taken: nat) {
    taken <= |futures| && forall id :: 0 <= id < taken && futures[id].Pending? ==> id in held
  }

  predicate TrackedOk(w: Worker, futures: seq<Future>, taken: nat) {
    !w.Dead? ==> Tracked(Elems(Held(w)), futures, taken)
  }

  predicate InvTracked(s: State) {
    TrackedOk(s.worker, s.futures, s.taken)
  }

  lemma TrackedGrows(held: set<nat>, futures: seq<Future>, futures': seq<Future>, taken: nat)
    requires Tracked(held, futures, taken) && Grown(futures, futures')
    ensures Tracked(held, futures', taken)
  {
  }

  lemma TrackedDrop(held: set<nat>, held': set<nat>, futures: seq<Future>, taken: nat, id: nat, f: Future)
    requires Tracked(held, futures, taken) && id < |futures| && !f.Pending? && held <= held' + {id}
    ensures Tracked(held', futures[id := f], taken)
  {
  }

  lemma TrackedTake(policy: Policy, s: State, step: Step)
    requires InvQueue(policy, s) && InvTracked(s) && Enabled(policy, s, step) && (step.First? || step.More?)
    ensures InvTracked(Apply(policy, s, step))
  {
    TakeHead(s.queue, s.taken, |s.futures|);
    var s', held := Apply(policy, s, step), Held(s.worker);
    if s.queue[0].Some? {
      assert Held(s'.worker) == held + [s.taken];
      assert Elems(Held(s'.worker)) == Elems(held) + {s.taken};
    } else {
      assert Held(s'.worker) == held;
    }
  }

  lemma HeldSplits(batch: seq<nat>, k: nat, valid: seq<nat>)
    requires k < |batch|
    ensures Elems(valid + batch[k..]) <= Elems(valid + batch[k + 1..]) + {batch[k]}
  {
    assert batch[k..] == [batch[k]] + batch[k + 1..];
  }

  lemma TrackedDropped(batch: seq<nat>, k: nat, valid: seq<nat>, futures: seq<Future>, taken: nat, f: Future)
    requires k < |batch| && batch[k] < |futures| && !f.Pending? && Tracked(Elems(valid + batch[k..]), futures, taken)
    ensures Tracked(Elems(valid + batch[k + 1..]), futures[batch[k] := f], taken)
  {
    HeldSplits(batch, k, valid);
    TrackedDrop(Elems(valid + batch[k..]), Elems(valid + batch[k + 1..]), futures, taken, batch[k], f);
  }

  lemma TrackedCheck(policy: Policy, s: State)
    requires InvTracked(s) && Enabled(policy, s, CheckOne)
    ensures InvTracked(ApplyCheck(policy, s))
  {
    var w, id := s.worker, s.worker.batch[s.worker.k];
    CheckEffect(policy, s);
    if s.futures[id].Cancelled? {
      TrackedDropped(w.batch, w.k, w.valid, s.futures, s.taken, s.futures[id]);
      SameUpdate(s.futures, id);
    } else {
      CheckedHolds(w, s.clock >= s.deadlines[id]);
    }
  }

  lemma TrackedExpire(policy: Policy, s: State)
    requires InvTracked(s) && Enabled(policy, s, Expire)
    ensures InvTracked(ApplyExpire(policy, s))
  {
    var w := s.worker;
    ExpireEffect(policy, s);
    TrackedDropped(w.batch, w.k, w.valid, s.futures, s.taken, Raised(DeadlineExpired));
  }

  lemma ElemsFirst(valid: seq<nat>, k: nat)
    requires k < |valid|
    ensures Elems(valid[k..]) <= Elems(valid[k + 1..]) + {valid[k]}
  {
    assert valid[k..] == [valid[k]] + valid[k + 1..];
  }

  lemma TrackedNext(w: Worker, futures: seq<Future>, taken: nat)
    requires TrackedOk(w, futures, taken) && (w.Resolving? || w.Failing?)
    requires w.k < |w.valid| && w.valid[w.k] < |futures| && (w.Resolving? ==> |w.outputs| == |w.valid|)
    ensures TrackedOk(NextSet(w), futures[w.valid[w.k] := OutcomeOf(w, w.k)], taken)
  {
    var before, after := Elems(w.valid[w.k..]), Elems(w.valid[w.k + 1..]);
    ElemsFirst(w.valid, w.k);
    assert Tracked(before, futures, taken);
    TrackedDrop(before, after, futures, taken, w.valid[w.k], OutcomeOf(w, w.k));
  }

  lemma TrackedSettle(policy: Policy, s: State)
    requires InvTracked(s) && Enabled(policy, s, Settle)
    ensures InvTracked(ApplySettle(policy, s))
  {
    SettleEffect(policy, s);
    var w := s.worker;
    if w.k < |w.valid| {
      TrackedNext(w, s.futures, s.taken);
    } else {
      assert Held(w) == [] == Held(Idle);
    }
  }

  lemma TrackedStep(policy: Policy, s: State, step: Step)
    requires InvQueue(policy, s) && InvWorker(policy, s) && InvTracked(s) && Enabled(policy, s, step)
    ensures InvTracked(Apply(policy, s, step))
  {
    if IsOutside(step) {
      OutsideKeeps(policy, s, step);
      OutsideGrows(policy, s, step);
      if !s.worker.Dead? {
        TrackedGrows(Elems(Held(s.worker)), s.futures, Apply(policy, s, step).futures, s.taken);
      }
    } else {
      match step
      case First => TrackedTake(policy, s, step);
      case More => TrackedTake(policy, s, step);
      case CheckOne => TrackedCheck(policy, s);
      case Expire => TrackedExpire(policy, s);
      case Settle => TrackedSettle(policy, s);
      case _ => HeldSame(policy, s, step);
    }
  }

  // ----- The invariant over runs -----

  predicate Inv(policy: Policy, s: State) {
    InvQueue(policy, s) && InvWorker(policy, s) && InvHeld(s) && Balanced(s) && InvKept(s) && InvTracked(s)
  }

  lemma InitInv(policy: Policy)
    requires Configured(policy)
    ensures Inv(policy, INIT)
  {
    assert QueuedIds(INIT.queue) == [] && Held(INIT.worker) == [] && Kept(INIT.worker) == [];
    assert QueueOk([], 0, 0) && HeldOk([], [], 0) && Tracked({}, [], 0);
    assert Elems<nat>([]) == {};
  }

  lemma {:induction false} RunQueue(policy: Policy, states: seq<State>, steps: seq<Step>, n: nat)
    requires Configured(policy) && IsRun(policy, states, steps) && n < |states|
    ensures InvQueue(policy, states[n])
  {
    if n == 0 {
      InitInv(policy);
    } else {
      RunQueue(policy, states, steps, n - 1);
      assert StepAt(policy, states, steps, n - 1);
      QueueStep(policy, states[n - 1], steps[n - 1]);
    }
  }

  lemma {:induction false} RunWorker(policy: Policy, states: seq<State>, steps: seq<Step>, n: nat)
    requires Configured(policy) && IsRun(policy, states, steps) && n < |states|
    ensures InvWorker(policy, states[n])
  {
    if n == 0 {
      InitInv(policy);
    } else {
      RunWorker(policy, states, steps, n - 1);
      assert StepAt(policy, states, steps, n - 1);
      WorkerStep(policy, states[n - 1], steps[n - 1]);
    }
  }

  lemma {:induction false} RunHeld(policy: Policy, states: seq<State>, steps: seq<Step>, n: nat)
    requires Configured(policy) && IsRun(policy, states, steps) && n < |states|
    ensures InvHeld(states[n])
  {
    if n == 0 {
      InitInv(policy);
    } else {
      RunQueue(policy, states, steps, n - 1);
      RunWorker(policy, states, steps, n - 1);
      RunHeld(policy, states, steps, n - 1);
      assert StepAt(policy, states, steps, n - 1);
      HeldStep(policy, states[n - 1], steps[n - 1]);
    }
  }

  lemma {:induction false} RunBalance(policy: Policy, states: seq<State>, steps: seq<Step>, n: nat)
    requires Configured(policy) && IsRun(policy, states, steps) && n < |states|
    ensures Balanced(states[n])
  {
    if n == 0 {
      InitInv(policy);
    } else {
      RunBalance(policy, states, steps, n - 1);
      assert StepAt(policy, states, steps, n - 1);
      BalanceStep(policy, states[n - 1], steps[n - 1]);
    }
  }

  lemma {:induction false} RunKept(policy: Policy, states: seq<State>, steps: seq<Step>, n: nat)
    requires Configured(policy) && IsRun(policy, states, steps) && n < |states|
    ensures InvKept(states[n])
  {
    if n == 0 {
      InitInv(policy);
    } else {
      RunHeld(policy, states, steps, n - 1);
      RunKept(policy, states, steps, n - 1);
      assert StepAt(policy, states, steps, n - 1);
      KeptStep(policy, states[n - 1], steps[n - 1]);
    }
  }

  lemma {:induction false} RunTracked(policy: Policy, states: seq<State>, steps: seq<Step>, n: nat)
    requires Configured(policy) && IsRun(policy, states, steps) && n < |states|
    ensures InvTracked(states[n])
  {
    if n == 0 {
      InitInv(policy);
    } else {
      RunQueue(policy, states, steps, n - 1);
      RunWorker(policy, states, steps, n - 1);
      RunTracked(policy, states, steps, n - 1);
      assert StepAt(policy, states, steps, n - 1);
      TrackedStep(policy, states[n - 1], steps[n - 1]);
    }
  }

  /** Every state of every run satisfies all of them. */
  lemma RunInv(policy: Policy, states: seq<State>, steps: seq<Step>, n: nat)
    requires Configured(policy) && IsRun(policy, states, steps) && n < |states|
    ensures Inv(policy, states[n])
  {
    RunQueue(policy, states, steps, n);
    RunWorker(policy, states, steps, n);
    RunHeld(policy, states, steps, n);
    RunBalance(policy, states, steps, n);
    RunKept(policy, states, steps, n);
    RunTracked(policy, states, steps, n);
  }
}
