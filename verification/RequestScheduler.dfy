/** src/scheduler.cpp: the bounded newest-wins request scheduler.
    Requests are numbered in the order in which submit takes the lock. */
module RequestScheduler {
  import opened Collections

  datatype Policy = KeepLatest | RejectNewest

  datatype Config = Config(capacity: nat, policy: Policy)

  /** How a promise is fulfilled. */
  datatype Fate =
    | Executed             // with whatever the engine returned
    | Superseded           // cancelled by a newer observation
    | Rejected             // queue full
    | ShutDown             // still queued when the scheduler shut down
    | Refused              // submitted after shutdown

  datatype Worker =
    | AtTop                // about to take the lock and test the wait predicate
    | Blocked              // asleep in condition_.wait
    | InFlight(id: nat)    // running the engine on a request it took
    | Stopped

  /** promises[id] lists every value ever set on the promise of request id. */
  datatype State = State(
    queue: seq<nat>,
    closed: bool,
    worker: Worker,
    promises: seq<seq<Fate>>,
    taken: seq<nat>,
    dropped: nat,
    notices: nat,          // clients that queued a request and have not yet called notify_one
    closing: bool)         // shutdown has released the lock and not yet called notify_all

  const INIT := State([], false, AtTop, [], [], 0, 0, false)

  // ----- Steps -----

  datatype Step =
    | Submit
    | NotifyOne            // a client's notify_one, after it released the lock
    | Shutdown             // the critical section of shutdown
    | NotifyAll            // its notify_all
    | Block                // the worker finds the wait predicate false and goes to sleep
    | Wake                 // a spurious wakeup that finds the predicate true
    | Take                 // the worker pops the front of the queue
    | Resolve              // the worker sets the promise it took
    | Stop                 // the worker leaves; the first shutdown returns once this happened

  function Fulfil(promises: seq<seq<Fate>>, id: nat, fate: Fate): seq<seq<Fate>>
    requires id < |promises|
  {
    promises[id := promises[id] + [fate]]
  }

  predicate QueueInRange(s: State) {
    forall k :: 0 <= k < |s.queue| ==> s.queue[k] < |s.promises|
  }

  /** Supersede from the front until there is room. */
  function Evict(s: State, capacity: nat): State
    requires QueueInRange(s) && capacity > 0
    decreases |s.queue|
  {
    if |s.queue| < capacity then s
    else Evict(s.(promises := Fulfil(s.promises, s.queue[0], Superseded), queue := s.queue[1..],
                  dropped := s.dropped + 1), capacity)
  }

  function Settle(s: State, fate: Fate): State {
    s.(promises := s.promises + [[fate]])
  }

  function Push(s: State): State {
    s.(promises := s.promises + [[]], queue := s.queue + [|s.promises|], notices := s.notices + 1)
  }

  function ApplySubmit(cfg: Config, s: State): State
    requires QueueInRange(s) && cfg.capacity > 0
  {
    if s.closed then Settle(s, Refused)
    else if |s.queue| < cfg.capacity then Push(s)
    else if cfg.policy.RejectNewest? then Settle(s, Rejected).(dropped := s.dropped + 1)
    else Push(Evict(s, cfg.capacity))
  }

  /** Cancel everything queued. */
  function Drain(s: State): State
    requires QueueInRange(s)
    decreases |s.queue|
  {
    if s.queue == [] then s
    else Drain(s.(promises := Fulfil(s.promises, s.queue[0], ShutDown), queue := s.queue[1..]))
  }

  /** The predicate of condition_.wait. */
  predicate WaitPredicate(s: State) {
    s.closed || s.queue != []
  }

  predicate Enabled(cfg: Config, s: State, step: Step) {
    && cfg.capacity > 0 && QueueInRange(s)
    && match step {
         case Submit => true
         case NotifyOne => s.notices > 0
         case Shutdown => true
         case NotifyAll => s.closing
         case Block => s.worker.AtTop? && !WaitPredicate(s)
         case Wake => s.worker.Blocked? && WaitPredicate(s)
         case Take => s.worker.AtTop? && s.queue != []
         case Resolve => s.worker.InFlight? && s.worker.id < |s.promises|
         case Stop => s.worker.AtTop? && s.closed && s.queue == []
       }
  }

  function Woken(worker: Worker): Worker {
    if worker.Blocked? then AtTop else worker
  }

  function Apply(cfg: Config, s: State, step: Step): State
    requires Enabled(cfg, s, step)
  {
    match step
    case Submit => ApplySubmit(cfg, s)
    case NotifyOne => s.(notices := s.notices - 1, worker := Woken(s.worker))
    case Shutdown => if s.closed then s else Drain(s.(closed := true)).(closing := true)
    case NotifyAll => s.(closing := false, worker := Woken(s.worker))
    case Block => s.(worker := Blocked)
    case Wake => s.(worker := AtTop)
    case Take => s.(worker := InFlight(s.queue[0]), queue := s.queue[1..], taken := s.taken + [s.queue[0]])
    case Resolve => s.(worker := AtTop, promises := Fulfil(s.promises, s.worker.id, Executed))
    case Stop => s.(worker := Stopped)
  }

  ghost predicate StepsTo(cfg: Config, s: State, step: Step, s': State) {
    Enabled(cfg, s, step) && s' == Apply(cfg, s, step)
  }

  /** Step i of the sequence leads from its state to the next. */
  ghost predicate StepAt(cfg: Config, states: seq<State>, steps: seq<Step>, i: nat) {
    i < |steps| && i + 1 < |states| && StepsTo(cfg, states[i], steps[i], states[i + 1])
  }

  ghost predicate IsRun(cfg: Config, states: seq<State>, steps: seq<Step>) {
    && |states| == |steps| + 1 && states[0] == INIT
    && (forall i :: 0 <= i < |steps| ==> StepAt(cfg, states, steps, i))
  }

  // ----- Invariants -----

  predicate IsInFlight(s: State, id: nat) {
    s.worker.InFlight? && s.worker.id == id
  }

  /** Taken and then queued requests, in submission order, each below the number of submissions. */
  predicate InvOrder(s: State) {
    && Increasing(s.taken + s.queue)
    && (forall k :: 0 <= k < |s.taken + s.queue| ==> (s.taken + s.queue)[k] < |s.promises|)
    && (s.worker.InFlight? ==> s.taken != [] && s.taken[|s.taken| - 1] == s.worker.id)
  }

  /** A promise is unset exactly while its request is queued or in flight, and never set twice. */
  predicate InvPromises(s: State) {
    forall id :: 0 <= id < |s.promises| ==>
      |s.promises[id]| == if id in s.queue || IsInFlight(s, id) then 0 else 1
  }

  /** The queue is bounded; under keep_latest it is the most recent submissions; shutdown empties it. */
  predicate InvQueue(cfg: Config, s: State) {
    && cfg.capacity > 0 && |s.queue| <= cfg.capacity
    && (s.closed ==> s.queue == [])
    && (s.worker.Stopped? ==> s.closed)
    && (cfg.policy.KeepLatest? && !s.closed ==>
          |s.queue| <= |s.promises| && forall k :: 0 <= k < |s.queue| ==> s.queue[k] == |s.promises| - |s.queue| + k)
  }

  /** The worker does not sleep through a predicate that holds, unless a notification is on its way. */
  predicate InvWake(s: State) {
    s.worker.Blocked? && WaitPredicate(s) ==> s.notices > 0 || s.closing
  }

  predicate Inv(cfg: Config, s: State) {
    InvOrder(s) && InvPromises(s) && InvQueue(cfg, s) && InvWake(s)
  }

  lemma OrderMeansInRange(s: State)
    requires InvOrder(s)
    ensures QueueInRange(s) && Increasing(s.queue)
    ensures s.worker.InFlight? ==> s.worker.id < |s.promises| && s.worker.id !in s.queue
    ensures forall id :: id in s.queue ==> id < |s.promises|
  {
    var all := s.taken + s.queue;
    forall k | 0 <= k < |s.queue| ensures s.queue[k] == all[|s.taken| + k] {
    }
    if s.worker.InFlight? {
      assert s.worker.id == all[|s.taken| - 1];
    }
  }

  /** Taking the front out of the queue and fulfilling it. */
  function Shed(s: State, fate: Fate): State
    requires QueueInRange(s) && s.queue != []
  {
    s.(promises := Fulfil(s.promises, s.queue[0], fate), queue := s.queue[1..])
  }

  lemma ShedKeeps(s: State, fate: Fate)
    requires InvOrder(s) && InvPromises(s) && s.queue != []
    ensures QueueInRange(s) && InvOrder(Shed(s, fate)) && InvPromises(Shed(s, fate))
  {
    OrderMeansInRange(s);
    var s' := Shed(s, fate);
    var all, all' := s.taken + s.queue, s'.taken + s'.queue;
    assert forall k :: 0 <= k < |all'| ==> all'[k] == all[if k < |s.taken| then k else k + 1];
    assert s.queue == [s.queue[0]] + s'.queue;
    assert s.queue[0] !in s'.queue;
  }

  lemma {:induction false} DrainKeeps(s: State)
    requires InvOrder(s) && InvPromises(s)
    ensures QueueInRange(s) && InvOrder(Drain(s)) && InvPromises(Drain(s))
    ensures Drain(s).queue == [] && Drain(s).closed == s.closed && Drain(s).worker == s.worker
    ensures Drain(s).notices == s.notices && Drain(s).closing == s.closing
    decreases |s.queue|
  {
    OrderMeansInRange(s);
    if s.queue != [] {
      ShedKeeps(s, ShutDown);
      DrainKeeps(Shed(s, ShutDown));
    }
  }

  lemma PushKeeps(s: State)
    requires InvOrder(s) && InvPromises(s)
    ensures InvOrder(Push(s)) && InvPromises(Push(s))
  {
    OrderMeansInRange(s);
    var s' := Push(s);
    assert s'.taken + s'.queue == (s.taken + s.queue) + [|s.promises|];
    assert s'.queue[|s.queue|] == |s.promises|;
    forall id | 0 <= id < |s.promises| ensures id in s'.queue <==> id in s.queue {
    }
  }

  lemma SettleKeeps(s: State, fate: Fate)
    requires InvOrder(s) && InvPromises(s)
    ensures InvOrder(Settle(s, fate)) && InvPromises(Settle(s, fate))
  {
    OrderMeansInRange(s);
  }

  /** Within capacity, making room supersedes exactly the oldest queued request. */
  lemma EvictOne(s: State, capacity: nat)
    requires QueueInRange(s) && capacity > 0 && |s.queue| == capacity
    ensures Evict(s, capacity) == Shed(s, Superseded).(dropped := s.dropped + 1)
  {
  }

  lemma SubmitKeeps(cfg: Config, s: State)
    requires Inv(cfg, s)
    ensures Enabled(cfg, s, Submit) && Inv(cfg, ApplySubmit(cfg, s))
  {
    OrderMeansInRange(s);
    if s.closed {
      SettleKeeps(s, Refused);
    } else if |s.queue| < cfg.capacity {
      PushKeeps(s);
    } else if cfg.policy.RejectNewest? {
      SettleKeeps(s, Rejected);
    } else {
      SupersedeKeeps(cfg, s);
    }
  }

  lemma SupersedeKeeps(cfg: Config, s: State)
    requires Inv(cfg, s) && QueueInRange(s) && |s.queue| == cfg.capacity && !s.closed && cfg.policy.KeepLatest?
    ensures Inv(cfg, Push(Evict(s, cfg.capacity)))
  {
    EvictOne(s, cfg.capacity);
    ShedKeeps(s, Superseded);
    PushKeeps(Evict(s, cfg.capacity));
  }

  lemma TakeKeeps(cfg: Config, s: State)
    requires Inv(cfg, s) && Enabled(cfg, s, Take)
    ensures Inv(cfg, Apply(cfg, s, Take))
  {
    var s' := Apply(cfg, s, Take);
    assert s'.taken + s'.queue == s.taken + s.queue;
    assert s.queue == [s.queue[0]] + s'.queue;
    OrderMeansInRange(s);
  }

  lemma ResolveKeeps(cfg: Config, s: State)
    requires Inv(cfg, s) && Enabled(cfg, s, Resolve)
    ensures Inv(cfg, Apply(cfg, s, Resolve))
  {
    OrderMeansInRange(s);
  }

  lemma InvStep(cfg: Config, s: State, step: Step)
    requires Inv(cfg, s) && Enabled(cfg, s, step)
    ensures Inv(cfg, Apply(cfg, s, step))
  {
    match step
    case Submit => SubmitKeeps(cfg, s);
    case Shutdown => DrainKeeps(s.(closed := true));
    case Take => TakeKeeps(cfg, s);
    case Resolve => ResolveKeeps(cfg, s);
    case _ =>
  }

  lemma {:induction false} RunInv(cfg: Config, states: seq<State>, steps: seq<Step>, n: nat)
    requires cfg.capacity > 0 && IsRun(cfg, states, steps) && n < |states|
    ensures Inv(cfg, states[n])
  {
    if n > 0 {
      RunInv(cfg, states, steps, n - 1);
      assert StepAt(cfg, states, steps, n - 1);
      InvStep(cfg, states[n - 1], steps[n - 1]);
    }
  }

  // ----- Theorems over runs -----

  /** Every promise is set at most once in any run, and exactly once by the time the worker has been joined. */
  lemma PromisesSetOnce(cfg: Config, states: seq<State>, steps: seq<Step>, n: nat, id: nat)
    requires cfg.capacity > 0 && IsRun(cfg, states, steps) && n < |states| && id < |states[n].promises|
    ensures |states[n].promises[id]| <= 1
    ensures states[n].worker.Stopped? ==> |states[n].promises[id]| == 1
  {
    RunInv(cfg, states, steps, n);
  }

  /** The queue never exceeds its capacity, and under keep_latest it is a contiguous run of submissions
      ending at the latest one. */
  lemma QueueIsLatest(cfg: Config, states: seq<State>, steps: seq<Step>, n: nat)
    requires cfg.capacity > 0 && IsRun(cfg, states, steps) && n < |states|
    ensures |states[n].queue| <= cfg.capacity
    ensures cfg.policy.KeepLatest? && !states[n].closed ==>
              forall k :: 0 <= k < |states[n].queue| ==>
                states[n].queue[k] == |states[n].promises| - |states[n].queue| + k
  {
    RunInv(cfg, states, steps, n);
  }

  /** Execution follows submission order. */
  lemma ExecutesInOrder(cfg: Config, states: seq<State>, steps: seq<Step>, n: nat)
    requires cfg.capacity > 0 && IsRun(cfg, states, steps) && n < |states|
    ensures Increasing(states[n].taken)
  {
    RunInv(cfg, states, steps, n);
    var s := states[n];
    assert forall k :: 0 <= k < |s.taken| ==> (s.taken + s.queue)[k] == s.taken[k];
  }

  // ----- Wakeups and shutdown -----

  /** No lost wakeup: whenever the worker sleeps though its predicate holds, a client or shutdown is about to notify
      it, so it does not depend on a spurious wakeup. */
  lemma NoLostWakeup(cfg: Config, states: seq<State>, steps: seq<Step>, n: nat)
    requires cfg.capacity > 0 && IsRun(cfg, states, steps) && n < |states|
    requires states[n].worker.Blocked? && WaitPredicate(states[n])
    ensures Enabled(cfg, states[n], NotifyOne) || Enabled(cfg, states[n], NotifyAll)
  {
    RunInv(cfg, states, steps, n);
    OrderMeansInRange(states[n]);
  }

  /** Every step but those in which a client enters submit or shutdown. */
  predicate IsInternal(step: Step) {
    !step.Submit? && !step.Shutdown?
  }

  /** The steps that need no luck: everything internal but a spurious wakeup. */
  ghost predicate CanMove(cfg: Config, s: State) {
    exists step :: IsInternal(step) && !step.Wake? && Enabled(cfg, s, step)
  }

  /** The worker always gets on: while requests are queued, one is in flight or shutdown has begun, it moves or is
      about to be notified. */
  lemma NoDeadlock(cfg: Config, s: State)
    requires Inv(cfg, s) && !s.worker.Stopped? && (WaitPredicate(s) || s.worker.InFlight?)
    ensures CanMove(cfg, s)
  {
    OrderMeansInRange(s);
    match s.worker
    case InFlight(_) => assert Enabled(cfg, s, Resolve) && IsInternal(Resolve);
    case Blocked =>
      if s.notices > 0 {
        assert Enabled(cfg, s, NotifyOne) && IsInternal(NotifyOne);
      } else {
        assert Enabled(cfg, s, NotifyAll) && IsInternal(NotifyAll);
      }
    case AtTop =>
      if s.queue != [] {
        assert Enabled(cfg, s, Take) && IsInternal(Take);
      } else {
        assert Enabled(cfg, s, Stop) && IsInternal(Stop);
      }
  }

  /** Internal steps left after shutdown: pending notifications, and what the worker still does. */
  function StepsToStop(s: State): nat {
    s.notices + (if s.closing then 1 else 0) +
    match s.worker {
      case InFlight(_) => 2
      case Blocked => 2
      case AtTop => 1
      case Stopped => 0
    }
  }

  lemma ClosedStep(cfg: Config, s: State, step: Step)
    requires Inv(cfg, s) && s.closed && Enabled(cfg, s, step)
    ensures Apply(cfg, s, step).closed
    ensures IsInternal(step) ==> StepsToStop(Apply(cfg, s, step)) < StepsToStop(s)
    ensures !IsInternal(step) ==> StepsToStop(Apply(cfg, s, step)) == StepsToStop(s)
  {
  }

  /** Internal steps among steps m .. n-1. */
  function InternalBetween(steps: seq<Step>, m: nat, n: nat): nat
    requires m <= n <= |steps|
  {
    if m == n then 0 else InternalBetween(steps, m, n - 1) + if IsInternal(steps[n - 1]) then 1 else 0
  }

  /** After shutdown, whatever clients do, at most so many internal steps follow. */
  lemma {:induction false} ShutdownIsBounded(cfg: Config, states: seq<State>, steps: seq<Step>, m: nat, n: nat)
    requires cfg.capacity > 0 && IsRun(cfg, states, steps) && m <= n <= |steps| && states[m].closed
    ensures states[n].closed
    ensures InternalBetween(steps, m, n) + StepsToStop(states[n]) <= StepsToStop(states[m])
    decreases n
  {
    if m < n {
      ShutdownIsBounded(cfg, states, steps, m, n - 1);
      RunInv(cfg, states, steps, n - 1);
      assert StepAt(cfg, states, steps, n - 1);
      ClosedStep(cfg, states[n - 1], steps[n - 1]);
    }
  }

  /** Shutdown completes: at most notices + 3 internal steps after it, and when none is left, not counting on spurious
      wakeups, the worker has stopped, so the join returns, and every promise has been set exactly once. */
  lemma ShutdownCompletes(cfg: Config, states: seq<State>, steps: seq<Step>, m: nat, n: nat)
    requires cfg.capacity > 0 && IsRun(cfg, states, steps) && m <= n <= |steps| && states[m].closed
    ensures InternalBetween(steps, m, n) <= states[m].notices + 3
    ensures !CanMove(cfg, states[n]) ==> states[n].worker.Stopped?
    ensures !CanMove(cfg, states[n]) ==>
              forall id :: 0 <= id < |states[n].promises| ==> |states[n].promises[id]| == 1
  {
    ShutdownIsBounded(cfg, states, steps, m, n);
    RunInv(cfg, states, steps, n);
    if !CanMove(cfg, states[n]) && !states[n].worker.Stopped? {
      NoDeadlock(cfg, states[n]);
      assert false;
    }
  }

  // ----- How many internal steps a submission costs -----

  /** What the worker may still do on its own; a sleeper whose predicate holds may wake. */
  function WorkerLoad(s: State): nat {
    match s.worker
    case InFlight(_) => 2
    case AtTop => 1
    case Blocked => if WaitPredicate(s) then 2 else 0
    case Stopped => 0
  }

  function Load(s: State): nat {
    2 * |s.queue| + 2 * s.notices + (if s.closing then 2 else 0) + WorkerLoad(s)
  }

  function Budget(s: State): nat {
    6 * |s.promises| + (if s.closed then 4 else 0)
  }

  lemma {:induction false} EvictSize(s: State, capacity: nat)
    requires QueueInRange(s) && capacity > 0
    ensures var e := Evict(s, capacity);
      |e.queue| <= |s.queue| && e.notices == s.notices && e.closing == s.closing && e.worker == s.worker &&
      |e.promises| == |s.promises| && e.closed == s.closed
    decreases |s.queue|
  {
    if |s.queue| >= capacity {
      EvictSize(Shed(s, Superseded).(dropped := s.dropped + 1), capacity);
    }
  }

  lemma LoadSubmit(cfg: Config, s: State)
    requires Enabled(cfg, s, Submit)
    ensures Load(ApplySubmit(cfg, s)) + Budget(s) <= Load(s) + Budget(ApplySubmit(cfg, s))
  {
    EvictSize(s, cfg.capacity);
  }

  lemma LoadShutdown(cfg: Config, s: State)
    requires Inv(cfg, s) && Enabled(cfg, s, Shutdown)
    ensures Load(Apply(cfg, s, Shutdown)) + Budget(s) <= Load(s) + Budget(Apply(cfg, s, Shutdown))
  {
    if !s.closed {
      DrainKeeps(s.(closed := true));
      DrainSize(s.(closed := true));
    }
  }

  lemma {:induction false} DrainSize(s: State)
    requires QueueInRange(s)
    ensures |Drain(s).promises| == |s.promises|
    decreases |s.queue|
  {
    if s.queue != [] {
      DrainSize(Shed(s, ShutDown));
    }
  }

  lemma LoadInternal(cfg: Config, s: State, step: Step)
    requires Enabled(cfg, s, step) && IsInternal(step)
    ensures Load(Apply(cfg, s, step)) < Load(s) && Budget(Apply(cfg, s, step)) == Budget(s)
  {
  }

  lemma {:induction false} StepsArePaidFor(cfg: Config, states: seq<State>, steps: seq<Step>, n: nat)
    requires cfg.capacity > 0 && IsRun(cfg, states, steps) && n <= |steps|
    ensures InternalBetween(steps, 0, n) + Load(states[n]) <= Budget(states[n]) + 1
  {
    if n > 0 {
      StepsArePaidFor(cfg, states, steps, n - 1);
      PaidStep(cfg, states, steps, n - 1);
    }
  }

  lemma PaidStep(cfg: Config, states: seq<State>, steps: seq<Step>, n: nat)
    requires cfg.capacity > 0 && IsRun(cfg, states, steps) && n < |steps|
    ensures (if IsInternal(steps[n]) then 1 else 0) + Load(states[n + 1]) + Budget(states[n]) <=
            Load(states[n]) + Budget(states[n + 1])
  {
    RunInv(cfg, states, steps, n);
    assert StepAt(cfg, states, steps, n);
    match steps[n]
    case Submit => LoadSubmit(cfg, states[n]);
    case Shutdown => LoadShutdown(cfg, states[n]);
    case _ => LoadInternal(cfg, states[n], steps[n]);
  }

  /** Bounded work: a run has at most six internal steps for each submission, four for shutdown and one to begin with. */
  lemma RunsAreBounded(cfg: Config, states: seq<State>, steps: seq<Step>, n: nat)
    requires cfg.capacity > 0 && IsRun(cfg, states, steps) && n <= |steps|
    ensures InternalBetween(steps, 0, n) <= 6 * |states[n].promises| + (if states[n].closed then 4 else 0) + 1
  {
    StepsArePaidFor(cfg, states, steps, n);
  }

  // ----- Who is superseded and who is rejected -----

  /** Under keep_latest nobody is rejected, and only a request with `capacity` newer submissions is superseded; under
      reject_newest nobody is superseded. */
  predicate DropsOk(cfg: Config, promises: seq<seq<Fate>>) {
    forall id :: 0 <= id < |promises| ==>
      && (Superseded in promises[id] ==> cfg.policy.KeepLatest? && id + cfg.capacity < |promises|)
      && (Rejected in promises[id] ==> cfg.policy.RejectNewest?)
  }

  lemma DropsFulfil(cfg: Config, promises: seq<seq<Fate>>, id: nat, fate: Fate)
    requires DropsOk(cfg, promises) && id < |promises| && !fate.Superseded? && !fate.Rejected?
    ensures DropsOk(cfg, Fulfil(promises, id, fate))
  {
  }

  lemma {:induction false} DropsDrain(cfg: Config, s: State)
    requires QueueInRange(s) && DropsOk(cfg, s.promises)
    ensures DropsOk(cfg, Drain(s).promises)
    decreases |s.queue|
  {
    if s.queue != [] {
      DropsFulfil(cfg, s.promises, s.queue[0], ShutDown);
      DropsDrain(cfg, Shed(s, ShutDown));
    }
  }

  lemma DropsAppend(cfg: Config, promises: seq<seq<Fate>>, x: seq<Fate>)
    requires DropsOk(cfg, promises)
    requires Superseded !in x && (Rejected in x ==> cfg.policy.RejectNewest?)
    ensures DropsOk(cfg, promises + [x])
  {
  }

  /** The request superseded by the next submission is exactly `capacity` older than it. */
  lemma DropsSupersede(cfg: Config, s: State)
    requires Inv(cfg, s) && QueueInRange(s) && DropsOk(cfg, s.promises)
    requires !s.closed && |s.queue| == cfg.capacity && cfg.policy.KeepLatest?
    ensures DropsOk(cfg, Push(Evict(s, cfg.capacity)).promises)
  {
    EvictOne(s, cfg.capacity);
    var id, e := s.queue[0], Evict(s, cfg.capacity);
    assert id == |s.promises| - cfg.capacity;
    assert e.promises == s.promises[id := s.promises[id] + [Superseded]];
    var all := e.promises + [[]];
    forall x | 0 <= x < |all|
      ensures Superseded in all[x] ==> x + cfg.capacity < |all|
      ensures Rejected in all[x] ==> cfg.policy.RejectNewest?
    {
      if x < |s.promises| && x != id {
        assert all[x] == s.promises[x];
      }
    }
  }

  lemma DropsSubmit(cfg: Config, s: State)
    requires Inv(cfg, s) && DropsOk(cfg, s.promises) && Enabled(cfg, s, Submit)
    ensures DropsOk(cfg, ApplySubmit(cfg, s).promises)
  {
    if s.closed {
      DropsAppend(cfg, s.promises, [Refused]);
    } else if |s.queue| < cfg.capacity {
      DropsAppend(cfg, s.promises, []);
    } else if cfg.policy.RejectNewest? {
      DropsAppend(cfg, s.promises, [Rejected]);
    } else {
      DropsSupersede(cfg, s);
    }
  }

  /** Over every run: who is superseded and who is rejected. */
  lemma {:induction false} DropsAreJustified(cfg: Config, states: seq<State>, steps: seq<Step>, n: nat)
    requires cfg.capacity > 0 && IsRun(cfg, states, steps) && n < |states|
    ensures DropsOk(cfg, states[n].promises)
  {
    if n > 0 {
      DropsAreJustified(cfg, states, steps, n - 1);
      RunInv(cfg, states, steps, n - 1);
      assert StepAt(cfg, states, steps, n - 1);
      DropsStep(cfg, states[n - 1], steps[n - 1]);
    }
  }

  lemma DropsStep(cfg: Config, s: State, step: Step)
    requires Inv(cfg, s) && DropsOk(cfg, s.promises) && Enabled(cfg, s, step)
    ensures DropsOk(cfg, Apply(cfg, s, step).promises)
  {
    match step
    case Submit => DropsSubmit(cfg, s);
    case Shutdown => DropsDrain(cfg, s.(closed := true));
    case Resolve => DropsFulfil(cfg, s.promises, s.worker.id, Executed);
    case _ =>
  }

  // ----- Conservation -----

  function Count(promises: seq<seq<Fate>>, what: seq<Fate>): nat {
    if promises == [] then 0
    else Count(promises[..|promises| - 1], what) + if promises[|promises| - 1] == what then 1 else 0
  }

  lemma {:induction false} CountUpdate(promises: seq<seq<Fate>>, what: seq<Fate>, id: nat, x: seq<Fate>)
    requires id < |promises|
    ensures Count(promises[id := x], what) ==
            Count(promises, what) - (if promises[id] == what then 1 else 0) + (if x == what then 1 else 0)
  {
    var n := |promises| - 1;
    if id < n {
      CountUpdate(promises[..n], what, id, x);
      assert promises[id := x][..n] == promises[..n][id := x];
    } else {
      assert promises[id := x][..n] == promises[..n];
    }
  }

  lemma CountAppend(promises: seq<seq<Fate>>, what: seq<Fate>, x: seq<Fate>)
    ensures Count(promises + [x], what) == Count(promises, what) + if x == what then 1 else 0
  {
    assert (promises + [x])[..|promises|] == promises;
  }

  /** Six ways a promise can stand. */
  function Sum(promises: seq<seq<Fate>>): nat {
    Count(promises, []) + Count(promises, [Executed]) + Count(promises, [Superseded]) +
    Count(promises, [Rejected]) + Count(promises, [ShutDown]) + Count(promises, [Refused])
  }

  lemma {:induction false} SumIsAll(promises: seq<seq<Fate>>)
    requires forall id :: 0 <= id < |promises| ==> |promises[id]| <= 1
    ensures Sum(promises) == |promises|
  {
    if promises != [] {
      SumIsAll(promises[..|promises| - 1]);
      var last := promises[|promises| - 1];
      if last != [] {
        assert last == [last[0]];
        assert forall f: Fate :: [f][0] == f;
        match last[0]
        case Executed => assert last == [Executed];
        case Superseded => assert last == [Superseded];
        case Rejected => assert last == [Rejected];
        case ShutDown => assert last == [ShutDown];
        case Refused => assert last == [Refused];
      }
    }
  }

  function Outstanding(s: State): nat {
    |s.queue| + if s.worker.InFlight? then 1 else 0
  }

  /** Unset promises are the queued and in-flight ones; the metric counts superseded and rejected ones. */
  predicate Balanced(s: State) {
    && Count(s.promises, []) == Outstanding(s)
    && s.dropped == Count(s.promises, [Superseded]) + Count(s.promises, [Rejected])
  }

  lemma ShedBalances(s: State, fate: Fate)
    requires InvOrder(s) && InvPromises(s) && Balanced(s) && s.queue != []
    ensures QueueInRange(s)
    ensures Balanced(Shed(s, fate).(dropped := s.dropped + if fate.Superseded? || fate.Rejected? then 1 else 0))
  {
    OrderMeansInRange(s);
    var id := s.queue[0];
    assert s.promises[id] == [];
    CountUpdate(s.promises, [], id, [] + [fate]);
    CountUpdate(s.promises, [Superseded], id, [] + [fate]);
    CountUpdate(s.promises, [Rejected], id, [] + [fate]);
  }

  lemma {:induction false} DrainBalances(s: State)
    requires InvOrder(s) && InvPromises(s) && Balanced(s)
    ensures QueueInRange(s) && Balanced(Drain(s))
    decreases |s.queue|
  {
    OrderMeansInRange(s);
    if s.queue != [] {
      ShedKeeps(s, ShutDown);
      ShedBalances(s, ShutDown);
      DrainBalances(Shed(s, ShutDown));
    }
  }

  lemma AppendBalances(s: State, x: seq<Fate>)
    ensures Count(s.promises + [x], []) == Count(s.promises, []) + if x == [] then 1 else 0
    ensures Count(s.promises + [x], [Superseded]) == Count(s.promises, [Superseded]) + if x == [Superseded] then 1 else 0
    ensures Count(s.promises + [x], [Rejected]) == Count(s.promises, [Rejected]) + if x == [Rejected] then 1 else 0
  {
    CountAppend(s.promises, [], x);
    CountAppend(s.promises, [Superseded], x);
    CountAppend(s.promises, [Rejected], x);
  }

  lemma SubmitBalances(cfg: Config, s: State)
    requires Inv(cfg, s) && Balanced(s) && Enabled(cfg, s, Submit)
    ensures Balanced(ApplySubmit(cfg, s))
  {
    if s.closed {
      AppendBalances(s, [Refused]);
    } else if |s.queue| < cfg.capacity {
      AppendBalances(s, []);
    } else if cfg.policy.RejectNewest? {
      AppendBalances(s, [Rejected]);
    } else {
      SupersedeBalances(cfg, s);
    }
  }

  lemma SupersedeBalances(cfg: Config, s: State)
    requires Inv(cfg, s) && Balanced(s) && QueueInRange(s) && |s.queue| == cfg.capacity
    ensures Balanced(Push(Evict(s, cfg.capacity)))
  {
    EvictOne(s, cfg.capacity);
    ShedBalances(s, Superseded);
    AppendBalances(Evict(s, cfg.capacity), []);
  }

  lemma ResolveBalances(cfg: Config, s: State)
    requires Inv(cfg, s) && Balanced(s) && Enabled(cfg, s, Resolve)
    ensures Balanced(Apply(cfg, s, Resolve))
  {
    var id := s.worker.id;
    OrderMeansInRange(s);
    assert s.promises[id] == [];
    CountUpdate(s.promises, [], id, [] + [Executed]);
    CountUpdate(s.promises, [Superseded], id, [] + [Executed]);
    CountUpdate(s.promises, [Rejected], id, [] + [Executed]);
  }

  lemma BalanceStep(cfg: Config, s: State, step: Step)
    requires Inv(cfg, s) && Balanced(s) && Enabled(cfg, s, step)
    ensures Balanced(Apply(cfg, s, step))
  {
    match step
    case Submit => SubmitBalances(cfg, s);
    case Shutdown => DrainBalances(s.(closed := true));
    case Resolve => ResolveBalances(cfg, s);
    case _ =>
  }

  /** Conservation over every run: submissions = executed + in flight + queued + superseded + rejected +
      cancelled, and the dropped metric = superseded + rejected. */
  lemma {:induction false} SubmissionsAreConserved(cfg: Config, states: seq<State>, steps: seq<Step>, n: nat)
    requires cfg.capacity > 0 && IsRun(cfg, states, steps) && n < |states|
    ensures var s := states[n];
      && Balanced(s)
      && |s.promises| == Count(s.promises, [Executed]) + (if s.worker.InFlight? then 1 else 0) + |s.queue| +
                         Count(s.promises, [Superseded]) + Count(s.promises, [Rejected]) +
                         (Count(s.promises, [ShutDown]) + Count(s.promises, [Refused]))
      && s.dropped == Count(s.promises, [Superseded]) + Count(s.promises, [Rejected])
  {
    RunInv(cfg, states, steps, n);
    if n > 0 {
      SubmissionsAreConserved(cfg, states, steps, n - 1);
      RunInv(cfg, states, steps, n - 1);
      assert StepAt(cfg, states, steps, n - 1);
      BalanceStep(cfg, states[n - 1], steps[n - 1]);
    }
    SumIsAll(states[n].promises);
  }

  // ----- The scheduler object -----

  lemma FrontIsUnset(cfg: Config, s: State)
    requires Inv(cfg, s) && s.queue != []
    ensures s.queue[0] < |s.promises| && s.promises[s.queue[0]] == []
    ensures forall fate :: s.promises[s.queue[0]] + [fate] == [fate]
  {
    OrderMeansInRange(s);
  }

  /** What a submission does, case by case: it is refused when closed, queued when there is room, rejected, or queued in
      place of the oldest request. */
  predicate Submitted(cfg: Config, s: State, s': State) {
    var id := |s.promises|;
    if s.closed then s' == s.(promises := s.promises + [[Refused]])
    else if |s.queue| < cfg.capacity then
      s' == s.(promises := s.promises + [[]], queue := s.queue + [id], notices := s.notices + 1)
    else if cfg.policy.RejectNewest? then s' == s.(promises := s.promises + [[Rejected]], dropped := s.dropped + 1)
    else
      && s.queue != [] && s.queue[0] < id
      && s' == s.(promises := s.promises[s.queue[0] := [Superseded]] + [[]], queue := s.queue[1..] + [id],
                  dropped := s.dropped + 1, notices := s.notices + 1)
  }

  lemma SubmitEffect(cfg: Config, s: State)
    requires Inv(cfg, s)
    ensures QueueInRange(s) && Submitted(cfg, s, ApplySubmit(cfg, s))
  {
    OrderMeansInRange(s);
    if |s.queue| == cfg.capacity {
      EvictOne(s, cfg.capacity);
      FrontIsUnset(cfg, s);
    }
  }

  /** The latest `capacity - 1` requests are left, or all if there was room. */
  predicate OldestDropped(before: seq<nat>, after: seq<nat>, capacity: nat) {
    && |after| <= |before| && after == before[|before| - |after|..]
    && |after| == if |before| < capacity then |before| else capacity - 1
  }

  lemma {:induction false} EvictDropsOldest(s: State, capacity: nat)
    requires QueueInRange(s) && capacity > 0
    ensures var e := Evict(s, capacity);
      OldestDropped(s.queue, e.queue, capacity) && e.dropped == s.dropped + |s.queue| - |e.queue|
    decreases |s.queue|
  {
    if |s.queue| >= capacity {
      EvictDropsOldest(Shed(s, Superseded).(dropped := s.dropped + 1), capacity);
    }
  }

  /** Every queued promise got the shutdown, and no other promise changed. */
  predicate CancelledAll(s: State, promises: seq<seq<Fate>>) {
    && |promises| == |s.promises|
    && forall id :: 0 <= id < |promises| ==> promises[id] == if id in s.queue then [ShutDown] else s.promises[id]
  }

  lemma {:induction false} DrainCancels(s: State)
    requires InvOrder(s) && InvPromises(s)
    ensures QueueInRange(s) && CancelledAll(s, Drain(s).promises)
    ensures Drain(s) == s.(queue := [], promises := Drain(s).promises)
    decreases |s.queue|
  {
    OrderMeansInRange(s);
    if s.queue != [] {
      var front, rest := s.queue[0], Shed(s, ShutDown);
      ShedKeeps(s, ShutDown);
      DrainCancels(rest);
      assert s.queue == [front] + rest.queue;
      assert s.promises[front] == [] && rest.promises[front] == [ShutDown];
    }
  }

  class Scheduler {
    const cfg: Config
    var queue: seq<nat>
    var closed: bool
    var worker: Worker
    var promises: seq<seq<Fate>>
    var dropped: nat
    ghost var taken: seq<nat>
    ghost var notices: nat
    ghost var closing: bool

    ghost function Abs(): State
      reads this
    {
      State(queue, closed, worker, promises, taken, dropped, notices, closing)
    }

    ghost predicate Valid()
      reads this
    {
      cfg.capacity > 0 && Inv(cfg, Abs())
    }

    constructor (cfg: Config)
      requires cfg.capacity > 0
      ensures Valid() && this.cfg == cfg && Abs() == INIT
    {
      this.cfg, queue, closed, worker, promises, dropped, taken := cfg, [], false, AtTop, [], 0, [];
      notices, closing := 0, false;
    }

    /** Lines 29-52 of submit, under the lock. */
    method Submit() returns (id: nat)
      requires Valid()
      modifies this
      ensures StepsTo(cfg, old(Abs()), Step.Submit, Abs()) && Valid()
      ensures id == old(|promises|)
      ensures Submitted(cfg, old(Abs()), Abs())
    {
      SubmitKeeps(cfg, Abs());
      SubmitEffect(cfg, Abs());
      id := |promises|;
      if closed {
        promises := promises + [[Refused]];
        return;
      }
      if |queue| >= cfg.capacity {
        if cfg.policy.RejectNewest? {
          promises, dropped := promises + [[Rejected]], dropped + 1;
          return;
        }
        MakeRoom();
      }
      promises, queue := promises + [[]], queue + [|promises|];
      notices := notices + 1;
    }

    /** Line 53: notify_one. */
    method NotifyOne()
      requires Valid() && notices > 0
      modifies `worker, `notices
      ensures StepsTo(cfg, old(Abs()), Step.NotifyOne, Abs()) && Valid()
      ensures worker == (if old(worker).Blocked? then AtTop else old(worker)) && notices == old(notices) - 1
    {
      OrderMeansInRange(Abs());
      InvStep(cfg, Abs(), Step.NotifyOne);
      worker, notices := Woken(worker), notices - 1;
    }

    /** Lines 43-48: supersede the oldest requests until the queue has room. */
    method MakeRoom()
      requires cfg.capacity > 0 && QueueInRange(Abs())
      modifies `queue, `promises, `dropped
      ensures Abs() == Evict(old(Abs()), cfg.capacity)
      ensures |promises| == old(|promises|)
      ensures OldestDropped(old(queue), queue, cfg.capacity) && dropped == old(dropped) + |old(queue)| - |queue|
    {
      EvictDropsOldest(Abs(), cfg.capacity);
      while |queue| >= cfg.capacity
        invariant QueueInRange(Abs()) && |promises| == old(|promises|)
        invariant Evict(Abs(), cfg.capacity) == Evict(old(Abs()), cfg.capacity)
        decreases |queue|
      {
        promises := Fulfil(promises, queue[0], Superseded);
        queue := queue[1..];
        dropped := dropped + 1;
      }
    }

    /** Lines 59-68 of shutdown, under the lock. */
    method Shutdown()
      requires Valid()
      modifies this
      ensures StepsTo(cfg, old(Abs()), Step.Shutdown, Abs()) && Valid()
      ensures old(closed) ==> Abs() == old(Abs())
      ensures !old(closed) ==> CancelledAll(old(Abs()), promises)
      ensures !old(closed) ==>
                Abs() == old(Abs()).(closed := true, closing := true, queue := [], promises := promises)
    {
      OrderMeansInRange(Abs());
      DrainCancels(Abs().(closed := true));
      InvStep(cfg, Abs(), Step.Shutdown);
      if closed {
        return;
      }
      closed := true;
      CancelQueued();
      closing := true;
    }

    /** Line 69: notify_all. */
    method NotifyAll()
      requires Valid() && closing
      modifies `worker, `closing
      ensures StepsTo(cfg, old(Abs()), Step.NotifyAll, Abs()) && Valid()
      ensures worker == (if old(worker).Blocked? then AtTop else old(worker)) && !closing
    {
      OrderMeansInRange(Abs());
      InvStep(cfg, Abs(), Step.NotifyAll);
      worker, closing := Woken(worker), false;
    }

    /** Lines 64-67: cancel every queued task and clear the queue. */
    method CancelQueued()
      requires QueueInRange(Abs())
      modifies `queue, `promises
      ensures Abs() == Drain(old(Abs()))
    {
      while queue != []
        invariant QueueInRange(Abs()) && Drain(Abs()) == Drain(old(Abs()))
        decreases |queue|
      {
        promises := Fulfil(promises, queue[0], ShutDown);
        queue := queue[1..];
      }
    }

    /** Lines 79-86 of the worker loop: sleep, leave or take the oldest request. */
    method WorkerSection() returns (step: Step)
      requires Valid() && worker.AtTop?
      modifies `queue, `worker, `taken
      ensures StepsTo(cfg, old(Abs()), step, Abs()) && Valid()
      ensures step == if old(queue) != [] then Take else if old(closed) then Stop else Block
      ensures step.Block? ==> Abs() == old(Abs()).(worker := Blocked)
      ensures step.Stop? ==> Abs() == old(Abs()).(worker := Stopped)
      ensures step.Take? ==>
                Abs() == old(Abs()).(worker := InFlight(old(queue)[0]), queue := old(queue)[1..],
                                     taken := old(taken) + [old(queue)[0]])
    {
      OrderMeansInRange(Abs());
      step := if queue != [] then Take else if closed then Stop else Block;
      InvStep(cfg, Abs(), step);
      if !(closed || queue != []) {
        worker := Blocked;
      } else if closed && queue == [] {
        worker := Stopped;
      } else {
        worker, taken, queue := InFlight(queue[0]), taken + [queue[0]], queue[1..];
      }
    }

    /** Lines 87-88: set the promise of the request that was taken. */
    method ResolveTaken()
      requires Valid() && worker.InFlight?
      modifies `promises, `worker
      ensures StepsTo(cfg, old(Abs()), Resolve, Abs()) && Valid()
      ensures old(worker).id < |old(promises)| && old(promises)[old(worker).id] == []
      ensures Abs() == old(Abs()).(worker := AtTop, promises := old(promises)[old(worker).id := [Executed]])
    {
      OrderMeansInRange(Abs());
      InvStep(cfg, Abs(), Resolve);
      assert promises[worker.id] == [] && promises[worker.id] + [Executed] == [Executed];
      promises, worker := Fulfil(promises, worker.id, Executed), AtTop;
    }
  }
}
