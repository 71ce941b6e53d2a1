/** What became of each request of the newest-wins scheduler, and why: fates traced to the steps of the run. */
module RequestFates {
  import opened Collections
  import opened RequestScheduler

  // ----- One step -----

  /** What gives request id this fate: the step that sets its promise, in the state in which it is taken. */
  predicate Causes(cfg: Config, s: State, step: Step, id: nat, fate: Fate) {
    match fate
    case Executed => step.Resolve? && s.worker == InFlight(id)
    case Superseded => step.Submit? && OverflowsIn(cfg, s) && cfg.policy.KeepLatest? && s.queue[0] == id
    case Rejected => step.Submit? && OverflowsIn(cfg, s) && cfg.policy.RejectNewest? && id == |s.promises|
    case ShutDown => step.Shutdown? && !s.closed && id in s.queue
    case Refused => step.Submit? && s.closed && id == |s.promises|
  }

  /** A submission would find the scheduler open and the queue full. */
  predicate OverflowsIn(cfg: Config, s: State) {
    !s.closed && |s.queue| >= cfg.capacity > 0
  }

  /** The promise of request id has been set, and to this. */
  predicate Has(s: State, id: nat, fate: Fate) {
    id < |s.promises| && s.promises[id] == [fate]
  }

  /** Only its cause gives a request a fate, and nothing takes it away. */
  lemma FateStep(cfg: Config, s: State, step: Step, id: nat, fate: Fate)
    requires Inv(cfg, s) && Enabled(cfg, s, step)
    ensures Has(Apply(cfg, s, step), id, fate) <==> Has(s, id, fate) || Causes(cfg, s, step, id, fate)
  {
    match step
    case Submit => SubmitFate(cfg, s, id, fate);
    case Shutdown => ShutdownFate(cfg, s, id, fate);
    case Resolve => ResolveFate(cfg, s, id, fate);
    case _ =>
  }

  lemma SubmitFate(cfg: Config, s: State, id: nat, fate: Fate)
    requires Inv(cfg, s) && Enabled(cfg, s, Submit)
    ensures Has(ApplySubmit(cfg, s), id, fate) <==> Has(s, id, fate) || Causes(cfg, s, Submit, id, fate)
  {
    if OverflowsIn(cfg, s) && cfg.policy.KeepLatest? {
      EvictOne(s, cfg.capacity);
      FrontIsUnset(cfg, s);
      OneFate(Superseded, fate);
    } else {
      OneFate(if s.closed then Refused else Rejected, fate);
    }
  }

  lemma OneFate(a: Fate, b: Fate)
    ensures [a] == [b] <==> a == b
  {
    assert [a][0] == a && [b][0] == b;
  }

  lemma ShutdownFate(cfg: Config, s: State, id: nat, fate: Fate)
    requires Inv(cfg, s) && Enabled(cfg, s, Shutdown)
    ensures Has(Apply(cfg, s, Shutdown), id, fate) <==> Has(s, id, fate) || Causes(cfg, s, Shutdown, id, fate)
  {
    DrainCancels(s.(closed := true));
    OneFate(ShutDown, fate);
    OrderMeansInRange(s);
    assert id in s.queue ==> id < |s.promises| && s.promises[id] == [];
  }

  lemma ResolveFate(cfg: Config, s: State, id: nat, fate: Fate)
    requires Inv(cfg, s) && Enabled(cfg, s, Resolve)
    ensures Has(Apply(cfg, s, Resolve), id, fate) <==> Has(s, id, fate) || Causes(cfg, s, Resolve, id, fate)
  {
    OneFate(Executed, fate);
    assert s.promises[s.worker.id] == [] && [] + [Executed] == [Executed];
  }

  // ----- Whole runs -----

  /** Step m of the run gives request id this fate. */
  ghost predicate CausedAt(cfg: Config, states: seq<State>, steps: seq<Step>, m: nat, id: nat, fate: Fate) {
    m < |steps| && m < |states| && Causes(cfg, states[m], steps[m], id, fate)
  }

  /** Over every run: a request has a fate if and only if its cause has happened. */
  lemma {:induction false} FatesHaveCauses(cfg: Config, states: seq<State>, steps: seq<Step>, n: nat, id: nat, fate: Fate)
    requires cfg.capacity > 0 && IsRun(cfg, states, steps) && n < |states|
    ensures Has(states[n], id, fate) <==> exists m :: 0 <= m < n && CausedAt(cfg, states, steps, m, id, fate)
  {
    if n > 0 {
      FatesHaveCauses(cfg, states, steps, n - 1, id, fate);
      RunInv(cfg, states, steps, n - 1);
      assert StepAt(cfg, states, steps, n - 1);
      FateStep(cfg, states[n - 1], steps[n - 1], id, fate);
      assert CausedAt(cfg, states, steps, n - 1, id, fate) <==> Causes(cfg, states[n - 1], steps[n - 1], id, fate);
    }
  }

  /** The worker takes request id at step m. */
  ghost predicate TakenAt(states: seq<State>, steps: seq<Step>, m: nat, id: nat) {
    m < |steps| && m < |states| && steps[m].Take? && states[m].queue != [] && states[m].queue[0] == id
  }

  /** Exactly the requests the worker took at some step are listed as taken. */
  lemma {:induction false} TakenHaveSteps(cfg: Config, states: seq<State>, steps: seq<Step>, n: nat, id: nat)
    requires cfg.capacity > 0 && IsRun(cfg, states, steps) && n < |states|
    ensures id in states[n].taken <==> exists m :: 0 <= m < n && TakenAt(states, steps, m, id)
  {
    if n > 0 {
      TakenHaveSteps(cfg, states, steps, n - 1, id);
      assert StepAt(cfg, states, steps, n - 1);
      TakenStep(cfg, states[n - 1], steps[n - 1]);
      assert TakenAt(states, steps, n - 1, id) <==> steps[n - 1].Take? && states[n - 1].queue[0] == id;
    }
  }

  lemma TakenStep(cfg: Config, s: State, step: Step)
    requires Enabled(cfg, s, step)
    ensures Apply(cfg, s, step).taken == if step.Take? then s.taken + [s.queue[0]] else s.taken
  {
    EvictTaken(s, cfg.capacity);
    DrainTaken(s.(closed := true));
  }

  lemma {:induction false} EvictTaken(s: State, capacity: nat)
    requires QueueInRange(s) && capacity > 0
    ensures Evict(s, capacity).taken == s.taken
    decreases |s.queue|
  {
    if |s.queue| >= capacity {
      EvictTaken(Shed(s, Superseded).(dropped := s.dropped + 1), capacity);
    }
  }

  lemma {:induction false} DrainTaken(s: State)
    requires QueueInRange(s)
    ensures Drain(s).taken == s.taken
    decreases |s.queue|
  {
    if s.queue != [] {
      DrainTaken(Shed(s, ShutDown));
    }
  }

  /** Exactly the requests the worker took and is no longer running have the engine's answer. */
  lemma {:induction false} ExecutedIffTaken(cfg: Config, states: seq<State>, steps: seq<Step>, n: nat, id: nat)
    requires cfg.capacity > 0 && IsRun(cfg, states, steps) && n < |states|
    ensures Has(states[n], id, Executed) <==> id in states[n].taken && states[n].worker != InFlight(id)
  {
    RunInv(cfg, states, steps, n);
    TakenInRange(states[n], id);
    if n > 0 {
      ExecutedIffTaken(cfg, states, steps, n - 1, id);
      RunInv(cfg, states, steps, n - 1);
      TakenInRange(states[n - 1], id);
      assert StepAt(cfg, states, steps, n - 1);
      FateStep(cfg, states[n - 1], steps[n - 1], id, Executed);
      TakenStep(cfg, states[n - 1], steps[n - 1]);
      WorkerStep(cfg, states[n - 1], steps[n - 1]);
    }
  }

  lemma TakenInRange(s: State, id: nat)
    requires InvOrder(s)
    ensures id in s.taken ==> id < |s.promises| && id !in s.queue
    ensures s.worker.InFlight? ==> s.worker.id in s.taken
  {
    var all := s.taken + s.queue;
    if id in s.taken {
      var k :| 0 <= k < |s.taken| && s.taken[k] == id;
      assert all[k] == id;
      forall j | 0 <= j < |s.queue| ensures s.queue[j] != id {
        assert all[|s.taken| + j] == s.queue[j];
      }
    }
  }

  lemma WorkerStep(cfg: Config, s: State, step: Step)
    requires Enabled(cfg, s, step)
    ensures var w := Apply(cfg, s, step).worker;
      && (step.Take? ==> w == InFlight(s.queue[0]))
      && (step.Resolve? ==> w == AtTop)
      && (!step.Take? && !step.Resolve? ==> (w.InFlight? || s.worker.InFlight? ==> w == s.worker))
  {
    EvictSize(s, cfg.capacity);
    DrainWorker(s.(closed := true));
  }

  lemma {:induction false} DrainWorker(s: State)
    requires QueueInRange(s)
    ensures Drain(s).worker == s.worker
    decreases |s.queue|
  {
    if s.queue != [] {
      DrainWorker(Shed(s, ShutDown));
    }
  }

  function Submissions(steps: seq<Step>, n: nat): nat
    requires n <= |steps|
  {
    if n == 0 then 0 else Submissions(steps, n - 1) + if steps[n - 1].Submit? then 1 else 0
  }

  /** Every submission makes one promise, and the scheduler is closed exactly when shutdown has been called. */
  lemma {:induction false} SubmissionsAndShutdown(cfg: Config, states: seq<State>, steps: seq<Step>, n: nat)
    requires cfg.capacity > 0 && IsRun(cfg, states, steps) && n < |states|
    ensures |states[n].promises| == Submissions(steps, n)
    ensures states[n].closed <==> exists m :: 0 <= m < n && steps[m].Shutdown?
  {
    if n > 0 {
      SubmissionsAndShutdown(cfg, states, steps, n - 1);
      assert StepAt(cfg, states, steps, n - 1);
      EvictSize(states[n - 1], cfg.capacity);
      DrainSize(states[n - 1].(closed := true));
      DrainClosed(states[n - 1].(closed := true));
    }
  }

  lemma {:induction false} DrainClosed(s: State)
    requires QueueInRange(s)
    ensures Drain(s).closed == s.closed
    decreases |s.queue|
  {
    if s.queue != [] {
      DrainClosed(Shed(s, ShutDown));
    }
  }

  /** A promise is unset exactly while its request waits or runs. */
  lemma UnsetIffInside(cfg: Config, states: seq<State>, steps: seq<Step>, n: nat, id: nat)
    requires cfg.capacity > 0 && IsRun(cfg, states, steps) && n < |states| && id < Submissions(steps, n)
    ensures id < |states[n].promises|
    ensures states[n].promises[id] == [] <==> id in states[n].queue || states[n].worker == InFlight(id)
  {
    SubmissionsAndShutdown(cfg, states, steps, n);
    RunInv(cfg, states, steps, n);
  }
}
