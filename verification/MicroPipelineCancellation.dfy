/** What cancelling a future does to the workers of the micro-pipeline, and where futures are resolved. */
module MicroPipelineCancellation {
  import opened MicroPipeline
  import opened MicroPipelineInvariants
  import opened MicroPipelineTheorems

  // ----- Where a future is resolved -----

  predicate IsResolved(f: Future) {
    f.Done? || f.Failed?
  }

  /** A pending future is resolved in a step exactly when a worker ends a stage on it that is the last one or raises:
      the terminal stage is not the only place. */
  lemma ResolvedWhere(pipe: Pipe, states: seq<State>, steps: seq<Step>, n: nat, id: nat)
    requires Configured(pipe) && IsRun(pipe, states, steps) && n < |steps|
    requires id < |states[n].futures| && states[n].futures[id].Pending?
    ensures id < |states[n + 1].futures|
    ensures IsResolved(states[n + 1].futures[id]) <==>
            steps[n].Compute? && EndsOn(pipe, states[n], steps[n].stage, steps[n].w, id)
  {
    assert StepAt(pipe, states, steps, n);
    ResolvedByStep(pipe, states[n], steps[n], id);
  }

  predicate EndsOn(pipe: Pipe, s: State, i: nat, w: nat, id: nat) {
    && i < |s.hands| && w < |s.hands[i]| && s.hands[i][w].Working?
    && s.hands[i][w].item.id == id && Sets(pipe, i, s.hands[i][w].item)
  }

  lemma ResolvedByStep(pipe: Pipe, s: State, step: Step, id: nat)
    requires Enabled(pipe, s, step) && id < |s.futures| && s.futures[id].Pending?
    ensures id < |Apply(pipe, s, step).futures|
    ensures IsResolved(Apply(pipe, s, step).futures[id]) <==> step.Compute? && EndsOn(pipe, s, step.stage, step.w, id)
  {
    EffectOnFutures(pipe, s, step);
  }

  /** What the steps do to futures. */
  lemma EffectOnFutures(pipe: Pipe, s: State, step: Step)
    requires Enabled(pipe, s, step)
    ensures match step
            case Submit(_) => Apply(pipe, s, step).futures == s.futures + [Pending]
            case Cancel(id) => Apply(pipe, s, step).futures == s.futures[id := Cancelled]
            case Compute(i, w) =>
              var item := s.hands[i][w].item;
              Apply(pipe, s, step).futures ==
              (if Sets(pipe, i, item) && !s.futures[item.id].Cancelled?
               then s.futures[item.id := Outcome(pipe.stages[i](item.payload))] else s.futures)
            case _ => Apply(pipe, s, step).futures == s.futures
  {
    match step
    case Check(i, w) => CheckEffect(pipe, s, i, w);
    case Compute(i, w) => ComputeEffect(pipe, s, i, w);
    case _ =>
  }

  // ----- Cancellation that kills -----

  /** Cancelling a future that a worker is about to set: it is working on the item at the last stage, or at a stage
      that will raise on it. This is decided by the state in which the client cancels. */
  ghost predicate IsFatal(pipe: Pipe, s: State, step: Step) {
    step.Cancel? && exists i, w :: EndsOn(pipe, s, i, w, step.id)
  }

  /** The worker is dead, or it is working on a cancelled future that it will set. */
  predicate DoomedAt(pipe: Pipe, s: State, i: nat, w: nat) {
    && i < |s.hands| && w < |s.hands[i]|
    && match s.hands[i][w] {
         case Dead => true
         case Working(item) => item.id < |s.futures| && s.futures[item.id].Cancelled? && Sets(pipe, i, item)
         case _ => false
       }
  }

  ghost predicate Doomed(pipe: Pipe, s: State) {
    exists i, w :: DoomedAt(pipe, s, i, w)
  }

  lemma CancelledStays(pipe: Pipe, s: State, step: Step, id: nat)
    requires Enabled(pipe, s, step) && id < |s.futures| && s.futures[id].Cancelled?
    ensures id < |Apply(pipe, s, step).futures| && Apply(pipe, s, step).futures[id].Cancelled?
  {
    EffectOnFutures(pipe, s, step);
  }

  /** Cancelled futures come from clients only. */
  lemma CancelledByClient(pipe: Pipe, s: State, step: Step, id: nat)
    requires Enabled(pipe, s, step) && id < |s.futures| && !s.futures[id].Cancelled?
    requires id < |Apply(pipe, s, step).futures| && Apply(pipe, s, step).futures[id].Cancelled?
    ensures step == Cancel(id)
  {
    EffectOnFutures(pipe, s, step);
  }

  /** A worker on an item is only moved by ending its stage. */
  lemma WorkingStays(pipe: Pipe, s: State, step: Step, i: nat, w: nat)
    requires Enabled(pipe, s, step) && i < |s.hands| && w < |s.hands[i]| && s.hands[i][w].Working?
    requires step != Compute(i, w)
    ensures i < |Apply(pipe, s, step).hands| && w < |Apply(pipe, s, step).hands[i]|
    ensures Apply(pipe, s, step).hands[i][w] == s.hands[i][w]
  {
    TouchesOne(pipe, s, step);
    assert IsWorkerStep(step) && (step.stage, step.w) == (i, w) ==> step.Compute?;
  }

  lemma DyingStep(pipe: Pipe, s: State, i: nat, w: nat)
    requires Enabled(pipe, s, Compute(i, w)) && DoomedAt(pipe, s, i, w)
    ensures DoomedAt(pipe, ApplyCompute(pipe, s, i, w), i, w)
  {
    ComputeEffect(pipe, s, i, w);
  }

  lemma DoomedAtStays(pipe: Pipe, s: State, step: Step, i: nat, w: nat)
    requires Enabled(pipe, s, step) && DoomedAt(pipe, s, i, w)
    ensures DoomedAt(pipe, Apply(pipe, s, step), i, w)
  {
    if s.hands[i][w].Dead? {
      DeadStaysDead(pipe, s, step, i, w);
    } else if step == Compute(i, w) {
      DyingStep(pipe, s, i, w);
    } else {
      WorkingStays(pipe, s, step, i, w);
      CancelledStays(pipe, s, step, s.hands[i][w].item.id);
    }
  }

  /** A worker that dies was doomed, and a worker that starts on an item starts on one that is not cancelled. */
  lemma NewlyDead(pipe: Pipe, s: State, i: nat, w: nat)
    requires Enabled(pipe, s, Compute(i, w)) && DoomedAt(pipe, ApplyCompute(pipe, s, i, w), i, w)
    ensures DoomedAt(pipe, s, i, w)
  {
    ComputeEffect(pipe, s, i, w);
  }

  lemma NewlyWorking(pipe: Pipe, s: State, i: nat, w: nat)
    requires Enabled(pipe, s, Check(i, w))
    ensures !DoomedAt(pipe, ApplyCheck(s, i, w), i, w)
  {
    CheckEffect(pipe, s, i, w);
  }

  /** Taking, putting and leaving make nobody work or die. */
  lemma NewlyElse(pipe: Pipe, s: State, step: Step)
    requires Enabled(pipe, s, step) && (step.Get? || step.Put? || step.Leave?)
    ensures !DoomedAt(pipe, Apply(pipe, s, step), step.stage, step.w)
  {
  }

  lemma DoomedAtSource(pipe: Pipe, s: State, step: Step, i: nat, w: nat)
    requires Inv(pipe, s) && Enabled(pipe, s, step) && DoomedAt(pipe, Apply(pipe, s, step), i, w)
    ensures DoomedAt(pipe, s, i, w) || (step.Cancel? && EndsOn(pipe, s, i, w, step.id))
  {
    TouchesOne(pipe, s, step);
    if IsWorkerStep(step) && (step.stage, step.w) == (i, w) {
      match step
      case Compute(_, _) => NewlyDead(pipe, s, i, w);
      case Check(_, _) => NewlyWorking(pipe, s, i, w);
      case _ => NewlyElse(pipe, s, step);
    } else {
      DoomedUntouched(pipe, s, step, i, w);
    }
  }

  lemma DoomedUntouched(pipe: Pipe, s: State, step: Step, i: nat, w: nat)
    requires Inv(pipe, s) && Enabled(pipe, s, step) && DoomedAt(pipe, Apply(pipe, s, step), i, w)
    requires i < |s.hands| && w < |s.hands[i]| && Apply(pipe, s, step).hands[i][w] == s.hands[i][w]
    ensures DoomedAt(pipe, s, i, w) || (step.Cancel? && EndsOn(pipe, s, i, w, step.id))
  {
    if s.hands[i][w].Working? {
      HeldIsUnresolved(pipe, s, i, w);
      if !s.futures[s.hands[i][w].item.id].Cancelled? {
        CancelledByClient(pipe, s, step, s.hands[i][w].item.id);
      }
    }
  }

  lemma FatalDooms(pipe: Pipe, s: State, step: Step, i: nat, w: nat)
    requires Enabled(pipe, s, step) && step.Cancel? && EndsOn(pipe, s, i, w, step.id)
    ensures DoomedAt(pipe, Apply(pipe, s, step), i, w)
  {
  }

  /** A step dooms a worker exactly when it is a fatal cancellation, and nothing saves a doomed worker. */
  lemma DoomedStep(pipe: Pipe, s: State, step: Step)
    requires Inv(pipe, s) && Enabled(pipe, s, step)
    ensures Doomed(pipe, Apply(pipe, s, step)) <==> Doomed(pipe, s) || IsFatal(pipe, s, step)
  {
    var s' := Apply(pipe, s, step);
    if i, w :| DoomedAt(pipe, s', i, w) {
      DoomedAtSource(pipe, s, step, i, w);
    }
    if i, w :| DoomedAt(pipe, s, i, w) {
      DoomedAtStays(pipe, s, step, i, w);
    }
    if IsFatal(pipe, s, step) {
      var i, w :| EndsOn(pipe, s, i, w, step.id);
      FatalDooms(pipe, s, step, i, w);
    }
  }

  /** Some step before n was a fatal cancellation. */
  ghost predicate FatalBefore(pipe: Pipe, states: seq<State>, steps: seq<Step>, n: nat) {
    exists m :: 0 <= m < n && m < |steps| && m < |states| && IsFatal(pipe, states[m], steps[m])
  }

  lemma FatalStep(pipe: Pipe, states: seq<State>, steps: seq<Step>, n: nat)
    requires n < |steps| && n < |states|
    ensures FatalBefore(pipe, states, steps, n + 1) <==>
            FatalBefore(pipe, states, steps, n) || IsFatal(pipe, states[n], steps[n])
  {
    if FatalBefore(pipe, states, steps, n + 1) {
      var m :| 0 <= m < n + 1 && m < |steps| && m < |states| && IsFatal(pipe, states[m], steps[m]);
      assert m < n || m == n;
    }
  }

  /** Exactly when a worker is lost to cancellation: some worker is dead, or working on a cancelled future it will set,
      if and only if some earlier cancellation was fatal. */
  lemma {:induction false} DoomedIffFatal(pipe: Pipe, states: seq<State>, steps: seq<Step>, n: nat)
    requires Configured(pipe) && IsRun(pipe, states, steps) && n < |states|
    ensures Doomed(pipe, states[n]) <==> FatalBefore(pipe, states, steps, n)
  {
    if n == 0 {
      NoneDoomedAtFirst(pipe);
    } else {
      DoomedIffFatal(pipe, states, steps, n - 1);
      DoomedNext(pipe, states, steps, n - 1);
      FatalStep(pipe, states, steps, n - 1);
    }
  }

  lemma DoomedNext(pipe: Pipe, states: seq<State>, steps: seq<Step>, n: nat)
    requires Configured(pipe) && IsRun(pipe, states, steps) && n < |steps|
    ensures Doomed(pipe, states[n + 1]) <==> Doomed(pipe, states[n]) || IsFatal(pipe, states[n], steps[n])
  {
    RunInv(pipe, states, steps, n);
    assert StepAt(pipe, states, steps, n);
    DoomedStep(pipe, states[n], steps[n]);
  }

  lemma NoneDoomedAtFirst(pipe: Pipe)
    ensures !Doomed(pipe, Init(pipe))
  {
  }

  ghost predicate SomeDead(s: State) {
    exists i: nat, w: nat :: i < |s.hands| && w < |s.hands[i]| && s.hands[i][w].Dead?
  }

  /** When no request can be moved, some worker is dead if and only if some cancellation was fatal. */
  lemma DeadIffFatal(pipe: Pipe, states: seq<State>, steps: seq<Step>, n: nat)
    requires Configured(pipe) && IsRun(pipe, states, steps) && n < |states| && !CanMove(pipe, states[n])
    ensures SomeDead(states[n]) <==> FatalBefore(pipe, states, steps, n)
  {
    var s := states[n];
    DoomedIffFatal(pipe, states, steps, n);
    RunInv(pipe, states, steps, n);
    if i: nat, w: nat :| i < |s.hands| && w < |s.hands[i]| && s.hands[i][w].Dead? {
      assert DoomedAt(pipe, s, i, w);
    }
    if i: nat, w: nat :| DoomedAt(pipe, s, i, w) && !s.hands[i][w].Dead? {
      assert Enabled(pipe, s, Compute(i, w)) && IsInternal(Compute(i, w));
      assert false;
    }
  }

  /** No worker is left. */
  predicate NobodyAlive(s: State) {
    forall i, w :: 0 <= i < |s.hands| && 0 <= w < |s.hands[i]| ==> !Alive(s.hands[i][w])
  }

  lemma NobodyActs(pipe: Pipe, s: State, step: Step)
    requires NobodyAlive(s) && Enabled(pipe, s, step)
    ensures NobodyAlive(Apply(pipe, s, step)) && !IsWorkerStep(step)
    ensures NoNewOutcome(s.futures, Apply(pipe, s, step).futures)
  {
    TouchesOne(pipe, s, step);
    EffectOnFutures(pipe, s, step);
  }

  predicate NoNewOutcome(before: seq<Future>, after: seq<Future>) {
    forall id :: 0 <= id < |after| && IsResolved(after[id]) ==> id < |before| && before[id] == after[id]
  }

  /** Once no worker is left there never is one again, and no future is ever resolved: whoever was pending stays so
      until its client gives up. */
  lemma {:induction false} DeadForever(pipe: Pipe, states: seq<State>, steps: seq<Step>, m: nat, n: nat)
    requires IsRun(pipe, states, steps) && m <= n < |states| && NobodyAlive(states[m])
    ensures NobodyAlive(states[n]) && NoNewOutcome(states[m].futures, states[n].futures)
    decreases n
  {
    if m < n {
      DeadForever(pipe, states, steps, m, n - 1);
      assert StepAt(pipe, states, steps, n - 1);
      NobodyActs(pipe, states[n - 1], steps[n - 1]);
    }
  }

  // ----- Without fatal cancellation nothing is lost -----

  /** Only close makes workers leave. */
  predicate OpenMeansPresent(s: State) {
    !s.closed ==> forall i, w :: 0 <= i < |s.hands| && 0 <= w < |s.hands[i]| ==> !s.hands[i][w].Exited?
  }

  lemma PresentStep(pipe: Pipe, s: State, step: Step)
    requires OpenMeansPresent(s) && Enabled(pipe, s, step)
    ensures OpenMeansPresent(Apply(pipe, s, step))
  {
    var s' := Apply(pipe, s, step);
    TouchesOne(pipe, s, step);
    OpenBefore(pipe, s, step);
    if !s'.closed && IsWorkerStep(step) {
      NobodyExits(pipe, s, step);
    }
  }

  lemma OpenBefore(pipe: Pipe, s: State, step: Step)
    requires Enabled(pipe, s, step)
    ensures !Apply(pipe, s, step).closed ==> !s.closed && !step.Leave?
  {
    match step
    case Check(i, w) => CheckEffect(pipe, s, i, w);
    case Compute(i, w) => ComputeEffect(pipe, s, i, w);
    case _ =>
  }

  lemma NobodyExits(pipe: Pipe, s: State, step: Step)
    requires Enabled(pipe, s, step) && IsWorkerStep(step) && !step.Leave?
    requires OnlyAt(s.hands, Apply(pipe, s, step).hands, step.stage, step.w)
    ensures !Apply(pipe, s, step).hands[step.stage][step.w].Exited?
  {
    match step
    case Check(i, w) => CheckEffect(pipe, s, i, w);
    case Compute(i, w) => ComputeEffect(pipe, s, i, w);
    case _ =>
  }

  lemma {:induction false} OpenWorkersArePresent(pipe: Pipe, states: seq<State>, steps: seq<Step>, n: nat)
    requires IsRun(pipe, states, steps) && n < |states|
    ensures OpenMeansPresent(states[n])
  {
    if n > 0 {
      OpenWorkersArePresent(pipe, states, steps, n - 1);
      assert StepAt(pipe, states, steps, n - 1);
      PresentStep(pipe, states[n - 1], steps[n - 1]);
    }
  }

  /** Before close, a run without fatal cancellation has all its workers. */
  lemma TimelyRunsStayIntact(pipe: Pipe, states: seq<State>, steps: seq<Step>, n: nat)
    requires Configured(pipe) && IsRun(pipe, states, steps) && n < |states| && !states[n].closed
    requires !FatalBefore(pipe, states, steps, n)
    ensures Intact(states[n])
  {
    var s := states[n];
    DoomedIffFatal(pipe, states, steps, n);
    OpenWorkersArePresent(pipe, states, steps, n);
    forall i, w | 0 <= i < |s.hands| && 0 <= w < |s.hands[i]| ensures Alive(s.hands[i][w]) {
      assert !DoomedAt(pipe, s, i, w);
    }
  }

  /** Nothing is stranded: before close and without fatal cancellation, when no request can be moved every admitted
      request is resolved or was cancelled by its client. */
  lemma EveryRequestResolves(pipe: Pipe, states: seq<State>, steps: seq<Step>, n: nat, id: nat)
    requires Configured(pipe) && IsRun(pipe, states, steps) && n < |states| && !states[n].closed
    requires !FatalBefore(pipe, states, steps, n)
    requires !CanMove(pipe, states[n]) && id < |states[n].futures|
    ensures !states[n].futures[id].Pending?
  {
    var s := states[n];
    RunInv(pipe, states, steps, n);
    TimelyRunsStayIntact(pipe, states, steps, n);
    if s.waiting != {} || InFlight(s, Any) > 0 {
      NoDeadlock(pipe, s);
    }
    IntactMeansNothingLost(pipe, states, steps, n);
    OnlyWithinAny(s.queues, s.hands, 0, id);
    assert Places(s, id) == 1;
  }

  // ----- Runs that show it -----

  lemma RunExtend(pipe: Pipe, states: seq<State>, steps: seq<Step>, step: Step, s: State)
    requires IsRun(pipe, states, steps) && StepsTo(pipe, states[|steps|], step, s)
    ensures IsRun(pipe, states + [s], steps + [step])
  {
    var states', steps' := states + [s], steps + [step];
    forall i | 0 <= i < |steps'| ensures StepAt(pipe, states', steps', i) {
      if i < |steps| {
        assert StepAt(pipe, states, steps, i);
      }
    }
  }

  /** A one-stage, one-worker pipeline that saw one request: where it is, its future, what was lost. */
  function Small(a: Payload, f: Future, waiting: set<nat>, q: seq<Item>, x: Worker, arrived: seq<nat>,
                 lost: multiset<nat>): State {
    State([a], [f], waiting, [q, []], [[x]], false, false, 1, 0, 0, arrived, [], multiset{}, lost)
  }

  lemma Opening(pipe: Pipe, a: Payload)
    requires Configured(pipe) && |pipe.stages| == 1 && pipe.workers == 1
    ensures StepsTo(pipe, Init(pipe), Submit(a), Small(a, Pending, {0}, [], Idle, [], multiset{}))
    ensures StepsTo(pipe, Small(a, Pending, {0}, [], Idle, [], multiset{}), Enqueue(0),
                    Small(a, Pending, {}, [Item(0, 0, a)], Idle, [0], multiset{}))
  {
    var s0 := Init(pipe);
    assert s0.hands[0] == [Idle];
    assert s0.queues == [[], []] && s0.hands == [[Idle]];
    assert [] + [Item(0, 0, a)] == [Item(0, 0, a)];
  }

  lemma Taking(pipe: Pipe, a: Payload, item: Item)
    requires Configured(pipe) && |pipe.stages| == 1 && item == Item(0, 0, a)
    ensures StepsTo(pipe, Small(a, Pending, {}, [item], Idle, [0], multiset{}), Get(0, 0),
                    Small(a, Pending, {}, [], Holding(item), [0], multiset{}))
    ensures StepsTo(pipe, Small(a, Pending, {}, [], Holding(item), [0], multiset{}), Check(0, 0),
                    Small(a, Pending, {}, [], Working(item), [0], multiset{}))
  {
    assert [item][1..] == [] && [Idle][0 := Holding(item)] == [Holding(item)];
    assert [Holding(item)][0 := Working(item)] == [Working(item)];
  }

  lemma Ending(pipe: Pipe, a: Payload, item: Item)
    requires Configured(pipe) && |pipe.stages| == 1 && item == Item(0, 0, a)
    ensures StepsTo(pipe, Small(a, Pending, {}, [], Working(item), [0], multiset{}), Cancel(0),
                    Small(a, Cancelled, {}, [], Working(item), [0], multiset{}))
    ensures StepsTo(pipe, Small(a, Cancelled, {}, [], Working(item), [0], multiset{}), Compute(0, 0),
                    Small(a, Cancelled, {}, [], Dead, [0], multiset{0}))
  {
    assert [Working(item)][0 := Dead] == [Dead];
  }

  /** Submit, enqueue, get, test; then the client cancels while the stage works; then the stage ends. */
  lemma CancelledUnderTheWorker(pipe: Pipe, a: Payload) returns (states: seq<State>, steps: seq<Step>)
    requires Configured(pipe) && |pipe.stages| == 1 && pipe.workers == 1
    ensures IsRun(pipe, states, steps) && |steps| == 6 && IsFatal(pipe, states[4], steps[4])
    ensures states[6] == Small(a, Cancelled, {}, [], Dead, [0], multiset{0})
  {
    var item, none: multiset<nat> := Item(0, 0, a), multiset{};
    var s4 := Small(a, Pending, {}, [], Working(item), [0], none);
    states := [Init(pipe),
               Small(a, Pending, {0}, [], Idle, [], none),
               Small(a, Pending, {}, [item], Idle, [0], none),
               Small(a, Pending, {}, [], Holding(item), [0], none),
               s4,
               Small(a, Cancelled, {}, [], Working(item), [0], none),
               Small(a, Cancelled, {}, [], Dead, [0], multiset{0})];
    steps := [Submit(a), Enqueue(0), Get(0, 0), Check(0, 0), Cancel(0), Compute(0, 0)];
    Opening(pipe, a);
    Taking(pipe, a, item);
    Ending(pipe, a, item);
    assert EndsOn(pipe, s4, 0, 0, 0);
  }

  function Stranded(a: Payload, b: Payload, waiting: set<nat>, q: seq<Item>, arrived: seq<nat>): State {
    State([a, b], [Cancelled, Pending], waiting, [q, []], [[Dead]], false, false, 2, 0, 0, arrived, [],
          multiset{}, multiset{0})
  }

  lemma StrandedCannotMove(pipe: Pipe, a: Payload, b: Payload)
    requires |pipe.stages| == 1
    ensures !CanMove(pipe, Stranded(a, b, {}, [Item(1, 1, b)], [0, 1]))
  {
    var s := Stranded(a, b, {}, [Item(1, 1, b)], [0, 1]);
    forall step | IsInternal(step) ensures !Enabled(pipe, s, step) {
      assert s.hands[0][0] == Dead;
    }
  }

  /** Concretely: with one stage and one worker, cancelling the first request while its stage is working kills
      the worker, and the second request, though admitted, stays pending with no step left to move it. */
  lemma LateCancellationStrands(pipe: Pipe, a: Payload, b: Payload) returns (states: seq<State>, steps: seq<Step>)
    requires Configured(pipe) && |pipe.stages| == 1 && pipe.workers == 1
    ensures IsRun(pipe, states, steps) && FatalBefore(pipe, states, steps, |steps|)
    ensures var s := states[|steps|];
      |s.futures| == 2 && s.futures[1].Pending? && !CanMove(pipe, s) && NobodyAlive(s)
  {
    states, steps := CancelledUnderTheWorker(pipe, a);
    var s6 := states[6];
    var s7 := Stranded(a, b, {1}, [], [0]);
    var s8 := Stranded(a, b, {}, [Item(1, 1, b)], [0, 1]);
    assert StepsTo(pipe, s6, Submit(b), s7);
    RunExtend(pipe, states, steps, Submit(b), s7);
    states, steps := states + [s7], steps + [Submit(b)];
    assert s7.queues[0] + [Item(1, 1, b)] == [Item(1, 1, b)];
    assert StepsTo(pipe, s7, Enqueue(1), s8);
    RunExtend(pipe, states, steps, Enqueue(1), s8);
    states, steps := states + [s8], steps + [Enqueue(1)];
    StrandedCannotMove(pipe, a, b);
    assert IsFatal(pipe, states[4], steps[4]);
  }

  /** Two stages, one worker each, one request. */
  function Pair(a: Payload, f: Future, waiting: set<nat>, q: seq<Item>, x: Worker, arrived: seq<nat>, processed: nat,
                accounted: multiset<nat>): State {
    State([a], [f], waiting, [q, [], []], [[x], [Idle]], false, false, 1, 0, processed, arrived, [], accounted, multiset{})
  }

  lemma PairOpening(pipe: Pipe, a: Payload)
    requires Configured(pipe) && |pipe.stages| == 2 && pipe.workers == 1
    ensures StepsTo(pipe, Init(pipe), Submit(a), Pair(a, Pending, {0}, [], Idle, [], 0, multiset{}))
    ensures StepsTo(pipe, Pair(a, Pending, {0}, [], Idle, [], 0, multiset{}), Enqueue(0),
                    Pair(a, Pending, {}, [Item(0, 0, a)], Idle, [0], 0, multiset{}))
  {
    var s0 := Init(pipe);
    assert s0.hands[0] == [Idle] && s0.hands[1] == [Idle];
    assert s0.queues == [[], [], []] && s0.hands == [[Idle], [Idle]];
    assert [] + [Item(0, 0, a)] == [Item(0, 0, a)];
  }

  lemma PairTaking(pipe: Pipe, a: Payload, item: Item)
    requires Configured(pipe) && |pipe.stages| == 2 && item == Item(0, 0, a)
    ensures StepsTo(pipe, Pair(a, Pending, {}, [item], Idle, [0], 0, multiset{}), Get(0, 0),
                    Pair(a, Pending, {}, [], Holding(item), [0], 0, multiset{}))
    ensures StepsTo(pipe, Pair(a, Pending, {}, [], Holding(item), [0], 0, multiset{}), Check(0, 0),
                    Pair(a, Pending, {}, [], Working(item), [0], 0, multiset{}))
  {
    assert [item][1..] == [] && [Idle][0 := Holding(item)] == [Holding(item)];
    assert [Holding(item)][0 := Working(item)] == [Working(item)];
  }

  lemma PairEnding(pipe: Pipe, a: Payload, item: Item, fault: Fault)
    requires Configured(pipe) && |pipe.stages| == 2 && item == Item(0, 0, a) && pipe.stages[0](a) == Raised(fault)
    ensures StepsTo(pipe, Pair(a, Pending, {}, [], Working(item), [0], 0, multiset{}), Compute(0, 0),
                    Pair(a, Failed(fault), {}, [], Idle, [0], 1, multiset{0}))
  {
    assert [Working(item)][0 := Idle] == [Idle] && [Pending][0 := Failed(fault)] == [Failed(fault)];
  }

  /** Concretely: with two stages of which the first raises, the future is resolved at the first stage, which is not
      the terminal one. */
  lemma FirstStageResolves(pipe: Pipe, a: Payload, fault: Fault) returns (states: seq<State>, steps: seq<Step>)
    requires Configured(pipe) && |pipe.stages| == 2 && pipe.workers == 1 && pipe.stages[0](a) == Raised(fault)
    ensures IsRun(pipe, states, steps) && |steps| == 5 && steps[4] == Compute(0, 0)
    ensures |states[4].futures| == |states[5].futures| == 1
    ensures states[4].futures[0].Pending? && states[5].futures[0] == Failed(fault)
  {
    var item, none: multiset<nat> := Item(0, 0, a), multiset{};
    states := [Init(pipe),
               Pair(a, Pending, {0}, [], Idle, [], 0, none),
               Pair(a, Pending, {}, [item], Idle, [0], 0, none),
               Pair(a, Pending, {}, [], Holding(item), [0], 0, none),
               Pair(a, Pending, {}, [], Working(item), [0], 0, none),
               Pair(a, Failed(fault), {}, [], Idle, [0], 1, multiset{0})];
    steps := [Submit(a), Enqueue(0), Get(0, 0), Check(0, 0), Compute(0, 0)];
    PairOpening(pipe, a);
    PairTaking(pipe, a, item);
    PairEnding(pipe, a, item, fault);
  }
}
