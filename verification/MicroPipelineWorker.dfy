/** plugins/micro_pipeline.py in its own form: the plugin's fields, `submit`, `close` and the body of
    `_stage_worker`. Every method is a path of steps of `MicroPipeline`. */
module MicroPipelineWorker {
  import opened Collections
  import opened MicroPipeline
  import opened MicroPipelineInvariants
  import opened MicroPipelineTheorems

  // ----- Reachable states -----

  ghost predicate Reachable(pipe: Pipe, s: State) {
    exists states, steps :: IsRun(pipe, states, steps) && states[|steps|] == s
  }

  lemma ReachableInit(pipe: Pipe)
    ensures Reachable(pipe, Init(pipe))
  {
    assert IsRun(pipe, [Init(pipe)], []);
  }

  lemma ReachableStep(pipe: Pipe, s: State, step: Step, s': State)
    requires Reachable(pipe, s) && StepsTo(pipe, s, step, s')
    ensures Reachable(pipe, s')
  {
    var states, steps :| IsRun(pipe, states, steps) && states[|steps|] == s;
    var states', steps' := states + [s'], steps + [step];
    forall i | 0 <= i < |steps'| ensures StepAt(pipe, states', steps', i) {
      if i < |steps| {
        assert StepAt(pipe, states, steps, i);
      }
    }
    assert IsRun(pipe, states', steps');
  }

  lemma ReachableInv(pipe: Pipe, s: State)
    requires Configured(pipe) && Reachable(pipe, s)
    ensures Inv(pipe, s)
  {
    var states, steps :| IsRun(pipe, states, steps) && states[|steps|] == s;
    RunInv(pipe, states, steps, |steps|);
  }

  // ----- Paths of steps -----

  ghost predicate IsTrace(pipe: Pipe, s: State, states: seq<State>, steps: seq<Step>, s': State) {
    && |states| == |steps| + 1 && states[0] == s && states[|steps|] == s'
    && forall i :: 0 <= i < |steps| ==> StepAt(pipe, states, steps, i)
  }

  /** The steps lead from s to s'. */
  ghost predicate Path(pipe: Pipe, s: State, steps: seq<Step>, s': State) {
    exists states :: IsTrace(pipe, s, states, steps, s')
  }

  lemma PathNil(pipe: Pipe, s: State)
    ensures Path(pipe, s, [], s)
  {
    assert IsTrace(pipe, s, [s], [], s);
  }

  lemma StepElsewhere(pipe: Pipe, states: seq<State>, steps: seq<Step>, i: nat, states': seq<State>, steps': seq<Step>, j: nat)
    requires StepAt(pipe, states, steps, i) && j < |steps'| && j + 1 < |states'|
    requires states'[j] == states[i] && states'[j + 1] == states[i + 1] && steps'[j] == steps[i]
    ensures StepAt(pipe, states', steps', j)
  {
  }

  lemma TraceConcat(pipe: Pipe, s: State, a: seq<State>, aSteps: seq<Step>, mid: State, b: seq<State>, bSteps: seq<Step>,
                    s': State)
    requires IsTrace(pipe, s, a, aSteps, mid) && IsTrace(pipe, mid, b, bSteps, s')
    ensures IsTrace(pipe, s, a + b[1..], aSteps + bSteps, s')
  {
    var states, steps := a + b[1..], aSteps + bSteps;
    forall i | 0 <= i < |steps| ensures StepAt(pipe, states, steps, i) {
      if i < |aSteps| {
        assert StepAt(pipe, a, aSteps, i);
        StepElsewhere(pipe, a, aSteps, i, states, steps, i);
      } else {
        var j := i - |aSteps|;
        assert StepAt(pipe, b, bSteps, j);
        StepElsewhere(pipe, b, bSteps, j, states, steps, i);
      }
    }
  }

  lemma PathConcat(pipe: Pipe, s: State, a: seq<Step>, mid: State, b: seq<Step>, s': State)
    requires Path(pipe, s, a, mid) && Path(pipe, mid, b, s')
    ensures Path(pipe, s, a + b, s')
  {
    var first :| IsTrace(pipe, s, first, a, mid);
    var second :| IsTrace(pipe, mid, second, b, s');
    TraceConcat(pipe, s, first, a, mid, second, b, s');
  }

  lemma PathOne(pipe: Pipe, s: State, step: Step, s': State)
    requires StepsTo(pipe, s, step, s')
    ensures Path(pipe, s, [step], s')
  {
    assert StepAt(pipe, [s, s'], [step], 0);
    assert IsTrace(pipe, s, [s, s'], [step], s');
  }

  lemma PathSnoc(pipe: Pipe, s: State, steps: seq<Step>, mid: State, step: Step, s': State)
    requires Path(pipe, s, steps, mid) && StepsTo(pipe, mid, step, s')
    ensures Path(pipe, s, steps + [step], s')
  {
    PathOne(pipe, mid, step, s');
    PathConcat(pipe, s, steps, mid, [step], s');
  }

  /** The state before the last step of a path. */
  lemma PathLast(pipe: Pipe, s: State, steps: seq<Step>, s': State) returns (mid: State)
    requires Path(pipe, s, steps, s') && steps != []
    ensures Path(pipe, s, steps[..|steps| - 1], mid) && StepsTo(pipe, mid, steps[|steps| - 1], s')
  {
    var states :| IsTrace(pipe, s, states, steps, s');
    var last := |steps| - 1;
    mid := states[last];
    assert StepAt(pipe, states, steps, last);
    TraceFront(pipe, s, states, steps, s');
  }

  lemma TraceFront(pipe: Pipe, s: State, states: seq<State>, steps: seq<Step>, s': State)
    requires IsTrace(pipe, s, states, steps, s') && steps != []
    ensures IsTrace(pipe, s, states[..|steps|], steps[..|steps| - 1], states[|steps| - 1])
  {
    var front, fewer := states[..|steps|], steps[..|steps| - 1];
    forall i | 0 <= i < |fewer| ensures StepAt(pipe, front, fewer, i) {
      assert StepAt(pipe, states, steps, i);
      StepElsewhere(pipe, states, steps, i, front, fewer, i);
    }
  }

  lemma NoSteps(pipe: Pipe, s: State, s': State)
    requires Path(pipe, s, [], s')
    ensures s == s'
  {
    var states :| IsTrace(pipe, s, states, [], s');
  }

  /** State `seen` is the one on the path in which this step is taken. */
  ghost predicate Turn(pipe: Pipe, start: State, steps: seq<Step>, step: Step, seen: State) {
    exists n :: 0 <= n < |steps| && steps[n] == step && Path(pipe, start, steps[..n], seen)
  }

  lemma TurnAtEnd(pipe: Pipe, start: State, steps: seq<Step>, step: Step, seen: State)
    requires Path(pipe, start, steps, seen)
    ensures Turn(pipe, start, steps + [step], step, seen)
  {
    assert (steps + [step])[..|steps|] == steps && (steps + [step])[|steps|] == step;
  }

  lemma TurnStays(pipe: Pipe, start: State, steps: seq<Step>, steps': seq<Step>, step: Step, seen: State)
    requires Turn(pipe, start, steps, step, seen) && steps <= steps'
    ensures Turn(pipe, start, steps', step, seen)
  {
    var n :| 0 <= n < |steps| && steps[n] == step && Path(pipe, start, steps[..n], seen);
    assert steps'[..n] == steps[..n] && steps'[n] == step;
  }

  // ----- What everybody else does meanwhile -----

  predicate IsOwn(step: Step, i: nat, w: nat) {
    IsWorkerStep(step) && step.stage == i && step.w == w
  }

  predicate Others(steps: seq<Step>, i: nat, w: nat) {
    forall k :: 0 <= k < |steps| ==> !IsOwn(steps[k], i, w)
  }

  /** Worker w of stage i is in state x. */
  predicate HandIs(s: State, i: nat, w: nat, x: Worker) {
    i < |s.hands| && w < |s.hands[i]| && s.hands[i][w] == x
  }

  lemma OthersStep(pipe: Pipe, s: State, step: Step, i: nat, w: nat, x: Worker)
    requires Enabled(pipe, s, step) && !IsOwn(step, i, w) && HandIs(s, i, w, x)
    ensures HandIs(Apply(pipe, s, step), i, w, x)
  {
    TouchesOne(pipe, s, step);
  }

  /** Nobody else touches what a worker has in hand. */
  lemma {:induction false} OthersPath(pipe: Pipe, s: State, steps: seq<Step>, s': State, i: nat, w: nat, x: Worker)
    requires Path(pipe, s, steps, s') && Others(steps, i, w) && HandIs(s, i, w, x)
    ensures HandIs(s', i, w, x)
    decreases |steps|
  {
    if steps == [] {
      NoSteps(pipe, s, s');
    } else {
      var last := |steps| - 1;
      var mid := PathLast(pipe, s, steps, s');
      OthersPath(pipe, s, steps[..last], mid, i, w, x);
      OthersStep(pipe, mid, steps[last], i, w, x);
    }
  }

  // ----- What one iteration of a worker does -----

  /** The stage was run on the item in state `computed`, and this is what became of it in state s. */
  ghost predicate Worked(pipe: Pipe, i: nat, w: nat, item: Item, computed: State, s: State) {
    && i < |pipe.stages| && item.id < |computed.futures|
    && if Sets(pipe, i, item) then
         if computed.futures[item.id].Cancelled? then HandIs(s, i, w, Dead)
         else HandIs(s, i, w, Idle) && item.id < |s.futures| && s.futures[item.id] == Outcome(pipe.stages[i](item.payload))
       else PassedOn(pipe, i, w, item.(payload := pipe.stages[i](item.payload).value), s)
  }

  /** The value went into the next queue, or that queue is full and the worker waits with the value in hand. */
  ghost predicate PassedOn(pipe: Pipe, i: nat, w: nat, passed: Item, s: State) {
    && i + 1 < |s.queues|
    && if HandIs(s, i, w, Idle) then s.queues[i + 1] != [] && s.queues[i + 1][|s.queues[i + 1]| - 1] == passed
       else HandIs(s, i, w, Delivering(passed)) && |s.queues[i + 1]| >= pipe.capacity
  }

  /** One iteration: the cancelled() test in state `checked`, and unless it succeeded the stage in state `computed`. */
  ghost predicate Served(pipe: Pipe, i: nat, w: nat, item: Item, start: State, steps: seq<Step>, checked: State,
                         computed: State, s: State) {
    && Turn(pipe, start, steps, Check(i, w), checked) && item.id < |checked.futures|
    && if checked.futures[item.id].Cancelled? then HandIs(s, i, w, Idle)
       else Turn(pipe, start, steps, Compute(i, w), computed) && Worked(pipe, i, w, item, computed, s)
  }

  lemma HeldCanCheck(pipe: Pipe, s: State, i: nat, w: nat, item: Item)
    requires Configured(pipe) && Reachable(pipe, s) && HandIs(s, i, w, Holding(item))
    ensures Enabled(pipe, s, Check(i, w)) && item.id < |s.futures|
    ensures HandIs(ApplyCheck(s, i, w), i, w, CheckedHand(item, s.futures[item.id].Cancelled?))
  {
    ReachableInv(pipe, s);
    HeldIsUnresolved(pipe, s, i, w);
    CheckEffect(pipe, s, i, w);
  }

  lemma WorkingCanCompute(pipe: Pipe, s: State, i: nat, w: nat, item: Item)
    requires Configured(pipe) && Reachable(pipe, s) && HandIs(s, i, w, Working(item))
    ensures Enabled(pipe, s, Compute(i, w)) && i < |pipe.stages| && item.id < |s.futures|
    ensures var s' := ApplyCompute(pipe, s, i, w);
      && HandIs(s', i, w, ComputedHand(pipe, i, item, s.futures[item.id].Cancelled?))
      && (Sets(pipe, i, item) ==> Worked(pipe, i, w, item, s, s'))
  {
    ReachableInv(pipe, s);
    HeldIsUnresolved(pipe, s, i, w);
    ComputeEffect(pipe, s, i, w);
  }

  lemma DeliveringCanPut(pipe: Pipe, s: State, i: nat, w: nat, passed: Item)
    requires Configured(pipe) && Reachable(pipe, s) && HandIs(s, i, w, Delivering(passed))
    ensures i + 1 < |pipe.stages| && |s.queues| == |pipe.stages| + 1
    ensures |s.queues[i + 1]| < pipe.capacity ==>
              Enabled(pipe, s, Put(i, w)) && PassedOn(pipe, i, w, passed, Apply(pipe, s, Put(i, w)))
    ensures |s.queues[i + 1]| >= pipe.capacity ==> PassedOn(pipe, i, w, passed, s)
  {
    ReachableInv(pipe, s);
  }

  /** What lines 137-146 do with the item in hand: pass its value on, or set its future and count it, or die because the
      future was cancelled. */
  ghost predicate StageRan(pipe: Pipe, s: State, i: nat, w: nat, s': State)
    requires Enabled(pipe, s, Compute(i, w))
  {
    var item := s.hands[i][w].item;
    match pipe.stages[i](item.payload)
    case Raised(fault) => SetOrDied(s, i, w, item, Failed(fault), s')
    case Value(value) =>
      if i + 1 == |pipe.stages| then SetOrDied(s, i, w, item, Done(value), s')
      else s' == s.(hands := s.hands[i := s.hands[i][w := Delivering(Item(item.id, item.ticket, value))]])
  }

  /** The future has the outcome and the item is counted, or the future was cancelled and the worker is dead. */
  ghost predicate SetOrDied(s: State, i: nat, w: nat, item: Item, outcome: Future, s': State)
    requires i < |s.hands| && w < |s.hands[i]| && item.id < |s.futures|
  {
    if s.futures[item.id].Cancelled? then
      s' == s.(hands := s.hands[i := s.hands[i][w := Dead]], lost := s.lost + multiset{item.id})
    else
      s' == s.(hands := s.hands[i := s.hands[i][w := Idle]], futures := s.futures[item.id := outcome],
               processed := s.processed + 1, accounted := s.accounted + multiset{item.id},
               delivered := s.delivered + if outcome.Done? then [item.ticket] else [])
  }

  // ----- The object -----

  class Pipeline {
    const pipe: Pipe
    ghost var originals: seq<Payload>
    var futures: seq<Future>
    ghost var waiting: set<nat>
    var queues: seq<seq<Item>>
    var hands: seq<seq<Worker>>
    var closed: bool
    var cleared: bool
    var submitted: nat
    ghost var refused: nat
    var processed: nat
    var arrived: seq<nat>
    ghost var delivered: seq<nat>
    ghost var accounted: multiset<nat>
    ghost var lost: multiset<nat>

    ghost function Abs(): State
      reads this
    {
      State(originals, futures, waiting, queues, hands, closed, cleared, submitted, refused, processed, arrived,
            delivered, accounted, lost)
    }

    ghost predicate Valid()
      reads this
    {
      Configured(pipe) && Reachable(pipe, Abs())
    }

    /** Lines 97-117: one bounded queue more than there are stages, and the workers of each stage. */
    constructor (pipe: Pipe)
      requires Configured(pipe)
      ensures Valid() && this.pipe == pipe && Abs() == Init(pipe)
      ensures |queues| == |pipe.stages| + 1 && |hands| == |pipe.stages| && futures == [] && !closed && !cleared
      ensures submitted == processed == 0
      ensures forall i :: 0 <= i < |queues| ==> queues[i] == []
      ensures forall i :: 0 <= i < |hands| ==> |hands[i]| == pipe.workers && forall w :: 0 <= w < pipe.workers ==> hands[i][w] == Idle
    {
      this.pipe := pipe;
      originals, futures, waiting := [], [], {};
      queues := seq(|pipe.stages| + 1, _ => []);
      hands := seq(|pipe.stages|, _ => seq(pipe.workers, _ => Idle));
      closed, cleared, submitted, refused, processed, arrived := false, false, 0, 0, 0, [];
      delivered, accounted, lost := [], multiset{}, multiset{};
      ReachableInit(pipe);
    }

    /** Lines 158-171: a new future, counted before its item is put; once close has dropped the queues the lookup of
        the first one raises, which is None here, and the submission stays counted. */
    method Submit(payload: Payload) returns (id: Option<nat>)
      requires Valid()
      modifies `originals, `futures, `waiting, `submitted, `refused
      ensures Valid()
      ensures id.None? <==> old(cleared)
      ensures id.Some? ==> StepsTo(pipe, old(Abs()), Step.Submit(payload), Abs())
      ensures id.Some? ==> id.value == |old(futures)| && id.value in waiting
      ensures id.None? ==> StepsTo(pipe, old(Abs()), Refuse, Abs())
      ensures submitted == old(submitted) + 1
      ensures id.Some? ==>
                && originals == old(originals) + [payload] && futures == old(futures) + [Pending]
                && waiting == old(waiting) + {id.value} && refused == old(refused)
      ensures id.None? ==>
                originals == old(originals) && futures == old(futures) && waiting == old(waiting) && refused == old(refused) + 1
    {
      if cleared {
        RefuseOne();
        id := None;
      } else {
        id := Some(|futures|);
        AdmitOne(payload);
      }
    }

    method RefuseOne()
      requires Valid() && cleared
      modifies `submitted, `refused
      ensures Valid() && StepsTo(pipe, old(Abs()), Refuse, Abs())
      ensures submitted == old(submitted) + 1 && refused == old(refused) + 1
    {
      submitted, refused := submitted + 1, refused + 1;
      ReachableStep(pipe, old(Abs()), Refuse, Abs());
    }

    method AdmitOne(payload: Payload)
      requires Valid() && !cleared
      modifies `originals, `futures, `waiting, `submitted
      ensures Valid() && StepsTo(pipe, old(Abs()), Step.Submit(payload), Abs())
      ensures submitted == old(submitted) + 1 && originals == old(originals) + [payload]
      ensures futures == old(futures) + [Pending] && waiting == old(waiting) + {|old(futures)|}
    {
      submitted := submitted + 1;
      originals, futures, waiting := originals + [payload], futures + [Pending], waiting + {|futures|};
      ReachableStep(pipe, old(Abs()), Step.Submit(payload), Abs());
    }

    /** Line 171: the blocking put on the first queue, once there is room. */
    method PutFirst(id: nat, payload: Payload)
      requires Valid() && Enabled(pipe, Abs(), Enqueue(id)) && payload == originals[id]
      modifies `waiting, `queues, `arrived
      ensures Valid() && StepsTo(pipe, old(Abs()), Enqueue(id), Abs())
      ensures waiting == old(waiting) - {id} && arrived == old(arrived) + [id]
      ensures queues == old(queues)[0 := old(queues)[0] + [Item(id, |old(arrived)|, payload)]]
    {
      waiting := waiting - {id};
      queues := queues[0 := queues[0] + [Item(id, |arrived|, payload)]];
      arrived := arrived + [id];
      ReachableStep(pipe, old(Abs()), Enqueue(id), Abs());
    }

    /** Lines 178-181. */
    method Close()
      requires Valid()
      modifies `closed
      ensures Valid()
      ensures old(closed) ==> Abs() == old(Abs())
      ensures !old(closed) ==> StepsTo(pipe, old(Abs()), Step.Close, Abs())
      ensures closed
    {
      if !closed {
        closed := true;
        ReachableStep(pipe, old(Abs()), Step.Close, Abs());
      }
    }

    /** Line 185: drop the list of queues; the workers keep theirs. */
    method ClearQueues()
      requires Valid() && closed && !cleared
      modifies `cleared
      ensures Valid() && StepsTo(pipe, old(Abs()), Clear, Abs())
      ensures cleared
    {
      cleared := true;
      ReachableStep(pipe, old(Abs()), Clear, Abs());
    }

    method SetWorker(i: nat, w: nat, x: Worker)
      requires At(Abs(), i, w)
      modifies `hands
      ensures Abs() == SetHand(old(Abs()), i, w, x)
      ensures hands == old(hands)[i := old(hands)[i][w := x]]
    {
      hands := hands[i := hands[i][w := x]];
    }

    /** Lines 129-133: take an item. */
    method GetItem(i: nat, w: nat)
      requires Valid() && Enabled(pipe, Abs(), Get(i, w))
      modifies `queues, `hands
      ensures Valid() && StepsTo(pipe, old(Abs()), Get(i, w), Abs())
      ensures queues == old(queues)[i := old(queues)[i][1..]]
      ensures hands == old(hands)[i := old(hands)[i][w := Holding(old(queues)[i][0])]]
    {
      var item := queues[i][0];
      queues := queues[i := queues[i][1..]];
      SetWorker(i, w, Holding(item));
      ReachableStep(pipe, old(Abs()), Get(i, w), Abs());
    }

    /** Lines 134-136: drop an item whose future was cancelled. */
    method CheckItem(i: nat, w: nat)
      requires Valid() && Enabled(pipe, Abs(), Check(i, w))
      modifies `hands, `processed, `accounted
      ensures Valid() && StepsTo(pipe, old(Abs()), Check(i, w), Abs())
      ensures var item := old(hands)[i][w].item;
        if futures[item.id].Cancelled? then
          && hands == old(hands)[i := old(hands)[i][w := Idle]] && processed == old(processed) + 1
          && accounted == old(accounted) + multiset{item.id}
        else
          && hands == old(hands)[i := old(hands)[i][w := Working(item)]] && processed == old(processed)
          && accounted == old(accounted)
    {
      var item := hands[i][w].item;
      if futures[item.id].Cancelled? {
        SetWorker(i, w, Idle);
        MarkProcessed(item.id);
      } else {
        SetWorker(i, w, Working(item));
      }
      ReachableStep(pipe, old(Abs()), Check(i, w), Abs());
    }

    /** Lines 154-156. */
    method MarkProcessed(ghost id: nat)
      modifies `processed, `accounted
      ensures processed == old(processed) + 1 && accounted == old(accounted) + multiset{id}
    {
      processed := processed + 1;
      accounted := accounted + multiset{id};
    }

    /** Lines 139-142 and 143-146: set the future, unless it was cancelled meanwhile: then the worker is gone. */
    method SetOutcome(i: nat, w: nat, item: Item, outcome: Future)
      requires At(Abs(), i, w) && item.id < |futures|
      modifies `hands, `futures, `processed, `accounted, `delivered, `lost
      ensures Abs() == Resolve(old(Abs()), i, w, item, outcome)
    {
      if futures[item.id].Cancelled? {
        LoseItem(i, w, item);
      } else {
        GiveOutcome(i, w, item, outcome);
      }
    }

    method LoseItem(i: nat, w: nat, item: Item)
      requires At(Abs(), i, w)
      modifies `hands, `lost
      ensures Abs() == Lose(old(Abs()), i, w, item.id, Dead)
    {
      SetWorker(i, w, Dead);
      lost := lost + multiset{item.id};
    }

    method GiveOutcome(i: nat, w: nat, item: Item, outcome: Future)
      requires At(Abs(), i, w) && item.id < |futures| && !futures[item.id].Cancelled?
      modifies `hands, `futures, `processed, `accounted, `delivered
      ensures Abs() == Resolve(old(Abs()), i, w, item, outcome)
    {
      futures := futures[item.id := outcome];
      delivered := if outcome.Done? then delivered + [item.ticket] else delivered;
      SetWorker(i, w, Idle);
      MarkProcessed(item.id);
    }

    /** Lines 137-146: run the stage; the last stage and an exception resolve the future. */
    method RunStage(i: nat, w: nat)
      requires Valid() && Enabled(pipe, Abs(), Compute(i, w))
      modifies `hands, `futures, `processed, `accounted, `delivered, `lost
      ensures Valid() && StepsTo(pipe, old(Abs()), Compute(i, w), Abs())
      ensures StageRan(pipe, old(Abs()), i, w, Abs())
    {
      var item := hands[i][w].item;
      var result := pipe.stages[i](item.payload);
      if result.Raised? {
        SetOutcome(i, w, item, Failed(result.fault));
      } else if i == |pipe.stages| - 1 {
        SetOutcome(i, w, item, Done(result.value));
      } else {
        SetWorker(i, w, Delivering(item.(payload := result.value)));
      }
      ReachableStep(pipe, old(Abs()), Compute(i, w), Abs());
    }

    /** Lines 147-152: put the result into the next queue, once there is room. */
    method PutNext(i: nat, w: nat)
      requires Valid() && Enabled(pipe, Abs(), Put(i, w))
      modifies `hands, `queues
      ensures Valid() && StepsTo(pipe, old(Abs()), Put(i, w), Abs())
      ensures queues == old(queues)[i + 1 := old(queues)[i + 1] + [old(hands)[i][w].item]]
      ensures hands == old(hands)[i := old(hands)[i][w := Idle]]
    {
      var item := hands[i][w].item;
      queues := queues[i + 1 := queues[i + 1] + [item]];
      SetWorker(i, w, Idle);
      ReachableStep(pipe, old(Abs()), Put(i, w), Abs());
    }

    /** What clients and all the other workers may do while this worker is between two of its steps. It happens to be
        nothing here; the callers rely only on the contract, which allows any environment. */
    method Interfere(i: nat, w: nat) returns (ghost steps: seq<Step>)
      requires Valid()
      modifies this
      ensures Valid() && Path(pipe, old(Abs()), steps, Abs()) && Others(steps, i, w)
    {
      PathNil(pipe, Abs());
      steps := [];
    }

    /** An interference, which leaves the worker's hand alone. */
    method Pause(i: nat, w: nat, ghost start: State, ghost before: seq<Step>, ghost x: Worker)
      returns (ghost steps: seq<Step>)
      requires Valid() && Path(pipe, start, before, Abs()) && HandIs(Abs(), i, w, x)
      modifies this
      ensures Valid() && Path(pipe, start, steps, Abs()) && HandIs(Abs(), i, w, x) && before <= steps
    {
      ghost var s := Abs();
      ghost var noise := Interfere(i, w);
      PathConcat(pipe, start, before, s, noise, Abs());
      OthersPath(pipe, s, noise, Abs(), i, w, x);
      steps := before + noise;
    }

    /** Lines 134-136, after an interference. */
    method CheckNext(i: nat, w: nat, item: Item, ghost start: State, ghost before: seq<Step>)
      returns (ghost steps: seq<Step>, ghost checked: State)
      requires Valid() && Path(pipe, start, before, Abs()) && HandIs(Abs(), i, w, Holding(item))
      modifies this
      ensures Valid() && Path(pipe, start, steps, Abs()) && Turn(pipe, start, steps, Check(i, w), checked)
      ensures item.id < |checked.futures|
      ensures HandIs(Abs(), i, w, CheckedHand(item, checked.futures[item.id].Cancelled?))
    {
      ghost var paused := Pause(i, w, start, before, Holding(item));
      checked := Abs();
      HeldCanCheck(pipe, checked, i, w, item);
      CheckItem(i, w);
      PathSnoc(pipe, start, paused, checked, Check(i, w), Abs());
      TurnAtEnd(pipe, start, paused, Check(i, w), checked);
      steps := paused + [Check(i, w)];
    }

    /** Lines 137-146, after an interference. */
    method ComputeNext(i: nat, w: nat, item: Item, ghost start: State, ghost before: seq<Step>)
      returns (ghost steps: seq<Step>, ghost computed: State)
      requires Valid() && Path(pipe, start, before, Abs()) && HandIs(Abs(), i, w, Working(item))
      modifies this
      ensures Valid() && Path(pipe, start, steps, Abs()) && Turn(pipe, start, steps, Compute(i, w), computed)
      ensures before <= steps && i < |pipe.stages| && item.id < |computed.futures|
      ensures HandIs(Abs(), i, w, ComputedHand(pipe, i, item, computed.futures[item.id].Cancelled?))
      ensures Sets(pipe, i, item) ==> Worked(pipe, i, w, item, computed, Abs())
    {
      ghost var paused := Pause(i, w, start, before, Working(item));
      computed := Abs();
      WorkingCanCompute(pipe, computed, i, w, item);
      RunStage(i, w);
      PathSnoc(pipe, start, paused, computed, Compute(i, w), Abs());
      TurnAtEnd(pipe, start, paused, Compute(i, w), computed);
      steps := paused + [Compute(i, w)];
    }

    /** Lines 147-152, after an interference: put the value if there is room. */
    method DeliverNext(i: nat, w: nat, passed: Item, ghost start: State, ghost before: seq<Step>)
      returns (ghost steps: seq<Step>)
      requires Valid() && Path(pipe, start, before, Abs()) && HandIs(Abs(), i, w, Delivering(passed))
      modifies this
      ensures Valid() && Path(pipe, start, steps, Abs()) && before <= steps && PassedOn(pipe, i, w, passed, Abs())
    {
      steps := Pause(i, w, start, before, Delivering(passed));
      ghost var s := Abs();
      DeliveringCanPut(pipe, s, i, w, passed);
      if |queues[i + 1]| < pipe.capacity {
        PutNext(i, w);
        PathSnoc(pipe, start, steps, s, Put(i, w), Abs());
        steps := steps + [Put(i, w)];
      }
    }

    /** Lines 128-152, one iteration of the worker loop, whatever everybody else does between its steps: the item it
        takes is dropped if it is cancelled at its check; otherwise the stage runs on it and its future gets the outcome,
        or its value goes into the next queue or waits for room there, or, if it was cancelled under a stage that sets
        it, the worker is dead. */
    method Serve(i: nat, w: nat) returns (ghost steps: seq<Step>, ghost checked: State, ghost computed: State)
      requires Valid() && Enabled(pipe, Abs(), Get(i, w))
      modifies this
      ensures Valid() && Path(pipe, old(Abs()), steps, Abs())
      ensures Served(pipe, i, w, old(queues[i][0]), old(Abs()), steps, checked, computed, Abs())
    {
      ghost var start := Abs();
      var item := queues[i][0];
      GetItem(i, w);
      PathOne(pipe, start, Get(i, w), Abs());
      steps := [Get(i, w)];
      steps, checked := CheckNext(i, w, item, start, steps);
      computed := checked;
      if hands[i][w].Working? {
        ghost var before := steps;
        steps, computed := ComputeNext(i, w, item, start, steps);
        TurnStays(pipe, start, before, steps, Check(i, w), checked);
        if hands[i][w].Delivering? {
          before := steps;
          steps := DeliverNext(i, w, hands[i][w].item, start, steps);
          TurnStays(pipe, start, before, steps, Check(i, w), checked);
          TurnStays(pipe, start, before, steps, Compute(i, w), computed);
        }
      }
    }
  }
}
