/** What the micro-pipeline guarantees over whole runs. */
module MicroPipelineTheorems {
  import opened MicroPipeline
  import opened MicroPipelineInvariants

  // ----- Refinement of sequential composition -----

  /** Every resolved future holds the in-order composition of all stages on its own payload:
      a result exactly the composed value, an exception exactly the first one a stage raises. */
  lemma RefinesComposition(pipe: Pipe, states: seq<State>, steps: seq<Step>, n: nat, id: nat)
    requires Configured(pipe) && IsRun(pipe, states, steps) && n < |states| && id < |states[n].futures|
    ensures id < |states[n].originals|
    ensures states[n].futures[id].Done? ==>
              Compose(pipe.stages, states[n].originals[id]) == Value(states[n].futures[id].value)
    ensures states[n].futures[id].Failed? ==>
              Compose(pipe.stages, states[n].originals[id]) == Raised(states[n].futures[id].fault)
  {
    RunInv(pipe, states, steps, n);
    assert Faithful(pipe, states[n].originals[id], states[n].futures[id]);
  }

  /** The client submits payload at step m and gets future id. */
  ghost predicate SubmittedAt(states: seq<State>, steps: seq<Step>, m: nat, id: nat, payload: Payload) {
    m < |steps| && m < |states| && steps[m] == Submit(payload) && |states[m].futures| == id
  }

  lemma OriginalsStep(pipe: Pipe, s: State, step: Step)
    requires Inv(pipe, s) && Enabled(pipe, s, step)
    ensures var s' := Apply(pipe, s, step);
      && |s'.futures| == |s'.originals|
      && s'.originals == if step.Submit? then s.originals + [step.payload] else s.originals
  {
    if step.Compute? {
      ComputeEffect(pipe, s, step.stage, step.w);
    } else if step.Check? {
      CheckEffect(pipe, s, step.stage, step.w);
    }
  }

  lemma OriginalsNext(pipe: Pipe, states: seq<State>, steps: seq<Step>, n: nat)
    requires Configured(pipe) && IsRun(pipe, states, steps) && n < |steps|
    ensures |states[n].futures| == |states[n].originals| && |states[n + 1].futures| == |states[n + 1].originals|
    ensures states[n + 1].originals ==
            if steps[n].Submit? then states[n].originals + [steps[n].payload] else states[n].originals
  {
    RunInv(pipe, states, steps, n);
    assert StepAt(pipe, states, steps, n);
    OriginalsStep(pipe, states[n], steps[n]);
  }

  /** The pipeline carries, for every future, the payload of the submission that handed it out. */
  lemma {:induction false} PayloadIsCarried(pipe: Pipe, states: seq<State>, steps: seq<Step>, m: nat, n: nat, id: nat,
                                            payload: Payload)
    requires Configured(pipe) && IsRun(pipe, states, steps) && m < n < |states|
    requires SubmittedAt(states, steps, m, id, payload)
    ensures id < |states[n].futures| == |states[n].originals| && states[n].originals[id] == payload
    decreases n
  {
    OriginalsNext(pipe, states, steps, n - 1);
    if m < n - 1 {
      PayloadIsCarried(pipe, states, steps, m, n - 1, id, payload);
    }
  }

  /** And every future was handed out by a submission. */
  lemma {:induction false} FutureWasSubmitted(pipe: Pipe, states: seq<State>, steps: seq<Step>, n: nat, id: nat) returns (m: nat)
    requires Configured(pipe) && IsRun(pipe, states, steps) && n < |states| && id < |states[n].futures|
    ensures id < |states[n].originals|
    ensures m < n && SubmittedAt(states, steps, m, id, states[n].originals[id])
  {
    OriginalsNext(pipe, states, steps, n - 1);
    if id < |states[n - 1].futures| {
      m := FutureWasSubmitted(pipe, states, steps, n - 1, id);
    } else {
      m := n - 1;
    }
  }

  /** End to end: a client that submitted a payload finds in its future, once it is resolved, the in-order composition
      of all stages on that payload, or the exception that composition raises. */
  lemma ClientGetsComposition(pipe: Pipe, states: seq<State>, steps: seq<Step>, m: nat, n: nat, id: nat, payload: Payload)
    requires Configured(pipe) && IsRun(pipe, states, steps) && m < n < |states|
    requires SubmittedAt(states, steps, m, id, payload)
    ensures id < |states[n].futures|
    ensures states[n].futures[id].Done? ==> Compose(pipe.stages, payload) == Value(states[n].futures[id].value)
    ensures states[n].futures[id].Failed? ==> Compose(pipe.stages, payload) == Raised(states[n].futures[id].fault)
  {
    PayloadIsCarried(pipe, states, steps, m, n, id, payload);
    RefinesComposition(pipe, states, steps, n, id);
  }

  lemma InHandMeansInFlight(s: State, i: nat, w: nat)
    requires At(s, i, w) && HasItem(s.hands[i][w])
    ensures InFlight(s, Only(s.hands[i][w].item.id)) > 0
  {
    HandChange(s, i, w, Idle, Only(s.hands[i][w].item.id));
  }

  /** A worker never holds an item whose future is already resolved. */
  lemma HeldIsUnresolved(pipe: Pipe, s: State, i: nat, w: nat)
    requires Inv(pipe, s) && At(s, i, w) && HasItem(s.hands[i][w])
    ensures s.hands[i][w].item.id < |s.futures|
    ensures s.futures[s.hands[i][w].item.id].Pending? || s.futures[s.hands[i][w].item.id].Cancelled?
  {
    var id := s.hands[i][w].item.id;
    assert HandCarries(pipe, s, i, s.hands[i][w]);
    InHandMeansInFlight(s, i, w);
    assert Places(s, id) == 1;
  }

  /** No future is resolved twice: once it holds a result or an exception, no later step changes it. */
  lemma {:induction false} ResolvedOnce(pipe: Pipe, states: seq<State>, steps: seq<Step>, m: nat, n: nat, id: nat)
    requires Configured(pipe) && IsRun(pipe, states, steps) && m <= n < |states| && id < |states[m].futures|
    requires states[m].futures[id].Done? || states[m].futures[id].Failed?
    ensures id < |states[n].futures| && states[n].futures[id] == states[m].futures[id]
    decreases n
  {
    if m < n {
      ResolvedOnce(pipe, states, steps, m, n - 1, id);
      ResolvedNext(pipe, states, steps, n - 1, id);
    }
  }

  lemma ResolvedNext(pipe: Pipe, states: seq<State>, steps: seq<Step>, n: nat, id: nat)
    requires Configured(pipe) && IsRun(pipe, states, steps) && n < |steps| && id < |states[n].futures|
    requires states[n].futures[id].Done? || states[n].futures[id].Failed?
    ensures id < |states[n + 1].futures| && states[n + 1].futures[id] == states[n].futures[id]
  {
    RunInv(pipe, states, steps, n);
    assert StepAt(pipe, states, steps, n);
    ResolvedStays(pipe, states[n], steps[n], id);
  }

  lemma ResolvedStays(pipe: Pipe, s: State, step: Step, id: nat)
    requires Inv(pipe, s) && Enabled(pipe, s, step) && id < |s.futures|
    requires s.futures[id].Done? || s.futures[id].Failed?
    ensures id < |Apply(pipe, s, step).futures| && Apply(pipe, s, step).futures[id] == s.futures[id]
  {
    if step.Compute? {
      HeldIsUnresolved(pipe, s, step.stage, step.w);
      ComputeEffect(pipe, s, step.stage, step.w);
    } else if step.Check? {
      CheckEffect(pipe, s, step.stage, step.w);
    }
  }

  /** Queues stay within max_in_flight, and the extra queue past the last stage is never used. */
  lemma QueuesBounded(pipe: Pipe, states: seq<State>, steps: seq<Step>, n: nat, i: nat)
    requires Configured(pipe) && IsRun(pipe, states, steps) && n < |states| && i <= |pipe.stages|
    ensures |states[n].queues| == |pipe.stages| + 1 && |states[n].queues[i]| <= pipe.capacity
    ensures i == |pipe.stages| ==> states[n].queues[i] == []
  {
    RunInv(pipe, states, steps, n);
  }

  /** Conservation: the reported in-flight number is the requests waiting, inside the stages, lost, or counted and
      then refused. */
  lemma InFlightIsExact(pipe: Pipe, states: seq<State>, steps: seq<Step>, n: nat)
    requires Configured(pipe) && IsRun(pipe, states, steps) && n < |states|
    ensures |states[n].queues| == |states[n].hands| + 1
    ensures states[n].submitted - states[n].processed ==
            |states[n].waiting| + InFlight(states[n], Any) + |states[n].lost| + states[n].refused
  {
    RunInv(pipe, states, steps, n);
  }

  // ----- No deadlock under backpressure -----

  /** The steps that move requests forward; clients and close are the environment. */
  predicate IsInternal(step: Step) {
    step.Enqueue? || step.Get? || step.Check? || step.Compute? || step.Put?
  }

  ghost predicate CanMove(pipe: Pipe, s: State) {
    exists step :: IsInternal(step) && Enabled(pipe, s, step)
  }

  predicate Alive(x: Worker) {
    !x.Dead? && !x.Exited?
  }

  /** No worker has been killed or has left. */
  predicate Intact(s: State) {
    forall i, w :: 0 <= i < |s.hands| && 0 <= w < |s.hands[i]| ==> Alive(s.hands[i][w])
  }

  predicate Occupied(s: State, i: nat)
    requires i < |s.hands| && i < |s.queues|
  {
    s.queues[i] != [] || exists w :: 0 <= w < |s.hands[i]| && HasItem(s.hands[i][w])
  }

  /** Backpressure resolves from the last stage upwards. */
  lemma {:induction false} StageCanMove(pipe: Pipe, s: State, i: nat)
    requires Configured(pipe) && Inv(pipe, s) && Intact(s) && !s.closed && i < |pipe.stages| && Occupied(s, i)
    ensures CanMove(pipe, s)
    decreases |pipe.stages| - i
  {
    if w :| 0 <= w < |s.hands[i]| && HasItem(s.hands[i][w]) {
      assert HandCarries(pipe, s, i, s.hands[i][w]);
      var x := s.hands[i][w];
      if x.Holding? {
        assert Enabled(pipe, s, Check(i, w)) && IsInternal(Check(i, w));
      } else if x.Working? {
        assert Enabled(pipe, s, Compute(i, w)) && IsInternal(Compute(i, w));
      } else if |s.queues[i + 1]| < pipe.capacity {
        assert Enabled(pipe, s, Put(i, w)) && IsInternal(Put(i, w));
      } else {
        StageCanMove(pipe, s, i + 1);
      }
    } else {
      assert Alive(s.hands[i][0]);
      assert Enabled(pipe, s, Get(i, 0)) && IsInternal(Get(i, 0));
    }
  }

  lemma {:induction false} NoHandCount(ws: seq<Worker>, p: Test)
    requires HandCount(ws, p) > 0
    ensures exists w :: 0 <= w < |ws| && HasItem(ws[w])
  {
    if HasItem(ws[0]) {
    } else {
      NoHandCount(ws[1..], p);
      var w :| 0 <= w < |ws[1..]| && HasItem(ws[1..][w]);
      assert HasItem(ws[w + 1]);
    }
  }

  lemma {:induction false} FlightIsSomewhere(queues: seq<seq<Item>>, hands: seq<seq<Worker>>, i: nat, p: Test)
    returns (j: nat)
    requires |queues| == |hands| + 1 && Flight(queues, hands, i, p) > 0
    ensures j < |hands| && (queues[j] != [] || exists w :: 0 <= w < |hands[j]| && HasItem(hands[j][w]))
    decreases |hands| - i
  {
    if queues[i] != [] {
      j := i;
    } else if HandCount(hands[i], p) > 0 {
      NoHandCount(hands[i], p);
      j := i;
    } else {
      j := FlightIsSomewhere(queues, hands, i + 1, p);
    }
  }

  /** Before close, a pipeline with all its workers and any request in it can always move a request forward. */
  lemma NoDeadlock(pipe: Pipe, s: State)
    requires Configured(pipe) && Inv(pipe, s) && Intact(s) && !s.closed
    requires s.waiting != {} || InFlight(s, Any) > 0
    ensures CanMove(pipe, s)
  {
    if InFlight(s, Any) > 0 {
      var j := FlightIsSomewhere(s.queues, s.hands, 0, Any);
      StageCanMove(pipe, s, j);
    } else {
      var id :| id in s.waiting;
      assert Enabled(pipe, s, Enqueue(id)) && IsInternal(Enqueue(id));
    }
  }

  /** After close every live worker ends: it has a step of its own that waits for nobody, finishing the item it works
      on or leaving. */
  lemma ClosedWorkersEnd(pipe: Pipe, s: State, i: nat, w: nat)
    requires Inv(pipe, s) && s.closed && At(s, i, w) && Alive(s.hands[i][w])
    ensures match s.hands[i][w]
            case Holding(_) => Enabled(pipe, s, Check(i, w))
            case Working(_) => Enabled(pipe, s, Compute(i, w))
            case Idle =>
              Enabled(pipe, s, Leave(i, w)) &&
              Apply(pipe, s, Leave(i, w)) == s.(hands := s.hands[i := s.hands[i][w := Exited]])
            case Delivering(item) =>
              Enabled(pipe, s, Leave(i, w)) &&
              Apply(pipe, s, Leave(i, w)) ==
              s.(hands := s.hands[i := s.hands[i][w := Exited]], lost := s.lost + multiset{item.id})
  {
    if HasItem(s.hands[i][w]) {
      HeldIsUnresolved(pipe, s, i, w);
    }
  }

  /** Two workers never hold the same request. */
  lemma OneHolder(pipe: Pipe, s: State, i: nat, w: nat, j: nat, v: nat)
    requires Inv(pipe, s) && At(s, i, w) && At(s, j, v) && (i, w) != (j, v)
    requires HasItem(s.hands[i][w]) && HasItem(s.hands[j][v])
    ensures s.hands[i][w].item.id != s.hands[j][v].item.id
  {
    var id := s.hands[i][w].item.id;
    var s' := SetHand(s, i, w, Idle);
    HandChange(s, i, w, Idle, Only(id));
    assert s'.hands[j][v] == s.hands[j][v];
    InHandMeansInFlight(s', j, v);
    assert Places(s, id) <= 1;
  }

  // ----- Every admitted request resolves, in a bounded number of steps -----

  /** Steps left for what worker x of a stage does: `base` is the cost of an item queued before that stage. */
  function OneLoad(x: Worker, base: int): int {
    match x
    case Holding(_) => base - 1
    case Working(_) => base - 2
    case Delivering(_) => base - 3
    case _ => 0
  }

  function HandLoad(ws: seq<Worker>, base: int): int {
    if ws == [] then 0 else OneLoad(ws[0], base) + HandLoad(ws[1..], base)
  }

  function QueueLoad(q: seq<Item>, base: int): int {
    if q == [] then 0 else base + QueueLoad(q[1..], base)
  }

  function Base(hands: seq<seq<Worker>>, i: nat): int {
    4 * (|hands| - i)
  }

  /** The steps left inside the stages from i on: four per stage an item still has to pass. */
  function Load(queues: seq<seq<Item>>, hands: seq<seq<Worker>>, i: nat): int
    requires |queues| == |hands| + 1
    decreases |hands| - i
  {
    if i >= |hands| then 0
    else Load(queues, hands, i + 1) + QueueLoad(queues[i], Base(hands, i)) + HandLoad(hands[i], Base(hands, i))
  }

  /** All steps left: one more for each client still blocked on the first queue. */
  function Measure(s: State): int
    requires |s.queues| == |s.hands| + 1
  {
    WaitingLoad(|s.waiting|, 4 * |s.hands| + 1) + Load(s.queues, s.hands, 0)
  }

  function WaitingLoad(n: nat, each: int): int {
    if n == 0 then 0 else each + WaitingLoad(n - 1, each)
  }

  lemma {:induction false} HandLoadUpdate(ws: seq<Worker>, w: nat, x: Worker, base: int)
    requires w < |ws|
    ensures HandLoad(ws[w := x], base) == HandLoad(ws, base) - OneLoad(ws[w], base) + OneLoad(x, base)
  {
    if w == 0 {
      assert ws[w := x][1..] == ws[1..];
    } else {
      HandLoadUpdate(ws[1..], w - 1, x, base);
      assert ws[w := x][1..] == ws[1..][w - 1 := x];
    }
  }

  lemma {:induction false} QueueLoadAppend(q: seq<Item>, x: Item, base: int)
    ensures QueueLoad(q + [x], base) == QueueLoad(q, base) + base
  {
    if q == [] {
      assert q + [x] == [x];
    } else {
      QueueLoadAppend(q[1..], x, base);
      assert (q + [x])[1..] == q[1..] + [x];
    }
  }

  lemma {:induction false} LoadFrame(queues: seq<seq<Item>>, hands: seq<seq<Worker>>, j: nat,
                                     q: seq<Item>, ws: seq<Worker>, i: nat)
    requires |queues| == |hands| + 1 && j < |hands| && j < i
    ensures Load(queues[j := q], hands[j := ws], i) == Load(queues, hands, i)
    decreases |hands| - i
  {
    if i < |hands| {
      LoadFrame(queues, hands, j, q, ws, i + 1);
    }
  }

  lemma {:induction false} LoadChange(queues: seq<seq<Item>>, hands: seq<seq<Worker>>, j: nat,
                                      q: seq<Item>, ws: seq<Worker>, i: nat)
    requires |queues| == |hands| + 1 && i <= j < |hands|
    ensures var b := Base(hands, j);
      Load(queues[j := q], hands[j := ws], i) + QueueLoad(queues[j], b) + HandLoad(hands[j], b) ==
      Load(queues, hands, i) + QueueLoad(q, b) + HandLoad(ws, b)
    decreases j - i
  {
    if i == j {
      LoadFrame(queues, hands, j, q, ws, i + 1);
    } else {
      LoadChange(queues, hands, j, q, ws, i + 1);
    }
  }

  lemma HandLoadChange(s: State, i: nat, w: nat, y: Worker)
    requires At(s, i, w)
    ensures var b := Base(s.hands, i);
      Measure(SetHand(s, i, w, y)) == Measure(s) - OneLoad(s.hands[i][w], b) + OneLoad(y, b)
  {
    LoadChange(s.queues, s.hands, i, s.queues[i], s.hands[i][w := y], 0);
    assert s.queues[i := s.queues[i]] == s.queues;
    HandLoadUpdate(s.hands[i], w, y, Base(s.hands, i));
  }

  lemma QueueLoadChange(s: State, i: nat, q: seq<Item>)
    requires |s.queues| == |s.hands| + 1 && i < |s.hands|
    ensures var b := Base(s.hands, i);
      Measure(s.(queues := s.queues[i := q])) == Measure(s) - QueueLoad(s.queues[i], b) + QueueLoad(q, b)
  {
    LoadChange(s.queues, s.hands, i, q, s.hands[i], 0);
    assert s.hands[i := s.hands[i]] == s.hands;
  }

  lemma MeasureGet(pipe: Pipe, s: State, i: nat, w: nat)
    requires Enabled(pipe, s, Get(i, w))
    ensures Measure(Apply(pipe, s, Get(i, w))) == Measure(s) - 1
  {
    var q := s.queues[i];
    HandLoadChange(s, i, w, Holding(q[0]));
    QueueLoadChange(SetHand(s, i, w, Holding(q[0])), i, q[1..]);
  }

  lemma MeasurePut(pipe: Pipe, s: State, i: nat, w: nat)
    requires Enabled(pipe, s, Put(i, w))
    ensures Measure(Apply(pipe, s, Put(i, w))) == Measure(s) - 1
  {
    var item := s.hands[i][w].item;
    HandLoadChange(s, i, w, Idle);
    QueueLoadChange(SetHand(s, i, w, Idle), i + 1, s.queues[i + 1] + [item]);
    QueueLoadAppend(s.queues[i + 1], item, Base(s.hands, i + 1));
  }

  lemma MeasureEnqueue(pipe: Pipe, s: State, id: nat)
    requires |s.queues| == |s.hands| + 1 && |s.hands| > 0 && Enabled(pipe, s, Enqueue(id))
    ensures Measure(Apply(pipe, s, Enqueue(id))) == Measure(s) - 1
  {
    var item := Item(id, |s.arrived|, s.originals[id]);
    QueueLoadChange(s, 0, s.queues[0] + [item]);
    QueueLoadAppend(s.queues[0], item, Base(s.hands, 0));
  }

  lemma MeasureTouch(s: State, i: nat, w: nat, y: Worker, s': State)
    requires At(s, i, w)
    requires s'.queues == s.queues && s'.hands == s.hands[i := s.hands[i][w := y]] && s'.waiting == s.waiting
    ensures var b := Base(s.hands, i);
      Measure(s') == Measure(s) - OneLoad(s.hands[i][w], b) + OneLoad(y, b)
  {
    HandLoadChange(s, i, w, y);
  }

  lemma MeasureCheck(pipe: Pipe, s: State, i: nat, w: nat)
    requires Enabled(pipe, s, Check(i, w))
    ensures Measure(ApplyCheck(s, i, w)) < Measure(s)
  {
    var item := s.hands[i][w].item;
    CheckEffect(pipe, s, i, w);
    MeasureTouch(s, i, w, CheckedHand(item, s.futures[item.id].Cancelled?), ApplyCheck(s, i, w));
  }

  lemma MeasureCompute(pipe: Pipe, s: State, i: nat, w: nat)
    requires Enabled(pipe, s, Compute(i, w))
    ensures Measure(ApplyCompute(pipe, s, i, w)) < Measure(s)
  {
    var item := s.hands[i][w].item;
    ComputeEffect(pipe, s, i, w);
    MeasureTouch(s, i, w, ComputedHand(pipe, i, item, s.futures[item.id].Cancelled?), ApplyCompute(pipe, s, i, w));
  }

  lemma MeasureLeave(pipe: Pipe, s: State, i: nat, w: nat)
    requires Enabled(pipe, s, Leave(i, w))
    ensures Measure(Apply(pipe, s, Leave(i, w))) <= Measure(s)
  {
    MeasureTouch(s, i, w, Exited, Apply(pipe, s, Leave(i, w)));
  }

  lemma MeasureSubmit(pipe: Pipe, s: State, payload: Payload)
    requires InvShape(pipe, s) && Enabled(pipe, s, Submit(payload))
    ensures Measure(Apply(pipe, s, Submit(payload))) == Measure(s) + 4 * |pipe.stages| + 1
  {
    assert |s.futures| !in s.waiting;
    assert |s.waiting + {|s.futures|}| == |s.waiting| + 1;
  }

  lemma MeasureInternal(pipe: Pipe, s: State, step: Step)
    requires InvShape(pipe, s) && Enabled(pipe, s, step) && IsInternal(step)
    ensures |Apply(pipe, s, step).queues| == |Apply(pipe, s, step).hands| + 1
    ensures Measure(Apply(pipe, s, step)) < Measure(s)
  {
    ShapeStep(pipe, s, step);
    match step
    case Enqueue(id) => MeasureEnqueue(pipe, s, id);
    case Get(i, w) => MeasureGet(pipe, s, i, w);
    case Put(i, w) => MeasurePut(pipe, s, i, w);
    case Check(i, w) => MeasureCheck(pipe, s, i, w);
    case Compute(i, w) => MeasureCompute(pipe, s, i, w);
  }

  lemma MeasureOutside(pipe: Pipe, s: State, step: Step)
    requires InvShape(pipe, s) && Enabled(pipe, s, step) && !IsInternal(step) && !step.Submit?
    ensures |Apply(pipe, s, step).queues| == |Apply(pipe, s, step).hands| + 1
    ensures Measure(Apply(pipe, s, step)) <= Measure(s)
  {
    ShapeStep(pipe, s, step);
    if step.Leave? {
      MeasureLeave(pipe, s, step.stage, step.w);
    }
  }

  lemma {:induction false} LoadNonNegative(queues: seq<seq<Item>>, hands: seq<seq<Worker>>, i: nat)
    requires |queues| == |hands| + 1
    ensures Load(queues, hands, i) >= 0
    decreases |hands| - i
  {
    if i < |hands| {
      LoadNonNegative(queues, hands, i + 1);
      QueueLoadNonNegative(queues[i], Base(hands, i));
      HandLoadNonNegative(hands[i], Base(hands, i));
    }
  }

  lemma {:induction false} QueueLoadNonNegative(q: seq<Item>, base: int)
    requires base >= 0
    ensures QueueLoad(q, base) >= 0
  {
    if q != [] {
      QueueLoadNonNegative(q[1..], base);
    }
  }

  lemma {:induction false} HandLoadNonNegative(ws: seq<Worker>, base: int)
    requires base >= 4
    ensures HandLoad(ws, base) >= 0
  {
    if ws != [] {
      HandLoadNonNegative(ws[1..], base);
    }
  }

  lemma {:induction false} WaitingLoadIsProduct(n: nat, each: int)
    ensures WaitingLoad(n, each) == n * each
  {
    if n > 0 {
      WaitingLoadIsProduct(n - 1, each);
    }
  }

  lemma MeasureNonNegative(s: State)
    requires |s.queues| == |s.hands| + 1
    ensures Measure(s) >= 0
  {
    LoadNonNegative(s.queues, s.hands, 0);
    WaitingLoadNonNegative(|s.waiting|, 4 * |s.hands| + 1);
  }

  lemma {:induction false} WaitingLoadNonNegative(n: nat, each: nat)
    ensures WaitingLoad(n, each) >= 0
  {
    if n > 0 {
      WaitingLoadNonNegative(n - 1, each);
    }
  }

  function InternalSteps(steps: seq<Step>): nat {
    if steps == [] then 0
    else InternalSteps(steps[..|steps| - 1]) + if IsInternal(steps[|steps| - 1]) then 1 else 0
  }

  lemma RunPrefix(pipe: Pipe, states: seq<State>, steps: seq<Step>)
    requires IsRun(pipe, states, steps) && steps != []
    ensures IsRun(pipe, states[..|steps|], steps[..|steps| - 1])
  {
    var n := |steps| - 1;
    forall i | 0 <= i < n
      ensures StepAt(pipe, states[..|steps|], steps[..n], i)
    {
      assert StepAt(pipe, states, steps, i);
    }
  }

  lemma SubmittedStep(pipe: Pipe, s: State, step: Step)
    requires Enabled(pipe, s, step)
    ensures Apply(pipe, s, step).submitted == s.submitted + if step.Submit? || step.Refuse? then 1 else 0
  {
    if step.Compute? {
      assert ApplyCompute(pipe, s, step.stage, step.w).submitted == s.submitted;
    }
  }

  /** What the submissions so far pay for. */
  function Budget(pipe: Pipe, s: State): int {
    WaitingLoad(s.submitted, 4 * |pipe.stages| + 1)
  }

  lemma PaidStep(pipe: Pipe, s: State, step: Step)
    requires InvShape(pipe, s) && Enabled(pipe, s, step)
    ensures |Apply(pipe, s, step).queues| == |Apply(pipe, s, step).hands| + 1
    ensures Measure(Apply(pipe, s, step)) + (if IsInternal(step) then 1 else 0) + Budget(pipe, s) <=
            Measure(s) + Budget(pipe, Apply(pipe, s, step))
  {
    SubmittedStep(pipe, s, step);
    if step.Submit? {
      MeasureSubmit(pipe, s, step.payload);
    } else if IsInternal(step) {
      MeasureInternal(pipe, s, step);
    } else {
      MeasureOutside(pipe, s, step);
    }
  }

  lemma RunShape(pipe: Pipe, states: seq<State>, steps: seq<Step>, n: nat)
    requires Configured(pipe) && IsRun(pipe, states, steps) && n < |states|
    ensures InvShape(pipe, states[n])
  {
    RunInv(pipe, states, steps, n);
  }

  lemma {:induction false} StepsArePaidFor(pipe: Pipe, states: seq<State>, steps: seq<Step>)
    requires Configured(pipe) && IsRun(pipe, states, steps)
    ensures |states[|steps|].queues| == |states[|steps|].hands| + 1
    ensures InternalSteps(steps) + Measure(states[|steps|]) <= Budget(pipe, states[|steps|])
    decreases |steps|
  {
    if steps == [] {
      IdleLoad(pipe, 0);
    } else {
      var n := |steps| - 1;
      RunPrefix(pipe, states, steps);
      StepsArePaidFor(pipe, states[..n + 1], steps[..n]);
      RunShape(pipe, states, steps, n);
      assert StepAt(pipe, states, steps, n);
      PaidStep(pipe, states[n], steps[n]);
    }
  }

  lemma {:induction false} IdleHandLoad(n: nat, base: int)
    ensures HandLoad(seq(n, _ => Idle), base) == 0
  {
    if n > 0 {
      IdleHandLoad(n - 1, base);
      assert seq(n, _ => Idle)[1..] == seq(n - 1, _ => Idle);
    }
  }

  lemma {:induction false} IdleLoad(pipe: Pipe, i: nat)
    ensures Load(Init(pipe).queues, Init(pipe).hands, i) == 0
    decreases |pipe.stages| - i
  {
    if i < |pipe.stages| {
      IdleLoad(pipe, i + 1);
      IdleHandLoad(pipe.workers, Base(Init(pipe).hands, i));
    }
  }

  /** Bounded work: k submissions to S stages cost at most k * (4S + 1) internal steps in any run. */
  lemma RunsAreBounded(pipe: Pipe, states: seq<State>, steps: seq<Step>)
    requires Configured(pipe) && IsRun(pipe, states, steps)
    ensures InternalSteps(steps) <= states[|steps|].submitted * (4 * |pipe.stages| + 1)
  {
    StepsArePaidFor(pipe, states, steps);
    MeasureNonNegative(states[|steps|]);
    BudgetIsProduct(pipe, states[|steps|]);
  }

  lemma BudgetIsProduct(pipe: Pipe, s: State)
    ensures Budget(pipe, s) == s.submitted * (4 * |pipe.stages| + 1)
  {
    WaitingLoadIsProduct(s.submitted, 4 * |pipe.stages| + 1);
  }

  /** Only dead and departed workers lose requests. */
  lemma {:induction false} IntactMeansNothingLost(pipe: Pipe, states: seq<State>, steps: seq<Step>, n: nat)
    requires IsRun(pipe, states, steps) && n < |states| && Intact(states[n])
    ensures states[n].lost == multiset{}
  {
    if n > 0 {
      assert StepAt(pipe, states, steps, n - 1);
      IntactBefore(pipe, states[n - 1], steps[n - 1]);
      IntactMeansNothingLost(pipe, states, steps, n - 1);
    }
  }

  lemma IntactBefore(pipe: Pipe, s: State, step: Step)
    requires Enabled(pipe, s, step) && Intact(Apply(pipe, s, step))
    ensures Intact(s) && Apply(pipe, s, step).lost == s.lost
  {
    var s' := Apply(pipe, s, step);
    forall i, w | 0 <= i < |s.hands| && 0 <= w < |s.hands[i]| ensures Alive(s.hands[i][w]) {
      if !Alive(s.hands[i][w]) {
        DeadStaysDead(pipe, s, step, i, w);
        assert false;
      }
    }
    LosingKills(pipe, s, step);
  }

  predicate IsWorkerStep(step: Step) {
    step.Get? || step.Check? || step.Compute? || step.Put? || step.Leave?
  }

  /** A step touches at most one worker, and that one is alive. */
  lemma TouchesOne(pipe: Pipe, s: State, step: Step)
    requires Enabled(pipe, s, step)
    ensures !IsWorkerStep(step) ==> Apply(pipe, s, step).hands == s.hands
    ensures IsWorkerStep(step) ==>
              HasWorker(pipe, s, step.stage, step.w) && Alive(s.hands[step.stage][step.w]) &&
              OnlyAt(s.hands, Apply(pipe, s, step).hands, step.stage, step.w)
  {
    match step
    case Check(i, w) => CheckEffect(pipe, s, i, w);
    case Compute(i, w) => ComputeEffect(pipe, s, i, w);
    case Get(i, w) => TouchesMover(pipe, s, step);
    case Put(i, w) => TouchesMover(pipe, s, step);
    case Leave(i, w) => TouchesMover(pipe, s, step);
    case _ =>
  }

  lemma TouchesMover(pipe: Pipe, s: State, step: Step)
    requires Enabled(pipe, s, step) && (step.Get? || step.Put? || step.Leave?)
    ensures OnlyAt(s.hands, Apply(pipe, s, step).hands, step.stage, step.w)
  {
  }

  /** The two worker tables differ at most in worker w of stage i. */
  predicate OnlyAt(hands: seq<seq<Worker>>, hands': seq<seq<Worker>>, i: nat, w: nat) {
    && |hands'| == |hands| && i < |hands| && |hands'[i]| == |hands[i]| && w < |hands[i]|
    && hands' == hands[i := hands[i][w := hands'[i][w]]]
  }

  lemma DeadStaysDead(pipe: Pipe, s: State, step: Step, i: nat, w: nat)
    requires Enabled(pipe, s, step) && i < |s.hands| && w < |s.hands[i]| && !Alive(s.hands[i][w])
    ensures i < |Apply(pipe, s, step).hands| && w < |Apply(pipe, s, step).hands[i]|
    ensures Apply(pipe, s, step).hands[i][w] == s.hands[i][w]
  {
    TouchesOne(pipe, s, step);
    assert IsWorkerStep(step) ==> (i, w) != (step.stage, step.w);
  }

  lemma LosingKills(pipe: Pipe, s: State, step: Step)
    requires Enabled(pipe, s, step)
    ensures Apply(pipe, s, step).lost != s.lost ==> !Intact(Apply(pipe, s, step))
  {
    var s' := Apply(pipe, s, step);
    if step.Compute? {
      ComputeEffect(pipe, s, step.stage, step.w);
    }
    if s'.lost != s.lost {
      assert !Alive(s'.hands[step.stage][step.w]);
    }
  }

  lemma {:induction false} OnlyWithinAny(queues: seq<seq<Item>>, hands: seq<seq<Worker>>, i: nat, id: nat)
    requires |queues| == |hands| + 1
    ensures Flight(queues, hands, i, Only(id)) <= Flight(queues, hands, i, Any)
    decreases |hands| - i
  {
    if i < |hands| {
      OnlyWithinAny(queues, hands, i + 1, id);
      QueueOnlyWithinAny(queues[i], id);
      HandOnlyWithinAny(hands[i], id);
    }
  }

  lemma {:induction false} QueueOnlyWithinAny(q: seq<Item>, id: nat)
    ensures QueueCount(q, Only(id)) <= QueueCount(q, Any)
  {
    if q != [] {
      QueueOnlyWithinAny(q[1..], id);
    }
  }

  lemma {:induction false} HandOnlyWithinAny(ws: seq<Worker>, id: nat)
    ensures HandCount(ws, Only(id)) <= HandCount(ws, Any)
  {
    if ws != [] {
      HandOnlyWithinAny(ws[1..], id);
    }
  }
}
