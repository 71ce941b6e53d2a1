/** What every step of the micro-pipeline keeps: values, conservation, bounds. */
module MicroPipelineInvariants {
  import opened MicroPipeline

  // ----- Composition -----

  lemma {:induction false} ComposeSnoc(stages: seq<Stage>, f: Stage, v: Payload)
    ensures Compose(stages + [f], v) ==
            match Compose(stages, v) { case Value(u) => f(u) case Raised(e) => Raised(e) }
  {
    if stages == [] {
      assert (stages + [f])[0] == f;
      assert (stages + [f])[1..] == [];
    } else {
      assert (stages + [f])[1..] == stages[1..] + [f];
      assert (stages + [f])[0] == stages[0];
      match stages[0](v)
      case Value(u) => ComposeSnoc(stages[1..], f, u);
      case Raised(e) =>
    }
  }

  /** An exception raised by a prefix of the stages is the exception of the whole pipeline. */
  lemma {:induction false} PrefixRaises(stages: seq<Stage>, i: nat, v: Payload)
    requires i <= |stages| && Compose(stages[..i], v).Raised?
    ensures Compose(stages, v) == Compose(stages[..i], v)
    decreases |stages| - i
  {
    if i < |stages| {
      assert stages[..i + 1] == stages[..i] + [stages[i]];
      ComposeSnoc(stages[..i], stages[i], v);
      PrefixRaises(stages, i + 1, v);
    } else {
      assert stages[..i] == stages;
    }
  }

  // ----- Counting the items in flight -----

  lemma {:induction false} HandCountUpdate(ws: seq<Worker>, w: nat, x: Worker, p: Test)
    requires w < |ws|
    ensures HandCount(ws[w := x], p) + OneCount(ws[w], p) == HandCount(ws, p) + OneCount(x, p)
  {
    if w == 0 {
      assert ws[w := x][1..] == ws[1..];
    } else {
      HandCountUpdate(ws[1..], w - 1, x, p);
      assert ws[w := x][1..] == ws[1..][w - 1 := x];
    }
  }

  lemma {:induction false} QueueCountAppend(q: seq<Item>, x: Item, p: Test)
    ensures QueueCount(q + [x], p) == QueueCount(q, p) + Hit(p, x.id)
  {
    if q == [] {
      assert q + [x] == [x];
    } else {
      QueueCountAppend(q[1..], x, p);
      assert (q + [x])[1..] == q[1..] + [x];
    }
  }

  lemma {:induction false} FlightFrame(queues: seq<seq<Item>>, hands: seq<seq<Worker>>, j: nat,
                                       q: seq<Item>, ws: seq<Worker>, i: nat, p: Test)
    requires |queues| == |hands| + 1 && j < |hands| && j < i
    ensures Flight(queues[j := q], hands[j := ws], i, p) == Flight(queues, hands, i, p)
    decreases |hands| - i
  {
    if i < |hands| {
      FlightFrame(queues, hands, j, q, ws, i + 1, p);
    }
  }

  /** Changing one stage changes the count by what that stage holds. */
  lemma {:induction false} FlightChange(queues: seq<seq<Item>>, hands: seq<seq<Worker>>, j: nat,
                                        q: seq<Item>, ws: seq<Worker>, i: nat, p: Test)
    requires |queues| == |hands| + 1 && i <= j < |hands|
    ensures Flight(queues[j := q], hands[j := ws], i, p) + QueueCount(queues[j], p) + HandCount(hands[j], p) ==
            Flight(queues, hands, i, p) + QueueCount(q, p) + HandCount(ws, p)
    decreases j - i
  {
    if i == j {
      FlightFrame(queues, hands, j, q, ws, i + 1, p);
    } else {
      FlightChange(queues, hands, j, q, ws, i + 1, p);
    }
  }

  function InFlight(s: State, p: Test): nat
    requires |s.queues| == |s.hands| + 1
  {
    Flight(s.queues, s.hands, 0, p)
  }

  predicate At(s: State, i: nat, w: nat) {
    |s.queues| == |s.hands| + 1 && i < |s.hands| && w < |s.hands[i]|
  }

  lemma HandChange(s: State, i: nat, w: nat, y: Worker, p: Test)
    requires At(s, i, w)
    ensures InFlight(SetHand(s, i, w, y), p) + OneCount(s.hands[i][w], p) == InFlight(s, p) + OneCount(y, p)
  {
    FlightChange(s.queues, s.hands, i, s.queues[i], s.hands[i][w := y], 0, p);
    assert s.queues[i := s.queues[i]] == s.queues;
    HandCountUpdate(s.hands[i], w, y, p);
  }

  lemma QueueChange(s: State, i: nat, q: seq<Item>, p: Test)
    requires |s.queues| == |s.hands| + 1 && i < |s.hands|
    ensures InFlight(s.(queues := s.queues[i := q]), p) + QueueCount(s.queues[i], p) == InFlight(s, p) + QueueCount(q, p)
  {
    FlightChange(s.queues, s.hands, i, q, s.hands[i], 0, p);
    assert s.hands[i := s.hands[i]] == s.hands;
  }

  lemma GetFlight(pipe: Pipe, s: State, i: nat, w: nat, p: Test)
    requires Enabled(pipe, s, Get(i, w))
    ensures InFlight(Apply(pipe, s, Get(i, w)), p) == InFlight(s, p)
  {
    var q := s.queues[i];
    var mid := SetHand(s, i, w, Holding(q[0]));
    HandChange(s, i, w, Holding(q[0]), p);
    QueueChange(mid, i, q[1..], p);
  }

  lemma PutFlight(pipe: Pipe, s: State, i: nat, w: nat, p: Test)
    requires Enabled(pipe, s, Put(i, w))
    ensures InFlight(Apply(pipe, s, Put(i, w)), p) == InFlight(s, p)
  {
    var item := s.hands[i][w].item;
    var mid := SetHand(s, i, w, Idle);
    HandChange(s, i, w, Idle, p);
    QueueChange(mid, i + 1, s.queues[i + 1] + [item], p);
    QueueCountAppend(s.queues[i + 1], item, p);
  }

  lemma EnqueueFlight(pipe: Pipe, s: State, id: nat, p: Test)
    requires |s.queues| == |s.hands| + 1 && |s.hands| > 0 && Enabled(pipe, s, Enqueue(id))
    ensures InFlight(Apply(pipe, s, Enqueue(id)), p) == InFlight(s, p) + Hit(p, id)
  {
    var item := Item(id, |s.arrived|, s.originals[id]);
    QueueChange(s, 0, s.queues[0] + [item], p);
    QueueCountAppend(s.queues[0], item, p);
  }

  // ----- What the steps of a worker change -----

  function CheckedHand(item: Item, cancelled: bool): Worker {
    if cancelled then Idle else Working(item)
  }

  lemma CheckEffect(pipe: Pipe, s: State, i: nat, w: nat)
    requires Enabled(pipe, s, Check(i, w))
    ensures var item, s' := s.hands[i][w].item, ApplyCheck(s, i, w);
      && s'.queues == s.queues && s'.originals == s.originals && s'.futures == s.futures && s'.waiting == s.waiting
      && s'.closed == s.closed
      && s'.hands == s.hands[i := s.hands[i][w := CheckedHand(item, s.futures[item.id].Cancelled?)]]
  {
  }

  function ComputedHand(pipe: Pipe, i: nat, item: Item, cancelled: bool): Worker
    requires i < |pipe.stages|
  {
    if !Sets(pipe, i, item) then Delivering(item.(payload := pipe.stages[i](item.payload).value))
    else if cancelled then Dead else Idle
  }

  lemma ComputeEffect(pipe: Pipe, s: State, i: nat, w: nat)
    requires Enabled(pipe, s, Compute(i, w))
    ensures var item, s' := s.hands[i][w].item, ApplyCompute(pipe, s, i, w);
      var cancelled := s.futures[item.id].Cancelled?;
      && s'.queues == s.queues && s'.originals == s.originals && s'.waiting == s.waiting && s'.closed == s.closed
      && s'.hands == s.hands[i := s.hands[i][w := ComputedHand(pipe, i, item, cancelled)]]
      && s'.futures == (if Sets(pipe, i, item) && !cancelled
                        then s.futures[item.id := Outcome(pipe.stages[i](item.payload))] else s.futures)
      && s'.lost == (if Sets(pipe, i, item) && cancelled then s.lost + multiset{item.id} else s.lost)
  {
  }

  // ----- Shape and bounds -----

  predicate InvShape(pipe: Pipe, s: State) {
    && |pipe.stages| > 0
    && |s.hands| == |pipe.stages| && |s.queues| == |pipe.stages| + 1
    && (forall i :: 0 <= i < |s.hands| ==> |s.hands[i]| == pipe.workers)
    && (forall i :: 0 <= i < |s.queues| ==> |s.queues[i]| <= pipe.capacity)
    && s.queues[|pipe.stages|] == []
    && |s.originals| == |s.futures| && s.submitted == |s.futures| + s.refused
    && (forall id :: id in s.waiting ==> id < |s.futures|)
    && NoneDelivers(s.hands[|pipe.stages| - 1])
  }

  /** The last stage never waits for room downstream. */
  predicate NoneDelivers(ws: seq<Worker>) {
    forall w :: 0 <= w < |ws| ==> !ws[w].Delivering?
  }

  lemma ShapeHand(pipe: Pipe, s: State, i: nat, w: nat, y: Worker)
    requires InvShape(pipe, s) && At(s, i, w) && (y.Delivering? ==> i + 1 < |pipe.stages|)
    ensures InvShape(pipe, SetHand(s, i, w, y))
  {
  }

  lemma ShapeQueue(pipe: Pipe, s: State, i: nat, q: seq<Item>)
    requires InvShape(pipe, s) && i < |s.hands| && |q| <= pipe.capacity
    ensures InvShape(pipe, s.(queues := s.queues[i := q]))
  {
  }

  lemma ShapeResolve(pipe: Pipe, s: State, i: nat, w: nat, item: Item, outcome: Future)
    requires InvShape(pipe, s) && At(s, i, w) && item.id < |s.futures|
    ensures InvShape(pipe, Resolve(s, i, w, item, outcome))
  {
    ShapeHand(pipe, s, i, w, Idle);
    ShapeHand(pipe, s, i, w, Dead);
  }

  lemma ShapeCompute(pipe: Pipe, s: State, i: nat, w: nat)
    requires InvShape(pipe, s) && Enabled(pipe, s, Compute(i, w))
    ensures InvShape(pipe, ApplyCompute(pipe, s, i, w))
  {
    var item := s.hands[i][w].item;
    var result := pipe.stages[i](item.payload);
    if Sets(pipe, i, item) {
      ShapeResolve(pipe, s, i, w, item, Outcome(result));
    } else {
      ShapeHand(pipe, s, i, w, Delivering(item.(payload := result.value)));
    }
  }

  lemma ShapeGet(pipe: Pipe, s: State, i: nat, w: nat)
    requires InvShape(pipe, s) && Enabled(pipe, s, Get(i, w))
    ensures InvShape(pipe, Apply(pipe, s, Get(i, w)))
  {
    ShapeHand(pipe, s, i, w, Holding(s.queues[i][0]));
    ShapeQueue(pipe, SetHand(s, i, w, Holding(s.queues[i][0])), i, s.queues[i][1..]);
  }

  lemma ShapeCheck(pipe: Pipe, s: State, i: nat, w: nat)
    requires InvShape(pipe, s) && Enabled(pipe, s, Check(i, w))
    ensures InvShape(pipe, ApplyCheck(s, i, w))
  {
    ShapeHand(pipe, s, i, w, Idle);
    ShapeHand(pipe, s, i, w, Working(s.hands[i][w].item));
  }

  lemma ShapePut(pipe: Pipe, s: State, i: nat, w: nat)
    requires InvShape(pipe, s) && Enabled(pipe, s, Put(i, w))
    ensures InvShape(pipe, Apply(pipe, s, Put(i, w)))
  {
    ShapeHand(pipe, s, i, w, Idle);
    ShapeQueue(pipe, SetHand(s, i, w, Idle), i + 1, s.queues[i + 1] + [s.hands[i][w].item]);
  }

  lemma ShapeLeave(pipe: Pipe, s: State, i: nat, w: nat)
    requires InvShape(pipe, s) && Enabled(pipe, s, Leave(i, w))
    ensures InvShape(pipe, Apply(pipe, s, Leave(i, w)))
  {
    ShapeHand(pipe, s, i, w, Exited);
  }

  lemma ShapeEnqueue(pipe: Pipe, s: State, id: nat)
    requires InvShape(pipe, s) && Enabled(pipe, s, Enqueue(id))
    ensures InvShape(pipe, Apply(pipe, s, Enqueue(id)))
  {
    ShapeQueue(pipe, s, 0, s.queues[0] + [Item(id, |s.arrived|, s.originals[id])]);
  }

  lemma ShapeOutside(pipe: Pipe, s: State, step: Step)
    requires InvShape(pipe, s) && Enabled(pipe, s, step)
    requires step.Submit? || step.Cancel? || step.Close? || step.Clear? || step.Refuse?
    ensures InvShape(pipe, Apply(pipe, s, step))
  {
    var s' := Apply(pipe, s, step);
    assert s'.hands == s.hands && s'.queues == s.queues;
  }

  lemma ShapeStep(pipe: Pipe, s: State, step: Step)
    requires InvShape(pipe, s) && Enabled(pipe, s, step)
    ensures InvShape(pipe, Apply(pipe, s, step))
  {
    match step
    case Enqueue(id) => ShapeEnqueue(pipe, s, id);
    case Get(i, w) => ShapeGet(pipe, s, i, w);
    case Check(i, w) => ShapeCheck(pipe, s, i, w);
    case Compute(i, w) => ShapeCompute(pipe, s, i, w);
    case Put(i, w) => ShapePut(pipe, s, i, w);
    case Leave(i, w) => ShapeLeave(pipe, s, i, w);
    case _ => ShapeOutside(pipe, s, step);
  }

  // ----- Conservation -----

  /** How many places request id occupies: waiting, in flight, accounted for as processed, lost. */
  function Places(s: State, id: nat): nat
    requires |s.queues| == |s.hands| + 1
  {
    (if id in s.waiting then 1 else 0) + InFlight(s, Only(id)) + s.accounted[id] + s.lost[id]
  }

  function Total(s: State): nat
    requires |s.queues| == |s.hands| + 1
  {
    |s.waiting| + InFlight(s, Any) + |s.accounted| + |s.lost|
  }

  /** Every request is in exactly one place, and the counters add up. */
  ghost predicate InvPlaces(s: State) {
    && |s.queues| == |s.hands| + 1
    && s.processed == |s.accounted|
    && (forall id: nat :: Places(s, id) == if id < |s.futures| then 1 else 0)
    && Total(s) == |s.futures| && s.submitted == |s.futures| + s.refused
  }

  ghost predicate SamePlaces(s: State, s': State) {
    && |s.queues| == |s.hands| + 1 && |s'.queues| == |s'.hands| + 1
    && (forall id: nat :: Places(s', id) == Places(s, id))
    && Total(s') == Total(s)
  }

  lemma PlacesKeep(s: State, s': State)
    requires |s.queues| == |s.hands| + 1 && |s'.queues| == |s'.hands| + 1
    requires forall p :: InFlight(s', p) == InFlight(s, p)
    requires s'.waiting == s.waiting && s'.accounted == s.accounted && s'.lost == s.lost
    ensures SamePlaces(s, s')
  {
  }

  /** A worker changes state without letting its item go. */
  lemma PlacesHold(s: State, i: nat, w: nat, y: Worker)
    requires At(s, i, w)
    requires HasItem(s.hands[i][w]) == HasItem(y) && (HasItem(y) ==> y.item.id == s.hands[i][w].item.id)
    ensures SamePlaces(s, SetHand(s, i, w, y))
  {
    forall p ensures InFlight(SetHand(s, i, w, y), p) == InFlight(s, p) {
      HandChange(s, i, w, y, p);
    }
    PlacesKeep(s, SetHand(s, i, w, y));
  }

  lemma PlacesAccount(s: State, i: nat, w: nat, id: nat)
    requires At(s, i, w) && HasItem(s.hands[i][w]) && s.hands[i][w].item.id == id
    ensures SamePlaces(s, Account(s, i, w, id))
  {
    var s' := Account(s, i, w, id);
    forall x: nat ensures Places(s', x) == Places(s, x) {
      HandChange(s, i, w, Idle, Only(x));
    }
    HandChange(s, i, w, Idle, Any);
  }

  lemma PlacesLose(s: State, i: nat, w: nat, id: nat, y: Worker)
    requires At(s, i, w) && HasItem(s.hands[i][w]) && s.hands[i][w].item.id == id && !HasItem(y)
    ensures SamePlaces(s, Lose(s, i, w, id, y))
  {
    var s' := Lose(s, i, w, id, y);
    forall x: nat ensures Places(s', x) == Places(s, x) {
      HandChange(s, i, w, y, Only(x));
    }
    HandChange(s, i, w, y, Any);
  }

  lemma PlacesResolve(s: State, i: nat, w: nat, item: Item, outcome: Future)
    requires At(s, i, w) && item.id < |s.futures| && HasItem(s.hands[i][w]) && s.hands[i][w].item == item
    ensures SamePlaces(s, Resolve(s, i, w, item, outcome))
  {
    if s.futures[item.id].Cancelled? {
      PlacesLose(s, i, w, item.id, Dead);
    } else {
      PlacesAccount(s, i, w, item.id);
      PlacesKeep(Account(s, i, w, item.id), Resolve(s, i, w, item, outcome));
    }
  }

  lemma PlacesCompute(pipe: Pipe, s: State, i: nat, w: nat)
    requires Enabled(pipe, s, Compute(i, w))
    ensures SamePlaces(s, ApplyCompute(pipe, s, i, w))
  {
    var item := s.hands[i][w].item;
    var result := pipe.stages[i](item.payload);
    if Sets(pipe, i, item) {
      PlacesResolve(s, i, w, item, Outcome(result));
    } else {
      PlacesHold(s, i, w, Delivering(item.(payload := result.value)));
    }
  }

  lemma PlacesEnqueue(pipe: Pipe, s: State, id: nat)
    requires InvShape(pipe, s) && Enabled(pipe, s, Enqueue(id))
    ensures SamePlaces(s, Apply(pipe, s, Enqueue(id)))
  {
    var s' := Apply(pipe, s, Enqueue(id));
    forall x: nat ensures Places(s', x) == Places(s, x) {
      EnqueueFlight(pipe, s, id, Only(x));
    }
    EnqueueFlight(pipe, s, id, Any);
  }

  lemma PlacesSubmit(pipe: Pipe, s: State, payload: Payload)
    requires InvShape(pipe, s) && InvPlaces(s) && Enabled(pipe, s, Submit(payload))
    ensures InvPlaces(Apply(pipe, s, Submit(payload)))
  {
    var s' := Apply(pipe, s, Submit(payload));
    forall id: nat ensures Places(s', id) == if id < |s'.futures| then 1 else 0 {
      assert Places(s, id) == if id < |s.futures| then 1 else 0;
    }
  }

  /** Every step but a submission keeps every request in its one place. */
  lemma PlacesMove(pipe: Pipe, s: State, step: Step)
    requires InvShape(pipe, s) && Enabled(pipe, s, step) && !step.Submit?
    ensures SamePlaces(s, Apply(pipe, s, step))
  {
    var s' := Apply(pipe, s, step);
    match step
    case Enqueue(id) => PlacesEnqueue(pipe, s, id);
    case Get(i, w) =>
      forall p ensures InFlight(s', p) == InFlight(s, p) { GetFlight(pipe, s, i, w, p); }
      PlacesKeep(s, s');
    case Check(i, w) =>
      PlacesAccount(s, i, w, s.hands[i][w].item.id);
      PlacesHold(s, i, w, Working(s.hands[i][w].item));
    case Compute(i, w) => PlacesCompute(pipe, s, i, w);
    case Put(i, w) =>
      forall p ensures InFlight(s', p) == InFlight(s, p) { PutFlight(pipe, s, i, w, p); }
      PlacesKeep(s, s');
    case Leave(i, w) =>
      if s.hands[i][w].Idle? {
        PlacesHold(s, i, w, Exited);
      } else {
        PlacesLose(s, i, w, s.hands[i][w].item.id, Exited);
      }
    case _ => PlacesKeep(s, s');
  }

  /** The counters of the plugin against the sequences and bags of the model. */
  predicate CountersOk(s: State) {
    s.processed == |s.accounted| && s.submitted == |s.futures| + s.refused
  }

  lemma CountersCheck(pipe: Pipe, s: State, i: nat, w: nat)
    requires CountersOk(s) && Enabled(pipe, s, Check(i, w))
    ensures CountersOk(ApplyCheck(s, i, w)) && |ApplyCheck(s, i, w).futures| == |s.futures|
  {
  }

  lemma CountersResolve(s: State, i: nat, w: nat, item: Item, outcome: Future)
    requires CountersOk(s) && i < |s.hands| && w < |s.hands[i]| && item.id < |s.futures|
    ensures CountersOk(Resolve(s, i, w, item, outcome)) && |Resolve(s, i, w, item, outcome).futures| == |s.futures|
  {
  }

  lemma CountersCompute(pipe: Pipe, s: State, i: nat, w: nat)
    requires CountersOk(s) && Enabled(pipe, s, Compute(i, w))
    ensures CountersOk(ApplyCompute(pipe, s, i, w)) && |ApplyCompute(pipe, s, i, w).futures| == |s.futures|
  {
    var item := s.hands[i][w].item;
    CountersResolve(s, i, w, item, Outcome(pipe.stages[i](item.payload)));
  }

  lemma CountersOther(pipe: Pipe, s: State, step: Step)
    requires CountersOk(s) && Enabled(pipe, s, step) && !step.Submit? && !step.Check? && !step.Compute?
    ensures CountersOk(Apply(pipe, s, step)) && |Apply(pipe, s, step).futures| == |s.futures|
  {
  }

  lemma CountersStep(pipe: Pipe, s: State, step: Step)
    requires CountersOk(s) && Enabled(pipe, s, step) && !step.Submit?
    ensures CountersOk(Apply(pipe, s, step)) && |Apply(pipe, s, step).futures| == |s.futures|
  {
    match step
    case Check(i, w) => CountersCheck(pipe, s, i, w);
    case Compute(i, w) => CountersCompute(pipe, s, i, w);
    case _ => CountersOther(pipe, s, step);
  }

  lemma PlacesStep(pipe: Pipe, s: State, step: Step)
    requires InvShape(pipe, s) && InvPlaces(s) && Enabled(pipe, s, step)
    ensures InvPlaces(Apply(pipe, s, step))
  {
    if step.Submit? {
      PlacesSubmit(pipe, s, step.payload);
    } else {
      PlacesMove(pipe, s, step);
      CountersStep(pipe, s, step);
    }
  }

  // ----- Values and futures -----

  /** The item entering stage i carries what the first i stages make of its own request. */
  predicate Carries(pipe: Pipe, s: State, i: nat, item: Item) {
    && i <= |pipe.stages| && item.id < |s.originals|
    && Compose(pipe.stages[..i], s.originals[item.id]) == Value(item.payload)
  }

  predicate HandCarries(pipe: Pipe, s: State, i: nat, x: Worker) {
    HasItem(x) ==> Carries(pipe, s, if x.Delivering? then i + 1 else i, x.item)
  }

  predicate InvValues(pipe: Pipe, s: State) {
    && (forall i, k :: 0 <= i < |s.queues| && 0 <= k < |s.queues[i]| ==> Carries(pipe, s, i, s.queues[i][k]))
    && (forall i, w :: 0 <= i < |s.hands| && 0 <= w < |s.hands[i]| ==> HandCarries(pipe, s, i, s.hands[i][w]))
  }

  /** A resolved future holds the outcome of the composition on its own request. */
  predicate Faithful(pipe: Pipe, original: Payload, f: Future) {
    match f
    case Done(v) => Compose(pipe.stages, original) == Value(v)
    case Failed(e) => Compose(pipe.stages, original) == Raised(e)
    case _ => true
  }

  ghost predicate InvFutures(pipe: Pipe, s: State) {
    && |s.originals| == |s.futures|
    && (forall id :: 0 <= id < |s.futures| ==> Faithful(pipe, s.originals[id], s.futures[id]))
    && (forall id :: 0 <= id < |s.futures| && (s.futures[id].Done? || s.futures[id].Failed?) ==> s.accounted[id] > 0)
    && (forall id :: 0 <= id < |s.futures| && s.accounted[id] > 0 ==> !s.futures[id].Pending?)
  }

  lemma ComputedValue(pipe: Pipe, s: State, i: nat, item: Item)
    requires i < |pipe.stages| && Carries(pipe, s, i, item)
    ensures match pipe.stages[i](item.payload)
            case Value(v) => Compose(pipe.stages[..i + 1], s.originals[item.id]) == Value(v)
            case Raised(e) => Compose(pipe.stages, s.originals[item.id]) == Raised(e)
  {
    assert pipe.stages[..i + 1] == pipe.stages[..i] + [pipe.stages[i]];
    ComposeSnoc(pipe.stages[..i], pipe.stages[i], s.originals[item.id]);
    if pipe.stages[i](item.payload).Raised? {
      PrefixRaises(pipe.stages, i + 1, s.originals[item.id]);
    }
  }

  lemma ValuesHand(pipe: Pipe, s: State, i: nat, w: nat, y: Worker)
    requires InvValues(pipe, s) && i < |s.hands| && w < |s.hands[i]| && HandCarries(pipe, s, i, y)
    ensures InvValues(pipe, SetHand(s, i, w, y))
  {
    var s' := SetHand(s, i, w, y);
    forall j, v | 0 <= j < |s'.hands| && 0 <= v < |s'.hands[j]| ensures HandCarries(pipe, s', j, s'.hands[j][v]) {
      assert (j == i && v == w) || s'.hands[j][v] == s.hands[j][v];
      assert HandCarries(pipe, s, j, s'.hands[j][v]);
    }
  }

  lemma ValuesQueue(pipe: Pipe, s: State, i: nat, q: seq<Item>)
    requires InvValues(pipe, s) && i < |s.queues|
    requires forall k :: 0 <= k < |q| ==> Carries(pipe, s, i, q[k])
    ensures InvValues(pipe, s.(queues := s.queues[i := q]))
  {
    var s' := s.(queues := s.queues[i := q]);
    forall j, k | 0 <= j < |s'.queues| && 0 <= k < |s'.queues[j]| ensures Carries(pipe, s', j, s'.queues[j][k]) {
      assert Carries(pipe, s, j, s'.queues[j][k]);
    }
    forall j, v | 0 <= j < |s.hands| && 0 <= v < |s.hands[j]| ensures HandCarries(pipe, s', j, s.hands[j][v]) {
      assert HandCarries(pipe, s, j, s.hands[j][v]);
    }
  }

  /** Values depend only on the items and on what was submitted. */
  lemma ValuesSame(pipe: Pipe, s: State, s': State)
    requires InvValues(pipe, s) && s'.queues == s.queues && s'.hands == s.hands
    requires s.originals <= s'.originals
    ensures InvValues(pipe, s')
  {
    forall j, k | 0 <= j < |s.queues| && 0 <= k < |s.queues[j]| ensures Carries(pipe, s', j, s.queues[j][k]) {
      assert Carries(pipe, s, j, s.queues[j][k]);
    }
    forall j, v | 0 <= j < |s.hands| && 0 <= v < |s.hands[j]| ensures HandCarries(pipe, s', j, s.hands[j][v]) {
      assert HandCarries(pipe, s, j, s.hands[j][v]);
    }
  }

  lemma ComputedCarries(pipe: Pipe, s: State, i: nat, item: Item, cancelled: bool)
    requires i < |pipe.stages| && Carries(pipe, s, i, item)
    ensures HandCarries(pipe, s, i, ComputedHand(pipe, i, item, cancelled))
  {
    ComputedValue(pipe, s, i, item);
  }

  lemma ValuesCompute(pipe: Pipe, s: State, i: nat, w: nat)
    requires InvValues(pipe, s) && Enabled(pipe, s, Compute(i, w))
    ensures InvValues(pipe, ApplyCompute(pipe, s, i, w))
  {
    var item, s' := s.hands[i][w].item, ApplyCompute(pipe, s, i, w);
    var cancelled := s.futures[item.id].Cancelled?;
    assert HandCarries(pipe, s, i, s.hands[i][w]);
    ComputedCarries(pipe, s, i, item, cancelled);
    ComputeEffect(pipe, s, i, w);
    ValuesTouch(pipe, s, i, w, ComputedHand(pipe, i, item, cancelled), s');
  }

  lemma ValuesCheck(pipe: Pipe, s: State, i: nat, w: nat)
    requires InvValues(pipe, s) && Enabled(pipe, s, Check(i, w))
    ensures InvValues(pipe, ApplyCheck(s, i, w))
  {
    var item, s' := s.hands[i][w].item, ApplyCheck(s, i, w);
    assert HandCarries(pipe, s, i, s.hands[i][w]);
    CheckEffect(pipe, s, i, w);
    ValuesTouch(pipe, s, i, w, CheckedHand(item, s.futures[item.id].Cancelled?), s');
  }

  lemma ValuesLeave(pipe: Pipe, s: State, i: nat, w: nat)
    requires InvValues(pipe, s) && Enabled(pipe, s, Leave(i, w))
    ensures InvValues(pipe, Apply(pipe, s, Leave(i, w)))
  {
    ValuesTouch(pipe, s, i, w, Exited, Apply(pipe, s, Leave(i, w)));
  }

  lemma ValuesOutside(pipe: Pipe, s: State, step: Step)
    requires InvValues(pipe, s) && Enabled(pipe, s, step)
    requires step.Submit? || step.Cancel? || step.Close? || step.Clear? || step.Refuse?
    ensures InvValues(pipe, Apply(pipe, s, step))
  {
    ValuesSame(pipe, s, Apply(pipe, s, step));
  }

  lemma ValuesEnqueue(pipe: Pipe, s: State, id: nat)
    requires InvValues(pipe, s) && Enabled(pipe, s, Enqueue(id))
    ensures InvValues(pipe, Apply(pipe, s, Enqueue(id)))
  {
    var s' := Apply(pipe, s, Enqueue(id));
    var item := Item(id, |s.arrived|, s.originals[id]);
    assert pipe.stages[..0] == [];
    assert Carries(pipe, s, 0, item);
    ValuesQueue(pipe, s, 0, s.queues[0] + [item]);
    ValuesSame(pipe, s.(queues := s'.queues), s');
  }

  lemma ValuesGet(pipe: Pipe, s: State, i: nat, w: nat)
    requires InvValues(pipe, s) && Enabled(pipe, s, Get(i, w))
    ensures InvValues(pipe, Apply(pipe, s, Get(i, w)))
  {
    var item := s.queues[i][0];
    assert Carries(pipe, s, i, item);
    var mid := s.(queues := s.queues[i := s.queues[i][1..]]);
    ValuesQueue(pipe, s, i, s.queues[i][1..]);
    ValuesHand(pipe, mid, i, w, Holding(item));
  }

  lemma ValuesPut(pipe: Pipe, s: State, i: nat, w: nat)
    requires InvValues(pipe, s) && Enabled(pipe, s, Put(i, w))
    ensures InvValues(pipe, Apply(pipe, s, Put(i, w)))
  {
    var item := s.hands[i][w].item;
    assert HandCarries(pipe, s, i, s.hands[i][w]);
    var q := s.queues[i + 1] + [item];
    var mid := s.(queues := s.queues[i + 1 := q]);
    ValuesQueue(pipe, s, i + 1, q);
    ValuesHand(pipe, mid, i, w, Idle);
  }

  /** A step that only touches one worker and the bookkeeping. */
  lemma ValuesTouch(pipe: Pipe, s: State, i: nat, w: nat, y: Worker, s': State)
    requires InvValues(pipe, s) && i < |s.hands| && w < |s.hands[i]| && HandCarries(pipe, s, i, y)
    requires s'.queues == s.queues && s'.hands == s.hands[i := s.hands[i][w := y]] && s'.originals == s.originals
    ensures InvValues(pipe, s')
  {
    ValuesHand(pipe, s, i, w, y);
    ValuesSame(pipe, SetHand(s, i, w, y), s');
  }

  lemma ValuesStep(pipe: Pipe, s: State, step: Step)
    requires InvValues(pipe, s) && Enabled(pipe, s, step)
    ensures InvValues(pipe, Apply(pipe, s, step))
  {
    match step
    case Enqueue(id) => ValuesEnqueue(pipe, s, id);
    case Get(i, w) => ValuesGet(pipe, s, i, w);
    case Check(i, w) => ValuesCheck(pipe, s, i, w);
    case Compute(i, w) => ValuesCompute(pipe, s, i, w);
    case Put(i, w) => ValuesPut(pipe, s, i, w);
    case Leave(i, w) => ValuesLeave(pipe, s, i, w);
    case _ => ValuesOutside(pipe, s, step);
  }

  lemma FuturesResolve(pipe: Pipe, s: State, i: nat, w: nat, item: Item, outcome: Future)
    requires InvFutures(pipe, s) && i < |s.hands| && w < |s.hands[i]| && item.id < |s.futures|
    requires Faithful(pipe, s.originals[item.id], outcome) && (outcome.Done? || outcome.Failed?)
    ensures InvFutures(pipe, Resolve(s, i, w, item, outcome))
  {
  }

  lemma FuturesCompute(pipe: Pipe, s: State, i: nat, w: nat)
    requires InvValues(pipe, s) && InvFutures(pipe, s) && Enabled(pipe, s, Compute(i, w))
    ensures InvFutures(pipe, ApplyCompute(pipe, s, i, w))
  {
    var item := s.hands[i][w].item;
    assert HandCarries(pipe, s, i, s.hands[i][w]);
    ComputedValue(pipe, s, i, item);
    assert pipe.stages[..|pipe.stages|] == pipe.stages;
    if Sets(pipe, i, item) {
      FuturesResolve(pipe, s, i, w, item, Outcome(pipe.stages[i](item.payload)));
    }
  }

  lemma FuturesStep(pipe: Pipe, s: State, step: Step)
    requires InvValues(pipe, s) && InvPlaces(s) && InvFutures(pipe, s) && Enabled(pipe, s, step)
    ensures InvFutures(pipe, Apply(pipe, s, step))
  {
    match step
    case Submit(payload) =>
      assert Places(s, |s.futures|) == 0;
      FuturesSubmit(pipe, s, payload);
    case Cancel(id) => FuturesCancel(pipe, s, id);
    case Check(i, w) => FuturesCheck(pipe, s, i, w);
    case Compute(i, w) => FuturesCompute(pipe, s, i, w);
    case _ => FuturesSame(pipe, s, Apply(pipe, s, step));
  }

  lemma FuturesSame(pipe: Pipe, s: State, s': State)
    requires InvFutures(pipe, s)
    requires s'.originals == s.originals && s'.futures == s.futures && s'.accounted == s.accounted
    ensures InvFutures(pipe, s')
  {
  }

  lemma FuturesSubmit(pipe: Pipe, s: State, payload: Payload)
    requires InvFutures(pipe, s) && Enabled(pipe, s, Submit(payload)) && s.accounted[|s.futures|] == 0
    ensures InvFutures(pipe, Apply(pipe, s, Submit(payload)))
  {
    var s' := Apply(pipe, s, Submit(payload));
    assert s'.accounted == s.accounted;
    assert forall id :: 0 <= id < |s.futures| ==> s'.futures[id] == s.futures[id] && s'.originals[id] == s.originals[id];
  }

  lemma FuturesCancel(pipe: Pipe, s: State, id: nat)
    requires InvFutures(pipe, s) && Enabled(pipe, s, Cancel(id))
    ensures InvFutures(pipe, Apply(pipe, s, Cancel(id)))
  {
    var s' := Apply(pipe, s, Cancel(id));
    assert s'.accounted == s.accounted && s'.originals == s.originals;
  }

  lemma FuturesCheck(pipe: Pipe, s: State, i: nat, w: nat)
    requires InvFutures(pipe, s) && Enabled(pipe, s, Check(i, w))
    ensures InvFutures(pipe, ApplyCheck(s, i, w))
  {
  }

  // ----- The invariant -----

  ghost predicate Inv(pipe: Pipe, s: State) {
    InvShape(pipe, s) && InvPlaces(s) && InvValues(pipe, s) && InvFutures(pipe, s)
  }

  lemma {:induction false} EmptyFlight(queues: seq<seq<Item>>, hands: seq<seq<Worker>>, i: nat, p: Test)
    requires |queues| == |hands| + 1
    requires forall j :: 0 <= j < |queues| ==> queues[j] == []
    requires forall j :: 0 <= j < |hands| ==> HandCount(hands[j], p) == 0
    ensures Flight(queues, hands, i, p) == 0
    decreases |hands| - i
  {
    if i < |hands| {
      EmptyFlight(queues, hands, i + 1, p);
    }
  }

  lemma {:induction false} IdleHands(n: nat, p: Test)
    ensures HandCount(seq(n, _ => Idle), p) == 0
  {
    if n > 0 {
      IdleHands(n - 1, p);
      assert seq(n, _ => Idle)[1..] == seq(n - 1, _ => Idle);
    }
  }

  lemma InitInv(pipe: Pipe)
    requires Configured(pipe)
    ensures Inv(pipe, Init(pipe))
  {
    var s := Init(pipe);
    forall p ensures InFlight(s, p) == 0 {
      IdleHands(pipe.workers, p);
      EmptyFlight(s.queues, s.hands, 0, p);
    }
    assert InvPlaces(s);
  }

  lemma InvStep(pipe: Pipe, s: State, step: Step)
    requires Inv(pipe, s) && Enabled(pipe, s, step)
    ensures Inv(pipe, Apply(pipe, s, step))
  {
    ShapeStep(pipe, s, step);
    PlacesStep(pipe, s, step);
    ValuesStep(pipe, s, step);
    FuturesStep(pipe, s, step);
  }

  /** Every state of every run satisfies the invariant. */
  lemma {:induction false} RunInv(pipe: Pipe, states: seq<State>, steps: seq<Step>, n: nat)
    requires Configured(pipe) && IsRun(pipe, states, steps) && n < |states|
    ensures Inv(pipe, states[n])
  {
    if n == 0 {
      InitInv(pipe);
    } else {
      RunInv(pipe, states, steps, n - 1);
      assert StepAt(pipe, states, steps, n - 1);
      InvStep(pipe, states[n - 1], steps[n - 1]);
    }
  }
}
