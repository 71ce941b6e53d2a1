/** plugins/micro_pipeline.py: the staged pipeline as a transition system.
    Client threads submit and cancel; stage workers move items through bounded queues. */
module MicroPipeline {
  /** Requests and exceptions are opaque to the pipeline. */
  type Payload(!new, ==, 0)
  type Fault(!new, ==, 0)

  datatype StageResult = Value(value: Payload) | Raised(fault: Fault)

  type Stage = Payload -> StageResult

  /** The stages, the worker threads per stage and `max_in_flight`. */
  datatype Pipe = Pipe(stages: seq<Stage>, workers: nat, capacity: nat)

  predicate Configured(pipe: Pipe) {
    |pipe.stages| > 0 && pipe.workers > 0 && pipe.capacity > 0
  }

  /** The meaning of the pipeline: the stages in order, stopping at the first exception. */
  function Compose(stages: seq<Stage>, v: Payload): StageResult {
    if stages == [] then Value(v)
    else match stages[0](v)
         case Value(u) => Compose(stages[1..], u)
         case Raised(e) => Raised(e)
  }

  // ----- States -----

  datatype Future = Pending | Cancelled | Done(value: Payload) | Failed(fault: Fault)

  /** `id` names the future; `ticket` is the place in the order in which items entered the first queue. */
  datatype Item = Item(id: nat, ticket: nat, payload: Payload)

  datatype Worker =
    | Idle
    | Holding(item: Item)      // taken from the queue, cancellation not yet checked
    | Working(item: Item)      // checked, executing the stage
    | Delivering(item: Item)   // stage returned, waiting for room in the next queue
    | Dead                     // killed by setting a cancelled future
    | Exited                   // left its loop after close

  datatype State = State(
    originals: seq<Payload>,       // what request id was submitted with
    futures: seq<Future>,
    waiting: set<nat>,             // clients blocked in put on the first queue
    queues: seq<seq<Item>>,        // queues[i] feeds stage i; the last one is allocated and never used
    hands: seq<seq<Worker>>,       // hands[i][w] is worker w of stage i
    closed: bool,
    cleared: bool,                 // close has dropped the list of queues
    submitted: nat,
    refused: nat,                  // submissions that were counted and then raised
    processed: nat,
    arrived: seq<nat>,             // ids in the order they entered the first queue
    delivered: seq<nat>,           // tickets in the order their futures got a result
    accounted: multiset<nat>,      // ids whose processing was counted
    lost: multiset<nat>)           // ids dropped by a dead or exiting worker

  function Init(pipe: Pipe): State {
    State([], [], {}, seq(|pipe.stages| + 1, _ => []),
          seq(|pipe.stages|, _ => seq(pipe.workers, _ => Idle)),
          false, false, 0, 0, 0, [], [], multiset{}, multiset{})
  }

  // ----- Steps -----

  datatype Step =
    | Submit(payload: Payload)
    | Cancel(id: nat)              // a client cancels its future
    | Enqueue(id: nat)             // a blocked put on the first queue goes through
    | Get(stage: nat, w: nat)
    | Check(stage: nat, w: nat)    // future.cancelled()
    | Compute(stage: nat, w: nat)  // the stage returns or raises
    | Put(stage: nat, w: nat)
    | Close
    | Clear                        // the last line of close
    | Refuse                       // a submission to a closed pipeline: counted, then an index error
    | Leave(stage: nat, w: nat)    // a worker sees the stop flag

  predicate HasWorker(pipe: Pipe, s: State, stage: nat, w: nat) {
    && |s.hands| == |pipe.stages| && |s.queues| == |pipe.stages| + 1
    && stage < |s.hands| && w < |s.hands[stage]|
  }

  predicate Enabled(pipe: Pipe, s: State, step: Step) {
    match step
    case Submit(_) => !s.cleared
    case Cancel(id) => id < |s.futures| && s.futures[id].Pending?
    case Enqueue(id) => id in s.waiting && id < |s.originals| && |s.queues| > 0 && |s.queues[0]| < pipe.capacity
    case Get(i, w) => HasWorker(pipe, s, i, w) && s.hands[i][w].Idle? && |s.queues[i]| > 0
    case Check(i, w) => HasWorker(pipe, s, i, w) && s.hands[i][w].Holding? && s.hands[i][w].item.id < |s.futures|
    case Compute(i, w) => HasWorker(pipe, s, i, w) && s.hands[i][w].Working? && s.hands[i][w].item.id < |s.futures|
    case Put(i, w) => HasWorker(pipe, s, i, w) && s.hands[i][w].Delivering? && i + 1 < |pipe.stages| &&
                      |s.queues[i + 1]| < pipe.capacity
    case Close => !s.closed
    case Clear => s.closed && !s.cleared
    case Refuse => s.cleared
    case Leave(i, w) => HasWorker(pipe, s, i, w) && s.closed && (s.hands[i][w].Idle? || s.hands[i][w].Delivering?)
  }

  function SetHand(s: State, i: nat, w: nat, x: Worker): State
    requires i < |s.hands| && w < |s.hands[i]|
  {
    s.(hands := s.hands[i := s.hands[i][w := x]])
  }

  /** The worker is done with the item: count it and go back to the queue. */
  function Account(s: State, i: nat, w: nat, id: nat): State
    requires i < |s.hands| && w < |s.hands[i]|
  {
    SetHand(s, i, w, Idle).(processed := s.processed + 1, accounted := s.accounted + multiset{id})
  }

  /** The worker is gone and its item with it. */
  function Lose(s: State, i: nat, w: nat, id: nat, x: Worker): State
    requires i < |s.hands| && w < |s.hands[i]|
  {
    SetHand(s, i, w, x).(lost := s.lost + multiset{id})
  }

  function ApplyCheck(s: State, i: nat, w: nat): State
    requires i < |s.hands| && w < |s.hands[i]| && s.hands[i][w].Holding? && s.hands[i][w].item.id < |s.futures|
  {
    var item := s.hands[i][w].item;
    if s.futures[item.id].Cancelled? then Account(s, i, w, item.id) else SetHand(s, i, w, Working(item))
  }

  /** Setting a cancelled future raises out of the worker loop; any other future takes the outcome. */
  function Resolve(s: State, i: nat, w: nat, item: Item, outcome: Future): State
    requires i < |s.hands| && w < |s.hands[i]| && item.id < |s.futures|
  {
    if s.futures[item.id].Cancelled? then Lose(s, i, w, item.id, Dead)
    else Account(s, i, w, item.id).(
           futures := s.futures[item.id := outcome],
           delivered := if outcome.Done? then s.delivered + [item.ticket] else s.delivered)
  }

  /** The stage ends by setting the future of its item: the last stage, or a stage that raises. */
  predicate Sets(pipe: Pipe, i: nat, item: Item) {
    i < |pipe.stages| && (i == |pipe.stages| - 1 || pipe.stages[i](item.payload).Raised?)
  }

  /** What the stage makes of the future, if it sets it. */
  function Outcome(result: StageResult): Future {
    match result
    case Value(v) => Done(v)
    case Raised(e) => Failed(e)
  }

  function ApplyCompute(pipe: Pipe, s: State, i: nat, w: nat): State
    requires Enabled(pipe, s, Compute(i, w))
  {
    var item := s.hands[i][w].item;
    var result := pipe.stages[i](item.payload);
    if Sets(pipe, i, item) then Resolve(s, i, w, item, Outcome(result))
    else SetHand(s, i, w, Delivering(item.(payload := result.value)))
  }

  function Apply(pipe: Pipe, s: State, step: Step): State
    requires Enabled(pipe, s, step)
  {
    match step
    case Submit(payload) =>
      s.(originals := s.originals + [payload], futures := s.futures + [Pending],
         waiting := s.waiting + {|s.futures|}, submitted := s.submitted + 1)
    case Cancel(id) => s.(futures := s.futures[id := Cancelled])
    case Enqueue(id) =>
      s.(waiting := s.waiting - {id},
         queues := s.queues[0 := s.queues[0] + [Item(id, |s.arrived|, s.originals[id])]],
         arrived := s.arrived + [id])
    case Get(i, w) =>
      SetHand(s, i, w, Holding(s.queues[i][0])).(queues := s.queues[i := s.queues[i][1..]])
    case Check(i, w) => ApplyCheck(s, i, w)
    case Compute(i, w) => ApplyCompute(pipe, s, i, w)
    case Put(i, w) =>
      SetHand(s, i, w, Idle).(queues := s.queues[i + 1 := s.queues[i + 1] + [s.hands[i][w].item]])
    case Close => s.(closed := true)
    case Clear => s.(cleared := true)
    case Refuse => s.(submitted := s.submitted + 1, refused := s.refused + 1)
    case Leave(i, w) =>
      if s.hands[i][w].Idle? then SetHand(s, i, w, Exited) else Lose(s, i, w, s.hands[i][w].item.id, Exited)
  }

  ghost predicate StepsTo(pipe: Pipe, s: State, step: Step, s': State) {
    Enabled(pipe, s, step) && s' == Apply(pipe, s, step)
  }

  /** Step i of the sequence leads from its state to the next. */
  ghost predicate StepAt(pipe: Pipe, states: seq<State>, steps: seq<Step>, i: nat) {
    i < |steps| && i + 1 < |states| && StepsTo(pipe, states[i], steps[i], states[i + 1])
  }

  ghost predicate IsRun(pipe: Pipe, states: seq<State>, steps: seq<Step>) {
    && |states| == |steps| + 1 && states[0] == Init(pipe)
    && (forall i :: 0 <= i < |steps| ==> StepAt(pipe, states, steps, i))
  }

  // ----- Where the items are -----

  /** A set of request ids, as a test. */
  type Test = nat -> bool

  function Only(id: nat): Test {
    (x: nat) => x == id
  }

  const Any: Test := (x: nat) => true

  function Hit(p: Test, id: nat): nat {
    if p(id) then 1 else 0
  }

  predicate HasItem(x: Worker) {
    x.Holding? || x.Working? || x.Delivering?
  }

  function OneCount(x: Worker, p: Test): nat {
    if HasItem(x) then Hit(p, x.item.id) else 0
  }

  function HandCount(ws: seq<Worker>, p: Test): nat {
    if ws == [] then 0 else OneCount(ws[0], p) + HandCount(ws[1..], p)
  }

  function QueueCount(q: seq<Item>, p: Test): nat {
    if q == [] then 0 else Hit(p, q[0].id) + QueueCount(q[1..], p)
  }

  /** How many items that pass the test are inside the stages from i on. */
  function Flight(queues: seq<seq<Item>>, hands: seq<seq<Worker>>, i: nat, p: Test): nat
    requires |queues| == |hands| + 1
    decreases |hands| - i
  {
    if i >= |hands| then 0
    else Flight(queues, hands, i + 1, p) + QueueCount(queues[i], p) + HandCount(hands[i], p)
  }
}
