/** Which request a ticket belongs to, and that the log of delivered tickets is the order in which futures were set:
    with one worker per stage, first come first served. */
module MicroPipelineDelivery {
  import opened Collections
  import opened MicroPipeline
  import opened MicroPipelineInvariants
  import opened MicroPipelineTheorems
  import MicroPipelineOrder

  // ----- Tickets -----

  /** The ticket is the place of the request in the order of arrival. */
  predicate ItemOk(arrived: seq<nat>, item: Item) {
    item.ticket < |arrived| && arrived[item.ticket] == item.id
  }

  predicate HandOk(arrived: seq<nat>, x: Worker) {
    HasItem(x) ==> ItemOk(arrived, x.item)
  }

  predicate QueuesOk(arrived: seq<nat>, queues: seq<seq<Item>>) {
    forall i, k :: 0 <= i < |queues| && 0 <= k < |queues[i]| ==> ItemOk(arrived, queues[i][k])
  }

  predicate HandsOk(arrived: seq<nat>, hands: seq<seq<Worker>>) {
    forall i, w :: 0 <= i < |hands| && 0 <= w < |hands[i]| ==> HandOk(arrived, hands[i][w])
  }

  /** Every queued or held item carries the ticket of its own request. */
  predicate InvTickets(s: State) {
    QueuesOk(s.arrived, s.queues) && HandsOk(s.arrived, s.hands)
  }

  lemma HandsUpdate(arrived: seq<nat>, hands: seq<seq<Worker>>, i: nat, w: nat, x: Worker)
    requires HandsOk(arrived, hands) && i < |hands| && w < |hands[i]| && HandOk(arrived, x)
    ensures HandsOk(arrived, hands[i := hands[i][w := x]])
  {
    var hands' := hands[i := hands[i][w := x]];
    forall j, v | 0 <= j < |hands'| && 0 <= v < |hands'[j]| ensures HandOk(arrived, hands'[j][v]) {
      assert HandOk(arrived, hands[j][v]);
    }
  }

  lemma QueuesUpdate(arrived: seq<nat>, queues: seq<seq<Item>>, i: nat, q: seq<Item>)
    requires QueuesOk(arrived, queues) && i < |queues| && forall k :: 0 <= k < |q| ==> ItemOk(arrived, q[k])
    ensures QueuesOk(arrived, queues[i := q])
  {
  }

  lemma TicketsArrive(arrived: seq<nat>, id: nat, queues: seq<seq<Item>>, hands: seq<seq<Worker>>)
    requires QueuesOk(arrived, queues) && HandsOk(arrived, hands)
    ensures QueuesOk(arrived + [id], queues) && HandsOk(arrived + [id], hands)
  {
    forall i, w | 0 <= i < |hands| && 0 <= w < |hands[i]| ensures HandOk(arrived + [id], hands[i][w]) {
      assert HandOk(arrived, hands[i][w]);
    }
    forall i, k | 0 <= i < |queues| && 0 <= k < |queues[i]| ensures ItemOk(arrived + [id], queues[i][k]) {
      assert ItemOk(arrived, queues[i][k]);
    }
  }

  lemma TicketsEnqueue(pipe: Pipe, s: State, id: nat)
    requires InvTickets(s) && Enabled(pipe, s, Enqueue(id))
    ensures InvTickets(Apply(pipe, s, Enqueue(id)))
  {
    TicketsArrive(s.arrived, id, s.queues, s.hands);
    QueuesUpdate(s.arrived + [id], s.queues, 0, s.queues[0] + [Item(id, |s.arrived|, s.originals[id])]);
  }

  lemma TicketsGet(pipe: Pipe, s: State, i: nat, w: nat)
    requires InvTickets(s) && Enabled(pipe, s, Get(i, w))
    ensures InvTickets(Apply(pipe, s, Get(i, w)))
  {
    HandsUpdate(s.arrived, s.hands, i, w, Holding(s.queues[i][0]));
    QueuesUpdate(s.arrived, s.queues, i, s.queues[i][1..]);
  }

  lemma TicketsPut(pipe: Pipe, s: State, i: nat, w: nat)
    requires InvTickets(s) && Enabled(pipe, s, Put(i, w))
    ensures InvTickets(Apply(pipe, s, Put(i, w)))
  {
    assert HandOk(s.arrived, s.hands[i][w]);
    HandsUpdate(s.arrived, s.hands, i, w, Idle);
    QueuesUpdate(s.arrived, s.queues, i + 1, s.queues[i + 1] + [s.hands[i][w].item]);
  }

  lemma TicketsCheck(pipe: Pipe, s: State, i: nat, w: nat)
    requires InvTickets(s) && Enabled(pipe, s, Check(i, w))
    ensures InvTickets(ApplyCheck(s, i, w))
  {
    var item := s.hands[i][w].item;
    assert HandOk(s.arrived, s.hands[i][w]);
    CheckEffect(pipe, s, i, w);
    HandsUpdate(s.arrived, s.hands, i, w, CheckedHand(item, s.futures[item.id].Cancelled?));
  }

  lemma TicketsCompute(pipe: Pipe, s: State, i: nat, w: nat)
    requires InvTickets(s) && Enabled(pipe, s, Compute(i, w))
    ensures InvTickets(ApplyCompute(pipe, s, i, w))
  {
    var item := s.hands[i][w].item;
    assert HandOk(s.arrived, s.hands[i][w]);
    ComputeEffect(pipe, s, i, w);
    HandsUpdate(s.arrived, s.hands, i, w, ComputedHand(pipe, i, item, s.futures[item.id].Cancelled?));
  }

  lemma TicketsLeave(pipe: Pipe, s: State, i: nat, w: nat)
    requires InvTickets(s) && Enabled(pipe, s, Leave(i, w))
    ensures InvTickets(Apply(pipe, s, Leave(i, w)))
  {
    HandsUpdate(s.arrived, s.hands, i, w, Exited);
  }

  predicate IsOutside(step: Step) {
    step.Submit? || step.Cancel? || step.Close? || step.Clear? || step.Refuse?
  }

  lemma OutsideKeeps(pipe: Pipe, s: State, step: Step)
    requires Enabled(pipe, s, step) && IsOutside(step)
    ensures var s' := Apply(pipe, s, step);
      s'.queues == s.queues && s'.hands == s.hands && s'.arrived == s.arrived && s'.delivered == s.delivered
  {
  }

  lemma TicketsStep(pipe: Pipe, s: State, step: Step)
    requires InvTickets(s) && Enabled(pipe, s, step)
    ensures InvTickets(Apply(pipe, s, step))
  {
    match step
    case Enqueue(id) => TicketsEnqueue(pipe, s, id);
    case Get(i, w) => TicketsGet(pipe, s, i, w);
    case Check(i, w) => TicketsCheck(pipe, s, i, w);
    case Compute(i, w) => TicketsCompute(pipe, s, i, w);
    case Put(i, w) => TicketsPut(pipe, s, i, w);
    case Leave(i, w) => TicketsLeave(pipe, s, i, w);
    case _ => OutsideKeeps(pipe, s, step);
  }

  lemma {:induction false} RunTickets(pipe: Pipe, states: seq<State>, steps: seq<Step>, n: nat)
    requires IsRun(pipe, states, steps) && n < |states|
    ensures InvTickets(states[n])
  {
    if n > 0 {
      RunTickets(pipe, states, steps, n - 1);
      assert StepAt(pipe, states, steps, n - 1);
      TicketsStep(pipe, states[n - 1], steps[n - 1]);
    }
  }

  // ----- Arrival -----

  /** Every request arrives at most once, and no longer waits then. */
  predicate InvArrived(s: State) {
    && Distinct(s.arrived)
    && (forall k :: 0 <= k < |s.arrived| ==> s.arrived[k] !in s.waiting && s.arrived[k] < |s.futures|)
  }

  /** What the worker steps leave alone. */
  lemma ArrivalKept(pipe: Pipe, s: State, step: Step)
    requires Enabled(pipe, s, step) && !step.Enqueue? && !step.Submit?
    ensures var s' := Apply(pipe, s, step);
      s'.arrived == s.arrived && s'.waiting == s.waiting && |s'.futures| == |s.futures|
  {
    match step
    case Check(i, w) => CheckEffect(pipe, s, i, w);
    case Compute(i, w) => ComputeLogs(pipe, s, i, w);
    case _ =>
  }

  /** What ending a stage does to futures and logs. */
  lemma ComputeLogs(pipe: Pipe, s: State, i: nat, w: nat)
    requires Enabled(pipe, s, Compute(i, w))
    ensures var item, s' := s.hands[i][w].item, ApplyCompute(pipe, s, i, w);
      && s'.arrived == s.arrived && s'.waiting == s.waiting && |s'.futures| == |s.futures|
      && s'.delivered == (if Resolves(pipe, s, i, item) && Outcome(pipe.stages[i](item.payload)).Done?
                          then s.delivered + [item.ticket] else s.delivered)
      && s'.futures == (if Resolves(pipe, s, i, item)
                        then s.futures[item.id := Outcome(pipe.stages[i](item.payload))] else s.futures)
  {
  }

  predicate Resolves(pipe: Pipe, s: State, i: nat, item: Item)
    requires item.id < |s.futures|
  {
    Sets(pipe, i, item) && !s.futures[item.id].Cancelled?
  }

  lemma ArrivedStep(pipe: Pipe, s: State, step: Step)
    requires InvArrived(s) && (forall id :: id in s.waiting ==> id < |s.futures|) && Enabled(pipe, s, step)
    ensures InvArrived(Apply(pipe, s, step))
  {
    if step.Enqueue? {
      DistinctAppend(s.arrived, step.id);
    } else if !step.Submit? {
      ArrivalKept(pipe, s, step);
    }
  }

  lemma RunWaiting(pipe: Pipe, states: seq<State>, steps: seq<Step>, n: nat)
    requires Configured(pipe) && IsRun(pipe, states, steps) && n < |states|
    ensures forall id :: id in states[n].waiting ==> id < |states[n].futures|
  {
    RunShape(pipe, states, steps, n);
  }

  lemma {:induction false} RunArrived(pipe: Pipe, states: seq<State>, steps: seq<Step>, n: nat)
    requires Configured(pipe) && IsRun(pipe, states, steps) && n < |states|
    ensures InvArrived(states[n])
  {
    if n > 0 {
      RunArrived(pipe, states, steps, n - 1);
      RunWaiting(pipe, states, steps, n - 1);
      assert StepAt(pipe, states, steps, n - 1);
      ArrivedStep(pipe, states[n - 1], steps[n - 1]);
    }
  }

  // ----- Delivery -----

  /** Request id is in the log of deliveries. */
  predicate IsDelivered(arrived: seq<nat>, delivered: seq<nat>, id: nat) {
    exists k :: 0 <= k < |delivered| && delivered[k] < |arrived| && arrived[delivered[k]] == id
  }

  /** The log lists exactly the futures that got a result. */
  predicate LogOk(arrived: seq<nat>, delivered: seq<nat>, futures: seq<Future>) {
    && (forall k :: 0 <= k < |delivered| ==>
          delivered[k] < |arrived| && arrived[delivered[k]] < |futures| && futures[arrived[delivered[k]]].Done?)
    && (forall id :: 0 <= id < |futures| && futures[id].Done? ==> IsDelivered(arrived, delivered, id))
  }

  predicate InvLog(s: State) {
    LogOk(s.arrived, s.delivered, s.futures)
  }

  lemma DeliveredStays(arrived: seq<nat>, delivered: seq<nat>, id: nat, x: nat, ticket: nat)
    requires IsDelivered(arrived, delivered, id)
    ensures IsDelivered(arrived + [x], delivered, id) && IsDelivered(arrived, delivered + [ticket], id)
  {
    var k :| 0 <= k < |delivered| && delivered[k] < |arrived| && arrived[delivered[k]] == id;
    assert (arrived + [x])[delivered[k]] == id && (delivered + [ticket])[k] == delivered[k];
  }

  lemma LogArrive(arrived: seq<nat>, delivered: seq<nat>, futures: seq<Future>, id: nat)
    requires LogOk(arrived, delivered, futures)
    ensures LogOk(arrived + [id], delivered, futures)
  {
    forall x | 0 <= x < |futures| && futures[x].Done? ensures IsDelivered(arrived + [id], delivered, x) {
      DeliveredStays(arrived, delivered, x, id, 0);
    }
  }

  lemma LogDeliver(arrived: seq<nat>, delivered: seq<nat>, futures: seq<Future>, ticket: nat, f: Future)
    requires LogOk(arrived, delivered, futures) && ticket < |arrived| && arrived[ticket] < |futures| && f.Done?
    ensures LogOk(arrived, delivered + [ticket], futures[arrived[ticket] := f])
  {
    var futures', delivered' := futures[arrived[ticket] := f], delivered + [ticket];
    forall x | 0 <= x < |futures'| && futures'[x].Done? ensures IsDelivered(arrived, delivered', x) {
      if x == arrived[ticket] {
        assert delivered'[|delivered|] == ticket;
      } else {
        DeliveredStays(arrived, delivered, x, 0, ticket);
      }
    }
  }

  /** Any other change of a future that is neither from nor to a result. */
  lemma LogOther(arrived: seq<nat>, delivered: seq<nat>, futures: seq<Future>, id: nat, f: Future)
    requires LogOk(arrived, delivered, futures) && id < |futures| && !futures[id].Done? && !f.Done?
    ensures LogOk(arrived, delivered, futures[id := f])
  {
  }

  lemma LogSubmit(arrived: seq<nat>, delivered: seq<nat>, futures: seq<Future>)
    requires LogOk(arrived, delivered, futures)
    ensures LogOk(arrived, delivered, futures + [Pending])
  {
  }

  lemma LogCompute(pipe: Pipe, s: State, i: nat, w: nat)
    requires InvLog(s) && Enabled(pipe, s, Compute(i, w)) && ItemOk(s.arrived, s.hands[i][w].item)
    requires !s.futures[s.hands[i][w].item.id].Done?
    ensures InvLog(ApplyCompute(pipe, s, i, w))
  {
    var item := s.hands[i][w].item;
    var outcome := Outcome(pipe.stages[i](item.payload));
    ComputeLogs(pipe, s, i, w);
    if Resolves(pipe, s, i, item) {
      if outcome.Done? {
        LogDeliver(s.arrived, s.delivered, s.futures, item.ticket, outcome);
      } else {
        LogOther(s.arrived, s.delivered, s.futures, item.id, outcome);
      }
    }
  }

  lemma LogKept(pipe: Pipe, s: State, step: Step)
    requires Enabled(pipe, s, step)
    requires !step.Enqueue? && !step.Submit? && !step.Cancel? && !step.Compute?
    ensures var s' := Apply(pipe, s, step);
      s'.arrived == s.arrived && s'.delivered == s.delivered && s'.futures == s.futures
  {
  }

  lemma LogStep(pipe: Pipe, s: State, step: Step)
    requires InvLog(s) && Enabled(pipe, s, step)
    requires step.Compute? ==> ItemOk(s.arrived, s.hands[step.stage][step.w].item)
    requires step.Compute? ==> !s.futures[s.hands[step.stage][step.w].item.id].Done?
    ensures InvLog(Apply(pipe, s, step))
  {
    match step
    case Enqueue(id) => LogArrive(s.arrived, s.delivered, s.futures, id);
    case Submit(_) => LogSubmit(s.arrived, s.delivered, s.futures);
    case Cancel(id) => LogOther(s.arrived, s.delivered, s.futures, id, Cancelled);
    case Compute(i, w) => LogCompute(pipe, s, i, w);
    case _ => LogKept(pipe, s, step);
  }

  /** The item a worker is about to finish has its own ticket and an unresolved future. */
  lemma ComputesOwn(pipe: Pipe, states: seq<State>, steps: seq<Step>, n: nat, i: nat, w: nat)
    requires Configured(pipe) && IsRun(pipe, states, steps) && n < |states| && Enabled(pipe, states[n], Compute(i, w))
    ensures ItemOk(states[n].arrived, states[n].hands[i][w].item)
    ensures !states[n].futures[states[n].hands[i][w].item.id].Done?
  {
    RunTickets(pipe, states, steps, n);
    assert HandOk(states[n].arrived, states[n].hands[i][w]);
    RunInv(pipe, states, steps, n);
    HeldIsUnresolved(pipe, states[n], i, w);
  }

  lemma {:induction false} RunLog(pipe: Pipe, states: seq<State>, steps: seq<Step>, n: nat)
    requires Configured(pipe) && IsRun(pipe, states, steps) && n < |states|
    ensures InvLog(states[n])
  {
    if n > 0 {
      RunLog(pipe, states, steps, n - 1);
      assert StepAt(pipe, states, steps, n - 1);
      if steps[n - 1].Compute? {
        ComputesOwn(pipe, states, steps, n - 1, steps[n - 1].stage, steps[n - 1].w);
      }
      LogStep(pipe, states[n - 1], steps[n - 1]);
    }
  }

  // ----- The logs only grow -----

  lemma LogsGrowStep(pipe: Pipe, s: State, step: Step)
    requires Enabled(pipe, s, step)
    ensures s.arrived <= Apply(pipe, s, step).arrived && s.delivered <= Apply(pipe, s, step).delivered
    ensures |s.futures| <= |Apply(pipe, s, step).futures|
  {
    match step
    case Compute(i, w) => ComputeLogs(pipe, s, i, w);
    case Check(i, w) => CheckEffect(pipe, s, i, w);
    case _ =>
  }

  lemma {:induction false} LogsGrow(pipe: Pipe, states: seq<State>, steps: seq<Step>, m: nat, n: nat)
    requires IsRun(pipe, states, steps) && m <= n < |states|
    ensures states[m].arrived <= states[n].arrived && states[m].delivered <= states[n].delivered
    ensures |states[m].futures| <= |states[n].futures|
    decreases n
  {
    if m < n {
      LogsGrow(pipe, states, steps, m, n - 1);
      assert StepAt(pipe, states, steps, n - 1);
      LogsGrowStep(pipe, states[n - 1], steps[n - 1]);
    }
  }

  // ----- First come, first served -----

  /** The log at two times and a request in it at the later one. */
  lemma EarlierInLog(arrived: seq<nat>, delivered: seq<nat>, delivered': seq<nat>, i: nat, j: nat, kb: nat)
    requires Increasing(delivered') && Distinct(arrived) && delivered <= delivered' && i < j < |arrived|
    requires IsDelivered(arrived, delivered', arrived[i]) && kb < |delivered| && delivered[kb] == j
    ensures exists k :: 0 <= k < |delivered| && delivered[k] == i
  {
    var ka :| 0 <= ka < |delivered'| && delivered'[ka] < |arrived| && arrived[delivered'[ka]] == arrived[i];
    assert delivered'[ka] == i && delivered'[kb] == j;
    assert ka < kb;
    assert delivered[ka] == i;
  }

  /** With one worker per stage, of two requests that both get a result the one that arrived first gets it first: at
      any time at which the later one has its result, so has the earlier one. */
  lemma FirstComeFirstServed(pipe: Pipe, states: seq<State>, steps: seq<Step>, m: nat, n: nat, i: nat, j: nat)
    requires Configured(pipe) && pipe.workers == 1 && IsRun(pipe, states, steps) && m <= n < |states|
    requires i < j < |states[n].arrived|
    requires states[n].arrived[i] < |states[n].futures| && states[n].futures[states[n].arrived[i]].Done?
    requires states[n].arrived[j] < |states[m].futures| && states[m].futures[states[n].arrived[j]].Done?
    ensures states[n].arrived[i] < |states[m].futures| && states[m].futures[states[n].arrived[i]].Done?
  {
    var s, t := states[m], states[n];
    LogsGrow(pipe, states, steps, m, n);
    RunLog(pipe, states, steps, m);
    RunLog(pipe, states, steps, n);
    RunArrived(pipe, states, steps, n);
    MicroPipelineOrder.ResultsInOrder(pipe, states, steps, n);
    assert IsDelivered(s.arrived, s.delivered, t.arrived[j]);
    var kb :| 0 <= kb < |s.delivered| && s.delivered[kb] < |s.arrived| && s.arrived[s.delivered[kb]] == t.arrived[j];
    assert t.arrived[s.delivered[kb]] == t.arrived[j];
    EarlierInLog(t.arrived, s.delivered, t.delivered, i, j, kb);
  }

  /** Whatever the number of workers: every request arrives at most once, every item inside the pipeline carries the
      ticket of its own request, and the log of deliveries lists exactly the requests whose futures hold a result. */
  lemma TicketsAreRequests(pipe: Pipe, states: seq<State>, steps: seq<Step>, n: nat)
    requires Configured(pipe) && IsRun(pipe, states, steps) && n < |states|
    ensures InvTickets(states[n]) && InvArrived(states[n]) && InvLog(states[n])
  {
    RunTickets(pipe, states, steps, n);
    RunArrived(pipe, states, steps, n);
    RunLog(pipe, states, steps, n);
  }
}
