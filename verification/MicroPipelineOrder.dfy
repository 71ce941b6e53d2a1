/** With one worker per stage the micro-pipeline is first in, first out. */
module MicroPipelineOrder {
  import opened Collections
  import opened MicroPipeline
  import opened MicroPipelineInvariants

  predicate Below(s: seq<nat>, bound: nat) {
    forall i :: 0 <= i < |s| ==> s[i] < bound
  }

  function Tickets(q: seq<Item>): (r: seq<nat>)
    ensures |r| == |q|
  {
    seq(|q|, k requires 0 <= k < |q| => q[k].ticket)
  }

  function OneLine(x: Worker): seq<nat> {
    if HasItem(x) then [x.item.ticket] else []
  }

  /** The tickets inside the stages from i on, the most advanced request first. */
  function Line(queues: seq<seq<Item>>, hands: seq<seq<Worker>>, i: nat): seq<nat>
    requires |queues| == |hands| + 1
    requires forall j :: 0 <= j < |hands| ==> |hands[j]| == 1
    decreases |hands| - i
  {
    if i >= |hands| then [] else Line(queues, hands, i + 1) + OneLine(hands[i][0]) + Tickets(queues[i])
  }

  predicate Single(s: State) {
    && |s.queues| == |s.hands| + 1
    && (forall j :: 0 <= j < |s.hands| ==> |s.hands[j]| == 1)
  }

  function Whole(s: State): seq<nat>
    requires Single(s)
  {
    s.delivered + Line(s.queues, s.hands, 0)
  }

  /** Everything delivered came before everything still in the pipeline, in order of arrival. */
  predicate InvOrder(s: State) {
    && Single(s)
    && Increasing(Whole(s))
    && Below(Whole(s), |s.arrived|)
  }

  // ----- How a change in one stage changes the line -----

  lemma {:induction false} LineFrame(queues: seq<seq<Item>>, hands: seq<seq<Worker>>,
                                     queues': seq<seq<Item>>, hands': seq<seq<Worker>>, i: nat)
    requires |queues| == |hands| + 1 && |queues'| == |queues| && |hands'| == |hands|
    requires forall j :: 0 <= j < |hands| ==> |hands[j]| == 1 && |hands'[j]| == 1
    requires forall j :: i <= j < |hands| ==> queues'[j] == queues[j] && hands'[j] == hands[j]
    ensures Line(queues', hands', i) == Line(queues, hands, i)
    decreases |hands| - i
  {
    if i < |hands| {
      LineFrame(queues, hands, queues', hands', i + 1);
    }
  }

  /** If the line from stage j on is unchanged and so are the stages before it, the whole line is unchanged. */
  lemma {:induction false} LineLift(queues: seq<seq<Item>>, hands: seq<seq<Worker>>,
                                    queues': seq<seq<Item>>, hands': seq<seq<Worker>>, j: nat, i: nat)
    requires |queues| == |hands| + 1 && |queues'| == |queues| && |hands'| == |hands|
    requires forall k :: 0 <= k < |hands| ==> |hands[k]| == 1 && |hands'[k]| == 1
    requires i <= j <= |hands| && Line(queues', hands', j) == Line(queues, hands, j)
    requires forall k :: i <= k < j ==> queues'[k] == queues[k] && hands'[k] == hands[k]
    ensures Line(queues', hands', i) == Line(queues, hands, i)
    decreases j - i
  {
    if i < j {
      LineLift(queues, hands, queues', hands', j, i + 1);
    }
  }

  predicate Singles(queues: seq<seq<Item>>, hands: seq<seq<Worker>>) {
    |queues| == |hands| + 1 && forall m :: 0 <= m < |hands| ==> |hands[m]| == 1
  }

  /** Replacing the item of stage j's worker by x takes exactly entry k out of the line from stage i on. */
  predicate RemovedAt(queues: seq<seq<Item>>, hands: seq<seq<Worker>>, j: nat, x: Worker, i: nat, k: nat)
    requires Singles(queues, hands) && j < |hands| && HasItem(hands[j][0])
  {
    var line := Line(queues, hands, i);
    && k < |line| && line[k] == hands[j][0].item.ticket
    && Line(queues, hands[j := [x]], i) == line[..k] + line[k + 1..]
  }

  lemma {:induction false} LineRemove(queues: seq<seq<Item>>, hands: seq<seq<Worker>>, j: nat, x: Worker, i: nat)
    returns (k: nat)
    requires Singles(queues, hands) && i <= j < |hands| && HasItem(hands[j][0]) && !HasItem(x)
    ensures RemovedAt(queues, hands, j, x, i, k)
    ensures j == |hands| - 1 ==> k == 0
    decreases j - i
  {
    if i == j {
      k := |Line(queues, hands, i + 1)|;
      LineRemoveHere(queues, hands, j, x);
    } else {
      k := LineRemove(queues, hands, j, x, i + 1);
      LineRemoveLater(queues, hands, j, x, i, k);
    }
  }

  lemma LineRemoveHere(queues: seq<seq<Item>>, hands: seq<seq<Worker>>, j: nat, x: Worker)
    requires Singles(queues, hands) && j < |hands| && HasItem(hands[j][0]) && !HasItem(x)
    ensures RemovedAt(queues, hands, j, x, j, |Line(queues, hands, j + 1)|)
    ensures j == |hands| - 1 ==> Line(queues, hands, j + 1) == []
  {
    var rest := Line(queues, hands, j + 1);
    LineFrame(queues, hands, queues, hands[j := [x]], j + 1);
    DropMiddle(rest, hands[j][0].item.ticket, Tickets(queues[j]));
    assert Line(queues, hands[j := [x]], j) == rest + [] + Tickets(queues[j]);
  }

  lemma DropMiddle(a: seq<nat>, x: nat, b: seq<nat>)
    ensures var line := a + [x] + b;
            line[|a|] == x && line[..|a|] + line[|a| + 1..] == a + [] + b
  {
  }

  lemma LineRemoveLater(queues: seq<seq<Item>>, hands: seq<seq<Worker>>, j: nat, x: Worker, i: nat, k: nat)
    requires Singles(queues, hands) && i < j < |hands| && HasItem(hands[j][0])
    requires RemovedAt(queues, hands, j, x, i + 1, k)
    ensures RemovedAt(queues, hands, j, x, i, k)
  {
    RemoveFromFront(Line(queues, hands, i + 1), OneLine(hands[i][0]), Tickets(queues[i]), k);
  }

  lemma RemoveFromFront(rest: seq<nat>, a: seq<nat>, b: seq<nat>, k: nat)
    requires k < |rest|
    ensures var line := rest + a + b;
            line[k] == rest[k] && line[..k] + line[k + 1..] == rest[..k] + rest[k + 1..] + a + b
  {
  }

  // ----- Steps -----

  lemma OrderGet(pipe: Pipe, s: State, i: nat, w: nat)
    requires Single(s) && Enabled(pipe, s, Get(i, w))
    ensures Line(Apply(pipe, s, Get(i, w)).queues, Apply(pipe, s, Get(i, w)).hands, 0) == Line(s.queues, s.hands, 0)
  {
    var s' := Apply(pipe, s, Get(i, w));
    LineFrame(s.queues, s.hands, s'.queues, s'.hands, i + 1);
    assert Tickets(s.queues[i]) == [s.queues[i][0].ticket] + Tickets(s.queues[i][1..]);
    LineLift(s.queues, s.hands, s'.queues, s'.hands, i, 0);
  }

  lemma OrderPut(pipe: Pipe, s: State, i: nat, w: nat)
    requires Single(s) && Enabled(pipe, s, Put(i, w))
    ensures Line(Apply(pipe, s, Put(i, w)).queues, Apply(pipe, s, Put(i, w)).hands, 0) == Line(s.queues, s.hands, 0)
  {
    var s' := Apply(pipe, s, Put(i, w));
    var item := s.hands[i][w].item;
    LineFrame(s.queues, s.hands, s'.queues, s'.hands, i + 2);
    assert Tickets(s'.queues[i + 1]) == Tickets(s.queues[i + 1]) + [item.ticket];
    assert Line(s'.queues, s'.hands, i + 1) == Line(s.queues, s.hands, i + 1) + [item.ticket];
    LineLift(s.queues, s.hands, s'.queues, s'.hands, i, 0);
  }

  lemma OrderEnqueue(pipe: Pipe, s: State, id: nat)
    requires InvOrder(s) && |s.hands| > 0 && Enabled(pipe, s, Enqueue(id))
    ensures InvOrder(Apply(pipe, s, Enqueue(id)))
  {
    var s' := Apply(pipe, s, Enqueue(id));
    LineFrame(s.queues, s.hands, s'.queues, s'.hands, 1);
    assert Tickets(s'.queues[0]) == Tickets(s.queues[0]) + [|s.arrived|];
    assert Whole(s') == Whole(s) + [|s.arrived|];
  }

  /** Dropping an entry keeps an increasing sequence increasing. */
  lemma DropOne(s: seq<nat>, k: nat, bound: nat)
    requires Increasing(s) && k < |s| && Below(s, bound)
    ensures Increasing(s[..k] + s[k + 1..]) && Below(s[..k] + s[k + 1..], bound)
  {
    var t := s[..k] + s[k + 1..];
    assert forall i :: 0 <= i < |t| ==> t[i] == s[if i < k then i else i + 1];
  }

  /** A request leaves the line without a result: cancelled, failed, or lost with its worker. */
  lemma OrderDrop(s: State, i: nat, x: Worker, s': State)
    requires InvOrder(s) && i < |s.hands| && HasItem(s.hands[i][0]) && !HasItem(x)
    requires s'.queues == s.queues && s'.hands == s.hands[i := s.hands[i][0 := x]]
    requires s'.delivered == s.delivered && s'.arrived == s.arrived
    ensures InvOrder(s')
  {
    assert s.hands[i][0 := x] == [x];
    var k := LineRemove(s.queues, s.hands, i, x, 0);
    var n := |s.delivered| + k;
    assert Whole(s') == Whole(s)[..n] + Whole(s)[n + 1..];
    DropOne(Whole(s), n, |s.arrived|);
  }

  /** The head of the line gets its result: it moves from the line to the delivered ones. */
  lemma OrderDeliver(s: State, i: nat, s': State)
    requires InvOrder(s) && i == |s.hands| - 1 && HasItem(s.hands[i][0])
    requires s'.queues == s.queues && s'.hands == s.hands[i := s.hands[i][0 := Idle]]
    requires s'.delivered == s.delivered + [s.hands[i][0].item.ticket] && s'.arrived == s.arrived
    ensures InvOrder(s')
  {
    assert s.hands[i][0 := Idle] == [Idle];
    var k := LineRemove(s.queues, s.hands, i, Idle, 0);
    assert Whole(s') == Whole(s);
  }

  lemma OrderHold(s: State, i: nat, y: Worker, s': State)
    requires InvOrder(s) && i < |s.hands| && OneLine(s.hands[i][0]) == OneLine(y)
    requires s'.queues == s.queues && s'.hands == s.hands[i := s.hands[i][0 := y]]
    requires s'.delivered == s.delivered && s'.arrived == s.arrived
    ensures InvOrder(s')
  {
    LineFrame(s.queues, s.hands, s'.queues, s'.hands, i + 1);
    LineLift(s.queues, s.hands, s'.queues, s'.hands, i, 0);
  }

  lemma OrderResolve(s: State, i: nat, item: Item, outcome: Future)
    requires InvOrder(s) && i < |s.hands| && HasItem(s.hands[i][0]) && s.hands[i][0].item == item
    requires item.id < |s.futures| && (outcome.Done? ==> i == |s.hands| - 1)
    ensures InvOrder(Resolve(s, i, 0, item, outcome))
  {
    var s' := Resolve(s, i, 0, item, outcome);
    if !s.futures[item.id].Cancelled? && outcome.Done? {
      OrderDeliver(s, i, s');
    } else {
      OrderDrop(s, i, s'.hands[i][0], s');
    }
  }

  lemma OrderCompute(pipe: Pipe, s: State, i: nat)
    requires InvOrder(s) && Enabled(pipe, s, Compute(i, 0))
    ensures InvOrder(ApplyCompute(pipe, s, i, 0))
  {
    var item := s.hands[i][0].item;
    var result := pipe.stages[i](item.payload);
    if Sets(pipe, i, item) {
      OrderResolve(s, i, item, Outcome(result));
    } else {
      OrderHold(s, i, Delivering(item.(payload := result.value)), ApplyCompute(pipe, s, i, 0));
    }
  }

  lemma OrderCheck(pipe: Pipe, s: State, i: nat)
    requires InvOrder(s) && Enabled(pipe, s, Check(i, 0))
    ensures InvOrder(ApplyCheck(s, i, 0))
  {
    var item, s' := s.hands[i][0].item, ApplyCheck(s, i, 0);
    if s.futures[item.id].Cancelled? {
      OrderDrop(s, i, Idle, s');
    } else {
      OrderHold(s, i, Working(item), s');
    }
  }

  lemma OrderLeave(pipe: Pipe, s: State, i: nat)
    requires InvOrder(s) && Enabled(pipe, s, Leave(i, 0))
    ensures InvOrder(Apply(pipe, s, Leave(i, 0)))
  {
    var s' := Apply(pipe, s, Leave(i, 0));
    if s.hands[i][0].Idle? {
      OrderHold(s, i, Exited, s');
    } else {
      OrderDrop(s, i, Exited, s');
    }
  }

  lemma OrderStep(pipe: Pipe, s: State, step: Step)
    requires InvOrder(s) && |s.hands| > 0 && Enabled(pipe, s, step)
    ensures InvOrder(Apply(pipe, s, step))
  {
    if step.Enqueue? {
      OrderEnqueue(pipe, s, step.id);
    } else if step.Get? || step.Put? || step.Leave? {
      OrderMove(pipe, s, step);
    } else if step.Check? {
      OrderCheck(pipe, s, step.stage);
    } else if step.Compute? {
      OrderCompute(pipe, s, step.stage);
    } else {
      OrderOutside(pipe, s, step);
    }
  }

  lemma OrderMove(pipe: Pipe, s: State, step: Step)
    requires InvOrder(s) && |s.hands| > 0 && Enabled(pipe, s, step) && (step.Get? || step.Put? || step.Leave?)
    ensures InvOrder(Apply(pipe, s, step))
  {
    match step
    case Get(i, w) => OrderGet(pipe, s, i, w);
    case Put(i, w) => OrderPut(pipe, s, i, w);
    case Leave(i, w) => OrderLeave(pipe, s, i);
  }

  lemma OrderOutside(pipe: Pipe, s: State, step: Step)
    requires InvOrder(s) && Enabled(pipe, s, step)
    requires step.Submit? || step.Cancel? || step.Close? || step.Clear? || step.Refuse?
    ensures InvOrder(Apply(pipe, s, step))
  {
    var s' := Apply(pipe, s, step);
    assert s'.queues == s.queues && s'.hands == s.hands && s'.delivered == s.delivered && s'.arrived == s.arrived;
  }

  lemma {:induction false} IdleLine(pipe: Pipe, i: nat)
    requires pipe.workers == 1
    ensures Line(Init(pipe).queues, Init(pipe).hands, i) == []
    decreases |pipe.stages| - i
  {
    if i < |pipe.stages| {
      IdleLine(pipe, i + 1);
    }
  }

  lemma {:induction false} RunOrder(pipe: Pipe, states: seq<State>, steps: seq<Step>, n: nat)
    requires Configured(pipe) && pipe.workers == 1 && IsRun(pipe, states, steps) && n < |states|
    ensures InvOrder(states[n]) && |states[n].hands| == |pipe.stages|
  {
    if n == 0 {
      IdleLine(pipe, 0);
    } else {
      RunOrder(pipe, states, steps, n - 1);
      RunInv(pipe, states, steps, n);
      assert StepAt(pipe, states, steps, n - 1);
      OrderStep(pipe, states[n - 1], steps[n - 1]);
    }
  }

  /** First in, first out: with one worker per stage, results come out in the order requests entered the
      pipeline, and every result delivered so far entered before every request still queued or held. */
  lemma ResultsInOrder(pipe: Pipe, states: seq<State>, steps: seq<Step>, n: nat)
    requires Configured(pipe) && pipe.workers == 1 && IsRun(pipe, states, steps) && n < |states|
    ensures Increasing(states[n].delivered)
    ensures Below(states[n].delivered, |states[n].arrived|)
    ensures forall k, i, j ::
      0 <= k < |states[n].delivered| && 0 <= i < |states[n].queues| - 1 && 0 <= j < |states[n].queues[i]| ==>
      states[n].delivered[k] < states[n].queues[i][j].ticket
    ensures forall k, i, w ::
      0 <= k < |states[n].delivered| && 0 <= i < |states[n].hands| && 0 <= w < |states[n].hands[i]| &&
      HasItem(states[n].hands[i][w]) ==>
      states[n].delivered[k] < states[n].hands[i][w].item.ticket
  {
    RunOrder(pipe, states, steps, n);
    var s := states[n];
    assert forall k :: 0 <= k < |s.delivered| ==> Whole(s)[k] == s.delivered[k];
    forall k, i, j | 0 <= k < |s.delivered| && 0 <= i < |s.queues| - 1 && 0 <= j < |s.queues[i]|
      ensures s.delivered[k] < s.queues[i][j].ticket
    {
      var m := InLine(s.queues, s.hands, i, j, 0);
      DeliveredBefore(s, k, m);
    }
    forall k, i, w | 0 <= k < |s.delivered| && 0 <= i < |s.hands| && 0 <= w < |s.hands[i]| && HasItem(s.hands[i][w])
      ensures s.delivered[k] < s.hands[i][w].item.ticket
    {
      var m := HandInLine(s.queues, s.hands, i, 0);
      DeliveredBefore(s, k, m);
    }
  }

  lemma DeliveredBefore(s: State, k: nat, m: nat)
    requires InvOrder(s) && k < |s.delivered| && m < |Line(s.queues, s.hands, 0)|
    ensures s.delivered[k] < Line(s.queues, s.hands, 0)[m]
  {
    assert Whole(s)[k] == s.delivered[k];
    assert Whole(s)[|s.delivered| + m] == Line(s.queues, s.hands, 0)[m];
  }

  lemma {:induction false} HandInLine(queues: seq<seq<Item>>, hands: seq<seq<Worker>>, i: nat, from: nat)
    returns (m: nat)
    requires Singles(queues, hands) && from <= i < |hands| && HasItem(hands[i][0])
    ensures m < |Line(queues, hands, from)| && Line(queues, hands, from)[m] == hands[i][0].item.ticket
    decreases i - from
  {
    if from == i {
      m := |Line(queues, hands, i + 1)|;
    } else {
      m := HandInLine(queues, hands, i, from + 1);
    }
  }

  lemma {:induction false} InLine(queues: seq<seq<Item>>, hands: seq<seq<Worker>>, i: nat, j: nat, from: nat)
    returns (m: nat)
    requires Singles(queues, hands) && from <= i < |hands| && j < |queues[i]|
    ensures m < |Line(queues, hands, from)| && Line(queues, hands, from)[m] == queues[i][j].ticket
    decreases i - from
  {
    var rest, one, last := Line(queues, hands, from + 1), OneLine(hands[from][0]), Tickets(queues[from]);
    if from == i {
      m := |rest| + |one| + j;
      IndexInParts(rest, one, last, m);
    } else {
      m := InLine(queues, hands, i, j, from + 1);
      IndexInParts(rest, one, last, m);
    }
  }

  lemma IndexInParts(a: seq<nat>, b: seq<nat>, c: seq<nat>, m: nat)
    requires m < |a + b + c|
    ensures m < |a| ==> (a + b + c)[m] == a[m]
    ensures m >= |a| + |b| ==> (a + b + c)[m] == c[m - |a| - |b|]
  {
  }
}
