/** src/action_buffer.cpp: the receding-horizon action buffer. */
module ActionBuffer {
  import opened Collections
  import opened Statuses

  /** Control steps and request ids are unsigned 64-bit; sums of them wrap. */
  type U64 = x: nat | x <= MAX

  type Value(!new, ==, 0)

  datatype Chunk = Chunk(requestId: U64, firstStep: U64, steps: U64, actionDim: nat,
                         representation: Representation, values: seq<Value>)

  datatype Action = Action(controlStep: U64, requestId: U64, representation: Representation, values: seq<Value>)

  datatype Config = Config(actionDim: nat, capacity: nat)

  datatype State = State(actions: map<U64, Action>, minimum: U64, latest: U64)

  const INIT := State(map[], 0, 0)

  // ----- Chunks -----

  predicate ShapeOk(cfg: Config, chunk: Chunk) {
    chunk.actionDim == cfg.actionDim && chunk.steps != 0 && |chunk.values| == chunk.steps * chunk.actionDim
  }

  /** The control step of row i, with 64-bit wrap-around. */
  function StepAt(chunk: Chunk, i: nat): U64
    requires i < chunk.steps
  {
    if chunk.firstStep + i <= MAX then chunk.firstStep + i else chunk.firstStep + i - (MAX + 1)
  }

  /** Which row would serve control step k. */
  function RowFor(chunk: Chunk, k: U64): nat {
    if k >= chunk.firstStep then k - chunk.firstStep else k + (MAX + 1) - chunk.firstStep
  }

  predicate Covers(chunk: Chunk, k: U64) {
    RowFor(chunk, k) < chunk.steps
  }

  lemma CoversIsStepAt(chunk: Chunk, i: nat, k: U64)
    requires i < chunk.steps
    ensures StepAt(chunk, i) == k <==> RowFor(chunk, k) == i
  {
  }

  lemma {:induction false} RowInRange(steps: nat, dim: nat, i: nat)
    requires i < steps
    ensures 0 <= i * dim <= (i + 1) * dim <= steps * dim
  {
    NextRowFits(i, steps, dim);
  }

  /** Row i of a chunk as a buffered action. */
  function RowAction(cfg: Config, chunk: Chunk, i: nat): Action
    requires ShapeOk(cfg, chunk) && i < chunk.steps
  {
    RowInRange(chunk.steps, cfg.actionDim, i);
    Action(StepAt(chunk, i), chunk.requestId, chunk.representation,
           chunk.values[i * cfg.actionDim..(i + 1) * cfg.actionDim])
  }

  /** What the chunk predicts for control step k. */
  function Predicted(cfg: Config, chunk: Chunk, k: U64): Action
    requires ShapeOk(cfg, chunk) && Covers(chunk, k)
  {
    RowAction(cfg, chunk, RowFor(chunk, k))
  }

  // ----- Operations -----

  /** One iteration of the insert loop. */
  function InsertRow(cfg: Config, actions: map<U64, Action>, chunk: Chunk, minimum: U64, i: nat): map<U64, Action>
    requires ShapeOk(cfg, chunk) && i < chunk.steps
  {
    var k := StepAt(chunk, i);
    if k < minimum then actions
    else if k !in actions || actions[k].requestId <= chunk.requestId then actions[k := RowAction(cfg, chunk, i)]
    else actions
  }

  function Insert(cfg: Config, actions: map<U64, Action>, chunk: Chunk, minimum: U64, n: nat): map<U64, Action>
    requires ShapeOk(cfg, chunk) && n <= chunk.steps
  {
    if n == 0 then actions else InsertRow(cfg, Insert(cfg, actions, chunk, minimum, n - 1), chunk, minimum, n - 1)
  }

  predicate IsLargest(actions: map<U64, Action>, k: U64) {
    k in actions && forall j :: j in actions ==> j <= k
  }

  lemma {:induction false} LargestExists(keys: set<U64>) returns (k: U64)
    requires keys != {}
    ensures k in keys && forall j :: j in keys ==> j <= k
    decreases keys
  {
    var x :| x in keys;
    k := x;
    var rest := keys - {x};
    assert forall j :: j in keys ==> j == x || j in rest;
    if rest != {} {
      var m := LargestExists(rest);
      k := if m < x then x else m;
    }
  }

  ghost function LargestKey(actions: map<U64, Action>): U64
    requires |actions| > 0
    ensures IsLargest(actions, LargestKey(actions))
  {
    assert actions.Keys != {};
    assert exists k :: IsLargest(actions, k) by {
      var k := LargestExists(actions.Keys);
      assert IsLargest(actions, k);
    }
    var k :| IsLargest(actions, k);
    k
  }

  /** Erase the largest key until the buffer fits. */
  ghost function Truncate(actions: map<U64, Action>, capacity: nat): map<U64, Action>
    decreases |actions|
  {
    if |actions| <= capacity then actions else
      var k := LargestKey(actions);
      RemoveSize(actions, k);
      Truncate(actions - {k}, capacity)
  }

  lemma RemoveSize(actions: map<U64, Action>, k: U64)
    requires k in actions
    ensures |actions - {k}| == |actions| - 1
  {
    assert (actions - {k}).Keys == actions.Keys - {k};
  }

  const BAD_BUFFER := Error(InvalidArgument, "action buffer dimensions must be non-zero")
  const BAD_SHAPE := Error(InvalidArgument, "action chunk shape does not match the buffer")
  const STALE := Error(Cancelled, "action chunk is older than the latest buffered request")
  const NOT_READY := Error(NotReady, "no action is ready for this control step")

  function PushStatus(cfg: Config, s: State, chunk: Chunk): Status {
    if cfg.actionDim == 0 || cfg.capacity == 0 then BAD_BUFFER
    else if !ShapeOk(cfg, chunk) then BAD_SHAPE
    else if chunk.requestId < s.latest then STALE
    else Ok
  }

  predicate Accepts(cfg: Config, s: State, chunk: Chunk) {
    PushStatus(cfg, s, chunk).Ok?
  }

  ghost function ApplyPush(cfg: Config, s: State, chunk: Chunk): State {
    if !Accepts(cfg, s, chunk) then s
    else State(Truncate(Insert(cfg, s.actions, chunk, s.minimum, chunk.steps), cfg.capacity),
               s.minimum, if s.latest < chunk.requestId then chunk.requestId else s.latest)
  }

  function Next(k: U64): U64 {
    if k == MAX then k else k + 1
  }

  function FromStep(actions: map<U64, Action>, k: U64): map<U64, Action> {
    map j | j in actions && j >= k :: actions[j]
  }

  function ApplyPop(s: State, k: U64): State {
    State(FromStep(s.actions, k) - {k}, if s.minimum < Next(k) then Next(k) else s.minimum, s.latest)
  }

  function PopResult(s: State, k: U64): Result<Action> {
    if k in s.actions then Success(s.actions[k]) else Failure(NOT_READY)
  }

  // ----- Histories -----

  datatype Event = Push(chunk: Chunk) | Pop(step: U64) | Clear

  ghost function Apply(cfg: Config, s: State, e: Event): State {
    match e
    case Push(chunk) => ApplyPush(cfg, s, chunk)
    case Pop(k) => ApplyPop(s, k)
    case Clear => INIT
  }

  /** The buffer after a history of calls. */
  ghost function Replay(cfg: Config, events: seq<Event>): State {
    if events == [] then INIT else Apply(cfg, Replay(cfg, events[..|events| - 1]), events[|events| - 1])
  }

  /** The simple specification: the most recently accepted chunk since the last clear that covers step k. */
  ghost function Freshest(cfg: Config, events: seq<Event>, k: U64): Option<Chunk> {
    if events == [] then None
    else
      var before, last := events[..|events| - 1], events[|events| - 1];
      match last
      case Clear => None
      case Pop(_) => Freshest(cfg, before, k)
      case Push(chunk) =>
        if Accepts(cfg, Replay(cfg, before), chunk) && Covers(chunk, k) then Some(chunk)
        else Freshest(cfg, before, k)
  }

  // ----- What the loops compute -----

  /** The request guard of the insert loop always holds: nothing buffered is newer than an accepted chunk. */
  predicate NoNewer(actions: map<U64, Action>, requestId: U64) {
    forall k :: k in actions ==> actions[k].requestId <= requestId
  }

  /** After n rows: exactly the steps of those rows at or above the minimum were replaced or added. */
  ghost predicate MergedUpto(cfg: Config, actions: map<U64, Action>, chunk: Chunk, minimum: U64, n: nat, m: map<U64, Action>)
    requires ShapeOk(cfg, chunk) && n <= chunk.steps
  {
    && (forall k: U64 :: k in m <==> k in actions || (RowFor(chunk, k) < n && k >= minimum))
    && (forall k :: k in m ==> m[k] == if RowFor(chunk, k) < n && k >= minimum then Predicted(cfg, chunk, k) else actions[k])
  }

  lemma InsertOne(cfg: Config, actions: map<U64, Action>, chunk: Chunk, minimum: U64, n: nat, m: map<U64, Action>)
    requires ShapeOk(cfg, chunk) && n < chunk.steps
    requires MergedUpto(cfg, actions, chunk, minimum, n, m) && NoNewer(m, chunk.requestId)
    ensures MergedUpto(cfg, actions, chunk, minimum, n + 1, InsertRow(cfg, m, chunk, minimum, n))
    ensures NoNewer(InsertRow(cfg, m, chunk, minimum, n), chunk.requestId)
  {
    var k := StepAt(chunk, n);
    CoversIsStepAt(chunk, n, k);
    var m' := InsertRow(cfg, m, chunk, minimum, n);
    assert m' == if k < minimum then m else m[k := Predicted(cfg, chunk, k)];
    forall j: U64 ensures RowFor(chunk, j) == n <==> j == k {
      CoversIsStepAt(chunk, n, j);
    }
  }

  lemma {:induction false} InsertMerges(cfg: Config, actions: map<U64, Action>, chunk: Chunk, minimum: U64, n: nat)
    requires ShapeOk(cfg, chunk) && n <= chunk.steps && NoNewer(actions, chunk.requestId)
    ensures MergedUpto(cfg, actions, chunk, minimum, n, Insert(cfg, actions, chunk, minimum, n))
    ensures NoNewer(Insert(cfg, actions, chunk, minimum, n), chunk.requestId)
  {
    if n == 0 {
      NothingMerged(cfg, actions, chunk, minimum);
    } else {
      InsertMerges(cfg, actions, chunk, minimum, n - 1);
      InsertNext(cfg, actions, chunk, minimum, n - 1);
    }
  }

  lemma InsertNext(cfg: Config, actions: map<U64, Action>, chunk: Chunk, minimum: U64, n: nat)
    requires ShapeOk(cfg, chunk) && n < chunk.steps
    requires MergedUpto(cfg, actions, chunk, minimum, n, Insert(cfg, actions, chunk, minimum, n))
    requires NoNewer(Insert(cfg, actions, chunk, minimum, n), chunk.requestId)
    ensures MergedUpto(cfg, actions, chunk, minimum, n + 1, Insert(cfg, actions, chunk, minimum, n + 1))
    ensures NoNewer(Insert(cfg, actions, chunk, minimum, n + 1), chunk.requestId)
  {
    InsertOne(cfg, actions, chunk, minimum, n, Insert(cfg, actions, chunk, minimum, n));
  }

  lemma NothingMerged(cfg: Config, actions: map<U64, Action>, chunk: Chunk, minimum: U64)
    requires ShapeOk(cfg, chunk)
    ensures MergedUpto(cfg, actions, chunk, minimum, 0, actions)
  {
  }

  /** Truncation keeps the smallest keys: as many as fit, each below every key dropped, with their values. */
  predicate KeepsSmallest(whole: map<U64, Action>, kept: map<U64, Action>, capacity: nat) {
    && kept.Keys <= whole.Keys
    && (forall k :: k in kept ==> kept[k] == whole[k])
    && |kept| == (if |whole| <= capacity then |whole| else capacity)
    && (forall k, d :: k in kept && d in whole && d !in kept ==> k < d)
  }

  lemma {:induction false} TruncateKeepsSmallest(actions: map<U64, Action>, capacity: nat)
    ensures KeepsSmallest(actions, Truncate(actions, capacity), capacity)
    decreases |actions|
  {
    if |actions| > capacity {
      var k := LargestKey(actions);
      RemoveSize(actions, k);
      TruncateKeepsSmallest(actions - {k}, capacity);
    }
  }

  /** KeepsSmallest determines the result, so it is a complete description of the eviction loop. */
  lemma KeepsSmallestIsUnique(whole: map<U64, Action>, a: map<U64, Action>, b: map<U64, Action>, capacity: nat)
    requires KeepsSmallest(whole, a, capacity) && KeepsSmallest(whole, b, capacity)
    ensures a == b
  {
    if a.Keys <= b.Keys {
      SubsetSize(a.Keys, b.Keys);
    } else {
      var x :| x in a && x !in b;
      assert forall y :: y in b ==> y < x;
      assert forall y :: y in b && y !in a ==> x < y;
      assert b.Keys <= a.Keys;
      SubsetSize(b.Keys, a.Keys);
    }
  }

  // ----- Theorems over all histories -----

  predicate Inv(cfg: Config, s: State) {
    && NoNewer(s.actions, s.latest)
    && (forall k :: k in s.actions ==> k >= s.minimum && s.actions[k].controlStep == k)
    && |s.actions| <= cfg.capacity
  }

  /** An accepted push leaves exactly the smallest `capacity` steps of the merge, newest prediction first. */
  lemma PushIsTruncatedMerge(cfg: Config, s: State, chunk: Chunk)
    requires Inv(cfg, s) && Accepts(cfg, s, chunk)
    ensures var merge := Insert(cfg, s.actions, chunk, s.minimum, chunk.steps);
      && MergedUpto(cfg, s.actions, chunk, s.minimum, chunk.steps, merge)
      && KeepsSmallest(merge, ApplyPush(cfg, s, chunk).actions, cfg.capacity)
    ensures NoNewer(s.actions, chunk.requestId)
    ensures Inv(cfg, ApplyPush(cfg, s, chunk))
  {
    InsertMerges(cfg, s.actions, chunk, s.minimum, chunk.steps);
    var merge := Insert(cfg, s.actions, chunk, s.minimum, chunk.steps);
    TruncateKeepsSmallest(merge, cfg.capacity);
    forall k | k in merge ensures k >= s.minimum && merge[k].controlStep == k {
      if Covers(chunk, k) {
        CoversIsStepAt(chunk, RowFor(chunk, k), k);
      }
    }
  }

  lemma PopKeeps(cfg: Config, s: State, k: U64)
    requires Inv(cfg, s)
    ensures Inv(cfg, ApplyPop(s, k))
  {
    var s' := ApplyPop(s, k);
    assert s'.actions.Keys <= s.actions.Keys;
    SubsetSize(s'.actions.Keys, s.actions.Keys);
  }

  lemma {:induction false} ReplayInv(cfg: Config, events: seq<Event>)
    ensures Inv(cfg, Replay(cfg, events))
  {
    if events != [] {
      var before := events[..|events| - 1];
      ReplayInv(cfg, before);
      match events[|events| - 1]
      case Push(chunk) =>
        if Accepts(cfg, Replay(cfg, before), chunk) {
          PushIsTruncatedMerge(cfg, Replay(cfg, before), chunk);
        }
      case Pop(k) => PopKeeps(cfg, Replay(cfg, before), k);
      case Clear =>
    }
  }

  /** Step k of the buffer agrees with the specification. */
  ghost predicate Agrees(cfg: Config, events: seq<Event>, k: U64) {
    var actions, freshest := Replay(cfg, events).actions, Freshest(cfg, events, k);
    k in actions ==>
      && freshest.Some? && ShapeOk(cfg, freshest.value) && Covers(freshest.value, k)
      && actions[k] == Predicted(cfg, freshest.value, k)
  }

  /** Newest chunk wins, over every history: a buffered step holds exactly the row of the most recently
      accepted chunk since the last clear that covers it. */
  lemma {:induction false} BufferHoldsFreshest(cfg: Config, events: seq<Event>, k: U64)
    ensures Agrees(cfg, events, k)
  {
    if events != [] {
      var before := events[..|events| - 1];
      BufferHoldsFreshest(cfg, before, k);
      ReplayInv(cfg, before);
      match events[|events| - 1]
      case Push(chunk) =>
        if Accepts(cfg, Replay(cfg, before), chunk) {
          PushIsTruncatedMerge(cfg, Replay(cfg, before), chunk);
        }
      case Pop(_) =>
      case Clear =>
    }
  }

  /** The action is row r of the chunk, entry for entry. */
  ghost predicate IsRow(cfg: Config, chunk: Chunk, r: nat, k: U64, action: Action) {
    && action.controlStep == k && action.requestId == chunk.requestId && action.representation == chunk.representation
    && |action.values| == cfg.actionDim
    && forall d :: 0 <= d < cfg.actionDim ==>
         0 <= r * cfg.actionDim + d < |chunk.values| && action.values[d] == chunk.values[r * cfg.actionDim + d]
  }

  lemma PredictedIsRow(cfg: Config, chunk: Chunk, k: U64)
    requires ShapeOk(cfg, chunk) && Covers(chunk, k)
    ensures IsRow(cfg, chunk, RowFor(chunk, k), k, Predicted(cfg, chunk, k))
  {
    CoversIsStepAt(chunk, RowFor(chunk, k), k);
    RowInRange(chunk.steps, cfg.actionDim, RowFor(chunk, k));
    NextRowFits(RowFor(chunk, k), chunk.steps, cfg.actionDim);
  }

  /** A successful pop returns the freshest prediction for its control step: the row of that chunk that lies as far
      from its first row as the step lies from its first step, counting modulo 2^64. */
  lemma PopReturnsFreshest(cfg: Config, events: seq<Event>, k: U64)
    requires PopResult(Replay(cfg, events), k).Success?
    ensures var chunk := Freshest(cfg, events, k);
      && chunk.Some? && ShapeOk(cfg, chunk.value) && Covers(chunk.value, k)
      && var r := if k >= chunk.value.firstStep then k - chunk.value.firstStep
                  else k + 0x1_0000_0000_0000_0000 - chunk.value.firstStep;
         IsRow(cfg, chunk.value, r, k, PopResult(Replay(cfg, events), k).value)
  {
    BufferHoldsFreshest(cfg, events, k);
    PredictedIsRow(cfg, Freshest(cfg, events, k).value, k);
  }

  predicate NoClear(events: seq<Event>, i: nat, j: nat) {
    forall m :: i <= m < j && m < |events| ==> !events[m].Clear?
  }

  lemma ReplaySnoc(cfg: Config, events: seq<Event>, j: nat)
    requires j < |events|
    ensures Replay(cfg, events[..j + 1]) == Apply(cfg, Replay(cfg, events[..j]), events[j])
  {
    assert events[..j + 1][..j] == events[..j];
  }

  // ----- Exactly which steps are buffered -----

  /** The steps below k that are in the buffer or in the chunk, and so come before k when the buffer is cut to size. */
  function Rivals(s: State, chunk: Chunk, k: U64): set<U64> {
    (set j | j in s.actions && j < k) +
    (set i | 0 <= i < chunk.steps && s.minimum <= StepAt(chunk, i) < k :: StepAt(chunk, i))
  }

  lemma RivalsAreBelow(cfg: Config, s: State, chunk: Chunk, merge: map<U64, Action>, k: U64)
    requires ShapeOk(cfg, chunk) && MergedUpto(cfg, s.actions, chunk, s.minimum, chunk.steps, merge)
    ensures Rivals(s, chunk, k) == set j | j in merge && j < k
  {
    forall j: U64 ensures j in Rivals(s, chunk, k) <==> j in merge && j < k {
      if Covers(chunk, j) {
        CoversIsStepAt(chunk, RowFor(chunk, j), j);
      }
      if i :| 0 <= i < chunk.steps && StepAt(chunk, i) == j {
        CoversIsStepAt(chunk, i, j);
      }
    }
  }

  /** Cutting to size keeps a key exactly when fewer than `capacity` keys are smaller. */
  lemma KeptIffFewSmaller(whole: map<U64, Action>, kept: map<U64, Action>, capacity: nat, k: U64)
    requires KeepsSmallest(whole, kept, capacity) && k in whole
    ensures k in kept <==> |set j | j in whole && j < k| < capacity
  {
    var below := set j | j in whole && j < k;
    if k in kept {
      assert below + {k} <= kept.Keys;
      SubsetSize(below + {k}, kept.Keys);
      assert |below + {k}| == |below| + 1;
    } else {
      assert kept.Keys <= below;
      SubsetSize(kept.Keys, below);
      SubsetSize(kept.Keys, whole.Keys);
    }
  }

  /** An accepted push, step by step: a step is buffered afterwards if and only if it was before or the chunk covers it at
      or above the minimum, and it has fewer than `capacity` rivals; covered steps hold the row of the chunk. */
  lemma PushBuffers(cfg: Config, s: State, chunk: Chunk, k: U64)
    requires Inv(cfg, s) && Accepts(cfg, s, chunk)
    ensures k in ApplyPush(cfg, s, chunk).actions <==>
            (k in s.actions || (Covers(chunk, k) && k >= s.minimum)) && |Rivals(s, chunk, k)| < cfg.capacity
    ensures k in ApplyPush(cfg, s, chunk).actions ==>
              ApplyPush(cfg, s, chunk).actions[k] == if Covers(chunk, k) then Predicted(cfg, chunk, k) else s.actions[k]
  {
    PushIsTruncatedMerge(cfg, s, chunk);
    var merge := Insert(cfg, s.actions, chunk, s.minimum, chunk.steps);
    RivalsAreBelow(cfg, s, chunk, merge, k);
    if k in merge {
      KeptIffFewSmaller(merge, ApplyPush(cfg, s, chunk).actions, cfg.capacity, k);
    }
  }

  /** A pop drops its own step and the ones before it, and nothing else. */
  lemma PopKeepsLater(s: State, k: U64, j: U64)
    ensures j in ApplyPop(s, k).actions <==> j in s.actions && j > k
    ensures j in ApplyPop(s, k).actions ==> ApplyPop(s, k).actions[j] == s.actions[j]
  {
  }

  /** Call i of the history is a push that is accepted and offers step k. */
  ghost predicate Offers(cfg: Config, events: seq<Event>, i: nat, k: U64) {
    && i < |events| && events[i].Push? && Accepts(cfg, Replay(cfg, events[..i]), events[i].chunk)
    && Covers(events[i].chunk, k) && k >= Replay(cfg, events[..i]).minimum
  }

  /** Call j of the history does not remove step k: a pop is for an earlier step, and a chunk that is accepted leaves
      fewer than `capacity` rivals. */
  ghost predicate Spares(cfg: Config, events: seq<Event>, j: nat, k: U64) {
    && j < |events|
    && match events[j] {
         case Clear => false
         case Pop(p) => p < k
         case Push(chunk) =>
           var s := Replay(cfg, events[..j]);
           Accepts(cfg, s, chunk) ==> |Rivals(s, chunk, k)| < cfg.capacity
       }
  }

  lemma BufferedStep(cfg: Config, events: seq<Event>, n: nat, k: U64)
    requires n < |events|
    ensures k in Replay(cfg, events[..n + 1]).actions <==>
            (k in Replay(cfg, events[..n]).actions || Offers(cfg, events, n, k)) && Spares(cfg, events, n, k)
  {
    ReplaySnoc(cfg, events, n);
    ReplayInv(cfg, events[..n]);
    var s := Replay(cfg, events[..n]);
    match events[n]
    case Push(chunk) =>
      if Accepts(cfg, s, chunk) {
        PushBuffers(cfg, s, chunk, k);
      }
    case Pop(p) => PopKeepsLater(s, p, k);
    case Clear =>
  }

  /** Call i offered step k and no call from it on, up to call n, has removed it. */
  ghost predicate BufferedBy(cfg: Config, events: seq<Event>, i: nat, n: nat, k: U64) {
    i < n && Offers(cfg, events, i, k) && forall j :: i <= j < n ==> Spares(cfg, events, j, k)
  }

  lemma BufferedByNext(cfg: Config, events: seq<Event>, i: nat, n: nat, k: U64)
    requires n < |events|
    ensures BufferedBy(cfg, events, i, n + 1, k) <==>
            (BufferedBy(cfg, events, i, n, k) || (i == n && Offers(cfg, events, n, k))) && Spares(cfg, events, n, k)
  {
  }

  /** Over every history, exactly which steps are buffered: those that some accepted chunk has offered and that no call
      from that one on has removed. */
  lemma {:induction false} BufferedIff(cfg: Config, events: seq<Event>, n: nat, k: U64)
    requires n <= |events|
    ensures k in Replay(cfg, events[..n]).actions <==> exists i: nat :: BufferedBy(cfg, events, i, n, k)
  {
    if n > 0 {
      var m: nat := n - 1;
      BufferedIff(cfg, events, m, k);
      BufferedStep(cfg, events, m, k);
      if i: nat :| BufferedBy(cfg, events, i, n, k) {
        BufferedByNext(cfg, events, i, m, k);
      }
      if k in Replay(cfg, events[..n]).actions {
        if i: nat :| BufferedBy(cfg, events, i, m, k) {
          BufferedByNext(cfg, events, i, m, k);
        } else {
          BufferedByNext(cfg, events, m, m, k);
        }
      }
    }
  }

  /** Call i is a pop, and there has been no clear since. */
  predicate RequestedAt(events: seq<Event>, i: nat, n: nat) {
    i < n <= |events| && events[i].Pop? && NoClear(events, i, n)
  }

  /** Call i pushes a well-formed chunk, and there has been no clear since. */
  predicate PushedAt(cfg: Config, events: seq<Event>, i: nat, n: nat) {
    i < n <= |events| && events[i].Push? && ShapeOk(cfg, events[i].chunk) && NoClear(events, i, n)
  }

  lemma SinceNext(cfg: Config, events: seq<Event>, i: nat, n: nat)
    requires n < |events|
    ensures RequestedAt(events, i, n + 1) <==>
            !events[n].Clear? && (RequestedAt(events, i, n) || (i == n && events[n].Pop?))
    ensures PushedAt(cfg, events, i, n + 1) <==>
            !events[n].Clear? && (PushedAt(cfg, events, i, n) || (i == n && events[n].Push? && ShapeOk(cfg, events[n].chunk)))
  {
  }

  /** The minimum, as the client knows it: a step is below it exactly when it has been requested, or a later one has,
      since the last clear; the saturated maximum never is. */
  lemma {:induction false} MinimumIff(cfg: Config, events: seq<Event>, n: nat, k: U64)
    requires n <= |events|
    ensures k >= Replay(cfg, events[..n]).minimum <==>
            forall i: nat :: RequestedAt(events, i, n) ==> events[i].step < k || events[i].step == k == MAX
  {
    if n > 0 {
      MinimumIff(cfg, events, n - 1, k);
      ReplaySnoc(cfg, events, n - 1);
      forall i: nat
        ensures RequestedAt(events, i, n) <==>
                !events[n - 1].Clear? && (RequestedAt(events, i, n - 1) || (i == n - 1 && events[n - 1].Pop?))
      {
        SinceNext(cfg, events, i, n - 1);
      }
      assert events[n - 1].Pop? ==> RequestedAt(events, n - 1, n);
    }
  }

  /** The latest request, as the client knows it: the largest id of a well-formed chunk pushed since the last clear. */
  lemma {:induction false} LatestIff(cfg: Config, events: seq<Event>, n: nat, r: nat)
    requires n <= |events| && cfg.actionDim != 0 && cfg.capacity != 0
    ensures Replay(cfg, events[..n]).latest <= r <==>
            forall i: nat :: PushedAt(cfg, events, i, n) ==> events[i].chunk.requestId <= r
  {
    if n > 0 {
      LatestIff(cfg, events, n - 1, r);
      LatestStep(cfg, events, n - 1);
      forall i: nat
        ensures PushedAt(cfg, events, i, n) <==>
                !events[n - 1].Clear? &&
                (PushedAt(cfg, events, i, n - 1) || (i == n - 1 && events[n - 1].Push? && ShapeOk(cfg, events[n - 1].chunk)))
      {
        SinceNext(cfg, events, i, n - 1);
      }
      assert !events[n - 1].Push? || !ShapeOk(cfg, events[n - 1].chunk) || PushedAt(cfg, events, n - 1, n);
    }
  }

  lemma LatestStep(cfg: Config, events: seq<Event>, n: nat)
    requires n < |events| && cfg.actionDim != 0 && cfg.capacity != 0
    ensures var before, after := Replay(cfg, events[..n]).latest, Replay(cfg, events[..n + 1]).latest;
      && (events[n].Clear? ==> after == 0)
      && (events[n].Pop? ==> after == before)
      && (events[n].Push? ==>
            after == if ShapeOk(cfg, events[n].chunk) && before < events[n].chunk.requestId then events[n].chunk.requestId
                     else before)
  {
    ReplaySnoc(cfg, events, n);
  }

  /** So a chunk is accepted if and only if the buffer has a shape, the chunk has that shape, and no well-formed chunk
      with a larger request id has been pushed since the last clear. */
  lemma AcceptsIff(cfg: Config, events: seq<Event>, n: nat, chunk: Chunk)
    requires n <= |events|
    ensures Accepts(cfg, Replay(cfg, events[..n]), chunk) <==>
            && cfg.actionDim != 0 && cfg.capacity != 0
            && chunk.actionDim == cfg.actionDim && chunk.steps != 0 && |chunk.values| == chunk.steps * chunk.actionDim
            && forall i: nat :: PushedAt(cfg, events, i, n) ==> events[i].chunk.requestId <= chunk.requestId
  {
    if cfg.actionDim != 0 && cfg.capacity != 0 {
      LatestIff(cfg, events, n, chunk.requestId);
    }
  }

  /** The freshest chunk without the recursion: it was accepted and covers the step, and since then there was neither a
      clear nor another accepted chunk that covers it. */
  lemma {:induction false} FreshestIsLast(cfg: Config, events: seq<Event>, n: nat, k: U64) returns (i: nat)
    requires n <= |events| && Freshest(cfg, events[..n], k).Some?
    ensures i < n && events[i] == Push(Freshest(cfg, events[..n], k).value)
    ensures Accepts(cfg, Replay(cfg, events[..i]), events[i].chunk) && Covers(events[i].chunk, k)
    ensures NoClear(events, i, n)
    ensures forall j :: i < j < n && events[j].Push? && Covers(events[j].chunk, k) ==>
              !Accepts(cfg, Replay(cfg, events[..j]), events[j].chunk)
  {
    assert events[..n][..n - 1] == events[..n - 1];
    var last := events[n - 1];
    if last.Push? && Accepts(cfg, Replay(cfg, events[..n - 1]), last.chunk) && Covers(last.chunk, k) {
      i := n - 1;
    } else {
      i := FreshestIsLast(cfg, events, n - 1, k);
    }
  }

  lemma {:induction false} MinimumGrows(cfg: Config, events: seq<Event>, i: nat, j: nat)
    requires i <= j <= |events| && NoClear(events, i, j)
    ensures Replay(cfg, events[..i]).minimum <= Replay(cfg, events[..j]).minimum
    decreases j
  {
    if i < j {
      MinimumGrows(cfg, events, i, j - 1);
      ReplaySnoc(cfg, events, j - 1);
    }
  }

  /** After control step p has been requested, nothing at or before it is buffered until the next clear,
      whatever chunks arrive; only the saturated maximum can come back. */
  lemma NothingReintroduced(cfg: Config, events: seq<Event>, i: nat, j: nat, k: U64)
    requires i < j <= |events| && events[i].Pop? && NoClear(events, i, j)
    requires k in Replay(cfg, events[..j]).actions
    ensures k > events[i].step || k == events[i].step == MAX
  {
    ReplaySnoc(cfg, events, i);
    MinimumGrows(cfg, events, i + 1, j);
    ReplayInv(cfg, events[..j]);
  }

  /** Popped control steps strictly increase between clears, below the saturated maximum. */
  lemma PopsIncrease(cfg: Config, events: seq<Event>, i: nat, j: nat)
    requires i < j < |events| && events[i].Pop? && events[j].Pop? && NoClear(events, i, j)
    requires PopResult(Replay(cfg, events[..j]), events[j].step).Success?
    ensures events[i].step < events[j].step <==> events[i].step != MAX
  {
    NothingReintroduced(cfg, events, i, j, events[j].step);
  }

  /** At the saturated maximum the order is not strict: the same step can be popped twice. */
  lemma MaximumCanRepeat(chunk: Chunk)
    requires chunk == Chunk(0, MAX, 1, 1, Absolute, chunk.values) && |chunk.values| == 1
    ensures var cfg, events := Config(1, 1), [Push(chunk), Pop(MAX), Push(chunk), Pop(MAX)];
      && PopResult(Replay(cfg, events[..1]), MAX).Success?
      && PopResult(Replay(cfg, events[..3]), MAX).Success?
  {
    var cfg := Config(1, 1);
    var events := [Push(chunk), Pop(MAX), Push(chunk), Pop(MAX)];
    MaximumPushedTwice(cfg, chunk);
    ReplayOne(cfg, Push(chunk));
    ReplayThree(cfg, Push(chunk), Pop(MAX), Push(chunk));
    assert events[..1] == [Push(chunk)] && events[..3] == [Push(chunk), Pop(MAX), Push(chunk)];
  }

  lemma ReplayOne(cfg: Config, a: Event)
    ensures Replay(cfg, [a]) == Apply(cfg, INIT, a)
  {
    assert [a][..0] == [];
  }

  lemma ReplayThree(cfg: Config, a: Event, b: Event, c: Event)
    ensures Replay(cfg, [a, b, c]) == Apply(cfg, Apply(cfg, Apply(cfg, INIT, a), b), c)
  {
    ReplayOne(cfg, a);
    assert [a, b, c][..2] == [a, b] && [a, b][..1] == [a];
  }

  /** Push, pop, push: the maximum is there after the first push and again after the second. */
  lemma MaximumPushedTwice(cfg: Config, chunk: Chunk)
    requires cfg == Config(1, 1) && chunk == Chunk(0, MAX, 1, 1, Absolute, chunk.values) && |chunk.values| == 1
    ensures var s1 := ApplyPush(cfg, INIT, chunk);
      PopResult(s1, MAX).Success? && PopResult(ApplyPush(cfg, ApplyPop(s1, MAX), chunk), MAX).Success?
  {
    var s1 := ApplyPush(cfg, INIT, chunk);
    MaximumIsInserted(cfg, INIT, chunk);
    var s2 := ApplyPop(s1, MAX);
    assert s2.actions == map[];
    MaximumIsInserted(cfg, s2, chunk);
  }

  lemma MaximumIsInserted(cfg: Config, s: State, chunk: Chunk)
    requires cfg == Config(1, 1) && chunk == Chunk(0, MAX, 1, 1, Absolute, chunk.values) && |chunk.values| == 1
    requires s.actions == map[] && s.latest == 0
    ensures ApplyPush(cfg, s, chunk).actions == map[MAX := RowAction(cfg, chunk, 0)]
    ensures ApplyPush(cfg, s, chunk).latest == 0
  {
    var merge := Insert(cfg, s.actions, chunk, s.minimum, 1);
    assert Insert(cfg, s.actions, chunk, s.minimum, 0) == map[];
    assert merge == map[MAX := RowAction(cfg, chunk, 0)];
    assert merge.Keys == {MAX};
    assert |merge| == 1;
  }

  // ----- The buffer object -----

  /** What an accepted chunk makes of the buffered actions. */
  ghost predicate Pushed(cfg: Config, s: State, chunk: Chunk, actions: map<U64, Action>)
    requires ShapeOk(cfg, chunk)
  {
    && (forall k: U64 :: k in actions <==>
          (k in s.actions || (Covers(chunk, k) && k >= s.minimum)) && |Rivals(s, chunk, k)| < cfg.capacity)
    && (forall k :: k in actions ==> actions[k] == if Covers(chunk, k) then Predicted(cfg, chunk, k) else s.actions[k])
  }

  lemma AllPushed(cfg: Config, s: State, chunk: Chunk)
    requires Inv(cfg, s) && Accepts(cfg, s, chunk)
    ensures Pushed(cfg, s, chunk, ApplyPush(cfg, s, chunk).actions) && Inv(cfg, ApplyPush(cfg, s, chunk))
  {
    PushIsTruncatedMerge(cfg, s, chunk);
    var actions := ApplyPush(cfg, s, chunk).actions;
    forall k: U64
      ensures k in actions <==>
              (k in s.actions || (Covers(chunk, k) && k >= s.minimum)) && |Rivals(s, chunk, k)| < cfg.capacity
      ensures k in actions ==> actions[k] == if Covers(chunk, k) then Predicted(cfg, chunk, k) else s.actions[k]
    {
      PushBuffers(cfg, s, chunk, k);
    }
  }

  class Buffer {
    const cfg: Config
    var actions: map<U64, Action>
    var minimum: U64
    var latest: U64

    ghost function Abs(): State
      reads this
    {
      State(actions, minimum, latest)
    }

    constructor (cfg: Config)
      ensures this.cfg == cfg && Abs() == INIT
    {
      this.cfg, actions, minimum, latest := cfg, map[], 0, 0;
    }

    method Push(chunk: Chunk) returns (status: Status)
      modifies this
      ensures status == PushStatus(cfg, old(Abs()), chunk)
      ensures Abs() == ApplyPush(cfg, old(Abs()), chunk)
      ensures status.Error? ==> Abs() == old(Abs()) && status.code == if status == STALE then Cancelled else InvalidArgument
      ensures status == BAD_BUFFER <==> cfg.actionDim == 0 || cfg.capacity == 0
      ensures status == BAD_SHAPE <==>
                && cfg.actionDim != 0 && cfg.capacity != 0
                && !(chunk.actionDim == cfg.actionDim && chunk.steps != 0 && |chunk.values| == chunk.steps * chunk.actionDim)
      ensures status == STALE <==>
                cfg.actionDim != 0 && cfg.capacity != 0 && ShapeOk(cfg, chunk) && chunk.requestId < old(latest)
      ensures status.Ok? ==> minimum == old(minimum) && latest == chunk.requestId
      ensures status.Ok? && Inv(cfg, old(Abs())) ==> Inv(cfg, Abs()) && Pushed(cfg, old(Abs()), chunk, actions)
    {
      if Inv(cfg, Abs()) && Accepts(cfg, Abs(), chunk) {
        AllPushed(cfg, Abs(), chunk);
      }
      if cfg.actionDim == 0 || cfg.capacity == 0 {
        return BAD_BUFFER;
      }
      if chunk.actionDim != cfg.actionDim || chunk.steps == 0 || |chunk.values| != chunk.steps * chunk.actionDim {
        return BAD_SHAPE;
      }
      if chunk.requestId < latest {
        return STALE;
      }
      latest := if latest < chunk.requestId then chunk.requestId else latest;
      MergeRows(chunk);
      EvictLargest();
      status := Ok;
    }

    /** Lines 32-49: write the rows of the chunk over the buffer. */
    method MergeRows(chunk: Chunk)
      requires ShapeOk(cfg, chunk)
      modifies `actions
      ensures actions == Insert(cfg, old(actions), chunk, minimum, chunk.steps)
    {
      for index := 0 to chunk.steps
        invariant actions == Insert(cfg, old(actions), chunk, minimum, index)
      {
        var step := StepAt(chunk, index);
        if step >= minimum {
          if step !in actions || actions[step].requestId <= chunk.requestId {
            actions := actions[step := RowAction(cfg, chunk, index)];
          }
        }
      }
    }

    /** Lines 51-53: erase from the far end until the buffer fits. */
    method EvictLargest()
      modifies `actions
      ensures actions == Truncate(old(actions), cfg.capacity)
    {
      while |actions| > cfg.capacity
        invariant Truncate(actions, cfg.capacity) == Truncate(old(actions), cfg.capacity)
        decreases |actions|
      {
        ghost var largest := LargestKey(actions);
        var last: U64 :| last in actions && IsLargest(actions, last);
        RemoveSize(actions, last);
        assert IsLargest(actions, last) && last <= largest <= last;
        actions := actions - {last};
      }
    }

    method Pop(step: U64) returns (result: Result<Action>)
      modifies this
      ensures result == PopResult(old(Abs()), step)
      ensures Abs() == ApplyPop(old(Abs()), step)
      ensures result == if step in old(actions) then Success(old(actions)[step]) else Failure(NOT_READY)
      ensures result.Failure? ==> result.status.Error? && result.status.code == NotReady
      ensures forall k :: k in actions <==> k in old(actions) && k > step
      ensures forall k :: k in actions ==> actions[k] == old(actions)[k]
      ensures latest == old(latest)
      ensures minimum == if old(minimum) > step then old(minimum) else if step == MAX then MAX else step + 1
    {
      actions := FromStep(actions, step);
      var next := if step == MAX then step else step + 1;
      minimum := if minimum < next then next else minimum;
      if step !in actions {
        assert actions - {step} == actions;
        return Failure(NOT_READY);
      }
      result := Success(actions[step]);
      actions := actions - {step};
    }

    method Clear()
      modifies this
      ensures Abs() == INIT
    {
      actions, minimum, latest := map[], 0, 0;
    }
  }
}
