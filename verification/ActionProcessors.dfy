/** src/processors.cpp: decoding delta actions and filtering actions for safety.
    Numbers are exact reals with the three non-finite values of IEEE 754. */
module ActionProcessors {
  import opened Collections
  import opened Statuses

  datatype Float = Finite(value: real) | NaN | PosInf | NegInf

  datatype SafetyConfig = SafetyConfig(
    lowerBounds: seq<real>, upperBounds: seq<real>, maximumDelta: seq<real>, rejectNonFinite: bool)

  // ----- Floating-point arithmetic, without rounding -----

  function Negate(a: Float): Float {
    match a
    case Finite(x) => Finite(-x)
    case NaN => NaN
    case PosInf => NegInf
    case NegInf => PosInf
  }

  /** Section 6 of IEEE 754-2019: NaN comes from a NaN or from opposite infinities, and an infinity wins otherwise. */
  function Add(a: Float, b: Float): (r: Float)
    ensures r.NaN? <==> a.NaN? || b.NaN? || (a.PosInf? && b.NegInf?) || (a.NegInf? && b.PosInf?)
    ensures r.Finite? <==> a.Finite? && b.Finite?
    ensures r.Finite? ==> r.value == a.value + b.value
    ensures r.PosInf? ==> a.PosInf? || b.PosInf?
    ensures r.NegInf? ==> a.NegInf? || b.NegInf?
  {
    if a.Finite? && b.Finite? then Finite(a.value + b.value)
    else if a.NaN? || b.NaN? || (a.PosInf? && b.NegInf?) || (a.NegInf? && b.PosInf?) then NaN
    else if a.PosInf? || b.PosInf? then PosInf else NegInf
  }

  /** The operator <: false whenever a NaN takes part. */
  predicate Less(a: Float, b: Float) {
    match a
    case Finite(x) => b.PosInf? || (b.Finite? && x < b.value)
    case NegInf => b.Finite? || b.PosInf?
    case _ => false
  }

  /** Apart from NaN the numbers are totally ordered, from negative to positive infinity. */
  lemma LessIsStrictOrder(a: Float, b: Float, c: Float)
    ensures Less(a, b) ==> !a.NaN? && !b.NaN? && !Less(b, a) && a != b
    ensures !a.NaN? && !b.NaN? ==> Less(a, b) || Less(b, a) || a == b
    ensures Less(a, b) && Less(b, c) ==> Less(a, c)
    ensures a.Finite? && b.Finite? ==> (Less(a, b) <==> a.value < b.value)
    ensures a.Finite? ==> Less(NegInf, a) && Less(a, PosInf)
  {
  }

  /** std::clamp. */
  function Clamp(v: Float, low: Float, high: Float): Float {
    if Less(v, low) then low else if Less(high, v) then high else v
  }

  // ----- One value -----

  /** `element_or` with an infinite fallback: no entry means no bound. */
  function ElementOr(values: seq<real>, index: nat): Option<real>
    requires |values| <= 1 || index < |values|
  {
    if values == [] then None else if |values| == 1 then Some(values[0]) else Some(values[index])
  }

  /** The limits that apply to one dimension. */
  datatype Limits = Limits(lower: Option<real>, upper: Option<real>, delta: Option<real>)

  predicate Consistent(l: Limits) {
    && (l.lower.Some? && l.upper.Some? ==> l.lower.value <= l.upper.value)
    && (l.delta.Some? ==> l.delta.value >= 0.0)
  }

  predicate InBox(l: Limits, y: real) {
    (l.lower.Some? ==> l.lower.value <= y) && (l.upper.Some? ==> y <= l.upper.value)
  }

  predicate InWindow(l: Limits, previous: real, y: real) {
    l.delta.Some? ==> previous - l.delta.value <= y <= previous + l.delta.value
  }

  function ClampBox(l: Limits, y: real): real {
    if l.lower.Some? && y < l.lower.value then l.lower.value
    else if l.upper.Some? && l.upper.value < y then l.upper.value
    else y
  }

  function ClampWindow(l: Limits, previous: real, y: real): real {
    if l.delta.None? then y
    else if y < previous - l.delta.value then previous - l.delta.value
    else if previous + l.delta.value < y then previous + l.delta.value
    else y
  }

  /** Lines 217-221: clamp to the box, to the slew window, and to the box again. */
  function Limit(l: Limits, previous: real, y: real): real {
    ClampBox(l, ClampWindow(l, previous, ClampBox(l, y)))
  }

  function Abs(x: real): real {
    if x < 0.0 then -x else x
  }

  /** The box and the slew window have a point in common. */
  predicate CanReach(l: Limits, previous: real) {
    l.delta.Some? ==>
      && (l.lower.Some? ==> l.lower.value <= previous + l.delta.value)
      && (l.upper.Some? ==> previous - l.delta.value <= l.upper.value)
  }

  lemma LimitIsSafe(l: Limits, previous: real, y: real)
    requires Consistent(l)
    ensures InBox(l, Limit(l, previous, y))
    ensures InWindow(l, previous, Limit(l, previous, y)) <==> CanReach(l, previous)
    ensures InBox(l, previous) ==> CanReach(l, previous)
  {
  }

  /** The first of the three clamps changes nothing. */
  lemma FirstClampIsRedundant(l: Limits, previous: real, y: real)
    requires Consistent(l)
    ensures Limit(l, previous, y) == ClampBox(l, ClampWindow(l, previous, y))
  {
  }

  /** The output is the nearest point of box and window to the input. */
  lemma LimitIsNearest(l: Limits, previous: real, y: real, z: real)
    requires Consistent(l) && InBox(l, z) && InWindow(l, previous, z)
    ensures Abs(Limit(l, previous, y) - y) <= Abs(z - y)
    ensures Abs(z - y) == Abs(Limit(l, previous, y) - y) ==> z == Limit(l, previous, y)
  {
  }

  lemma LimitIsIdempotent(l: Limits, previous: real, y: real)
    requires Consistent(l)
    ensures Limit(l, previous, Limit(l, previous, y)) == Limit(l, previous, y)
  {
  }

  /** The same three clamps on floating-point numbers, an absent bound being an infinity. */
  function LimitFloat(l: Limits, previous: Float, y: Float): Float {
    var lower := if l.lower.Some? then Finite(l.lower.value) else NegInf;
    var upper := if l.upper.Some? then Finite(l.upper.value) else PosInf;
    var delta := if l.delta.Some? then Finite(l.delta.value) else PosInf;
    Clamp(Clamp(Clamp(y, lower, upper), Add(previous, Negate(delta)), Add(previous, delta)), lower, upper)
  }

  /** On finite numbers this is `Limit`. */
  lemma LimitFloatIsLimit(l: Limits, previous: real, y: real)
    requires Consistent(l)
    ensures LimitFloat(l, Finite(previous), Finite(y)) == Finite(Limit(l, previous, y))
  {
  }

  /** What the filter wants: the action, or the previous value in place of one that is not finite. */
  function Wanted(previous: Float, action: Float): Float {
    if action.Finite? then action else previous
  }

  /** After this action the dimension is finite, whatever it was before. */
  predicate Recovers(l: Limits, previous: Float, action: Float) {
    match previous
    case Finite(_) => true
    case NaN => action.Finite?
    case PosInf => l.upper.Some? || (l.delta.None? && action.Finite?)
    case NegInf => l.lower.Some? || (l.delta.None? && action.Finite?)
  }

  /** An output is finite, and then in its box, exactly when the dimension recovers. */
  lemma FiniteIffRecovers(l: Limits, previous: Float, action: Float)
    requires Consistent(l)
    ensures var out := LimitFloat(l, previous, Wanted(previous, action));
      && (out.Finite? <==> Recovers(l, previous, action))
      && (out.Finite? ==> InBox(l, out.value))
  {
    if previous.Finite? {
      var y := Wanted(previous, action).value;
      LimitFloatIsLimit(l, previous.value, y);
      LimitIsSafe(l, previous.value, y);
    }
  }

  // ----- A whole trajectory -----

  predicate SizeOk(values: seq<real>, dim: nat) {
    |values| <= 1 || |values| == dim
  }

  predicate SizesOk(cfg: SafetyConfig, dim: nat) {
    SizeOk(cfg.lowerBounds, dim) && SizeOk(cfg.upperBounds, dim) && SizeOk(cfg.maximumDelta, dim)
  }

  function LimitsOf(cfg: SafetyConfig, dim: nat, d: nat): Limits
    requires SizesOk(cfg, dim) && d < dim
  {
    Limits(ElementOr(cfg.lowerBounds, d), ElementOr(cfg.upperBounds, d), ElementOr(cfg.maximumDelta, d))
  }

  /** Trajectories are stored row-major: the dimension that flat entry i belongs to. */
  function DimensionOf(i: nat, dim: nat): (d: nat)
    requires dim > 0
    ensures d < dim
  {
    if i < dim then i else DimensionOf(i - dim, dim)
  }

  lemma {:induction false} DimensionOfEntry(step: nat, dim: nat, d: nat)
    requires d < dim
    ensures DimensionOf(step * dim + d, dim) == d
  {
    if step > 0 {
      DimensionOfEntry(step - 1, dim, d);
      assert step * dim + d == (step - 1) * dim + d + dim;
    }
  }

  /** The trajectory so far in the dimension of entry i: the start state, or the output one step earlier. */
  function Previous(cfg: SafetyConfig, start: seq<real>, input: seq<Float>, dim: nat, i: nat): real
    requires dim > 0 && |start| == dim && SizesOk(cfg, dim) && i < |input| + dim
    decreases i, 0
  {
    if i < dim then start[i] else Filtered(cfg, start, input, dim, i - dim)
  }

  /** Entry i of the filtered trajectory, row-major. */
  function Filtered(cfg: SafetyConfig, start: seq<real>, input: seq<Float>, dim: nat, i: nat): real
    requires dim > 0 && |start| == dim && SizesOk(cfg, dim) && i < |input|
    decreases i, 1
  {
    var previous := Previous(cfg, start, input, dim, i);
    var wanted := if input[i].Finite? then input[i].value else previous;
    Limit(LimitsOf(cfg, dim, DimensionOf(i, dim)), previous, wanted)
  }

  /** Entry d of a configured vector, or its only entry, is the bound x; an empty vector bounds nothing. */
  predicate Bounds(values: seq<real>, d: nat, x: real) {
    (|values| == 1 && x == values[0]) || (1 < |values| && d < |values| && x == values[d])
  }

  /** y respects the configured bounds of dimension d. */
  ghost predicate WithinBounds(cfg: SafetyConfig, d: nat, y: real) {
    && (forall x :: Bounds(cfg.lowerBounds, d, x) ==> x <= y)
    && (forall x :: Bounds(cfg.upperBounds, d, x) ==> y <= x)
  }

  /** A move from x to y respects the configured slew limit of dimension d. */
  ghost predicate WithinSlew(cfg: SafetyConfig, d: nat, x: real, y: real) {
    forall delta :: Bounds(cfg.maximumDelta, d, delta) ==> x - delta <= y <= x + delta
  }

  /** The configured bounds of dimension d do not contradict each other. */
  ghost predicate BoundsAgree(cfg: SafetyConfig, d: nat) {
    && (forall low, high :: Bounds(cfg.lowerBounds, d, low) && Bounds(cfg.upperBounds, d, high) ==> low <= high)
    && (forall delta :: Bounds(cfg.maximumDelta, d, delta) ==> 0.0 <= delta)
  }

  /** The limits applied to a dimension are the configured ones. */
  lemma LimitsAreConfigured(cfg: SafetyConfig, dim: nat, d: nat, x: real, y: real)
    requires SizesOk(cfg, dim) && d < dim
    ensures var l := LimitsOf(cfg, dim, d);
      && (InBox(l, y) <==> WithinBounds(cfg, d, y))
      && (InWindow(l, x, y) <==> WithinSlew(cfg, d, x, y))
      && (Consistent(l) <==> BoundsAgree(cfg, d))
  {
    BoundIsElement(cfg.lowerBounds, dim, d);
    BoundIsElement(cfg.upperBounds, dim, d);
    BoundIsElement(cfg.maximumDelta, dim, d);
  }

  lemma BoundIsElement(values: seq<real>, dim: nat, d: nat)
    requires SizeOk(values, dim) && d < dim
    ensures ElementOr(values, d).Some? ==> Bounds(values, d, ElementOr(values, d).value)
    ensures forall x :: Bounds(values, d, x) ==> ElementOr(values, d) == Some(x)
  {
  }

  ghost predicate AllConsistent(cfg: SafetyConfig, dim: nat)
    requires SizesOk(cfg, dim)
  {
    forall d :: 0 <= d < dim ==> Consistent(LimitsOf(cfg, dim, d))
  }

  function FilteredAll(cfg: SafetyConfig, start: seq<real>, input: seq<Float>, dim: nat): (r: seq<Float>)
    requires dim > 0 && |start| == dim && SizesOk(cfg, dim)
    ensures |r| == |input|
    ensures forall i :: 0 <= i < |r| ==> r[i] == Finite(Filtered(cfg, start, input, dim, i))
  {
    seq(|input|, i requires 0 <= i < |input| => Finite(Filtered(cfg, start, input, dim, i)))
  }

  /** On success every value is in its box, and each step moves at most maximum_delta from the one before.
      At step 0 the slew bound holds exactly when the start state is within maximum_delta of the box. */
  lemma FilteredIsSafe(cfg: SafetyConfig, start: seq<real>, input: seq<Float>, dim: nat, i: nat)
    requires dim > 0 && |start| == dim && SizesOk(cfg, dim) && AllConsistent(cfg, dim) && i < |input|
    ensures var l := LimitsOf(cfg, dim, DimensionOf(i, dim));
      var previous, value := Previous(cfg, start, input, dim, i), Filtered(cfg, start, input, dim, i);
      && InBox(l, value)
      && (InWindow(l, previous, value) <==> i >= dim || CanReach(l, start[i]))
  {
    var l := LimitsOf(cfg, dim, DimensionOf(i, dim));
    var previous := Previous(cfg, start, input, dim, i);
    LimitIsSafe(l, previous, if input[i].Finite? then input[i].value else previous);
    if i >= dim {
      var before := Previous(cfg, start, input, dim, i - dim);
      LimitIsSafe(l, before, if input[i - dim].Finite? then input[i - dim].value else before);
      LimitIsSafe(l, previous, previous);
    }
  }

  /** The same in the terms of the configuration, row by row: the output for dimension d of every step respects the
      bounds configured for d, and its distance to the output of the step before respects the slew limit of d. */
  lemma OutputsRespectConfiguration(cfg: SafetyConfig, start: seq<real>, input: seq<Float>, dim: nat, step: nat, d: nat)
    requires dim > 0 && |start| == dim && SizesOk(cfg, dim) && d < dim && step * dim + d < |input|
    requires forall e :: 0 <= e < dim ==> BoundsAgree(cfg, e)
    ensures WithinBounds(cfg, d, Filtered(cfg, start, input, dim, step * dim + d))
    ensures step > 0 ==> 0 <= (step - 1) * dim + d < |input|
    ensures step > 0 ==>
              WithinSlew(cfg, d, Filtered(cfg, start, input, dim, (step - 1) * dim + d),
                         Filtered(cfg, start, input, dim, step * dim + d))
  {
    var i := step * dim + d;
    ConfiguredConsistently(cfg, dim);
    DimensionOfEntry(step, dim, d);
    FilteredIsSafe(cfg, start, input, dim, i);
    LimitsAreConfigured(cfg, dim, d, 0.0, Filtered(cfg, start, input, dim, i));
    if step > 0 {
      NextRowFits(step - 1, step, dim);
      assert i - dim == (step - 1) * dim + d;
      LimitsAreConfigured(cfg, dim, d, Filtered(cfg, start, input, dim, i - dim), Filtered(cfg, start, input, dim, i));
    }
  }

  lemma ConfiguredConsistently(cfg: SafetyConfig, dim: nat)
    requires SizesOk(cfg, dim)
    ensures AllConsistent(cfg, dim) <==> forall d :: 0 <= d < dim ==> BoundsAgree(cfg, d)
  {
    forall d | 0 <= d < dim ensures Consistent(LimitsOf(cfg, dim, d)) <==> BoundsAgree(cfg, d) {
      LimitsAreConfigured(cfg, dim, d, 0.0, 0.0);
    }
  }

  /** The slew bound does fail at step 0 when the start state is far from the box. */
  lemma FirstStepCanJump()
    ensures var cfg := SafetyConfig([0.0], [1.0], [0.5], true);
      Filtered(cfg, [3.0], [Finite(3.0)], 1, 0) == 1.0 && !CanReach(LimitsOf(cfg, 1, 0), 3.0)
  {
  }

  /** Each output is the nearest point to the wanted value that is in the box and in the slew window,
      whenever there is one; past step 0 there always is. */
  lemma FilteredIsNearest(cfg: SafetyConfig, start: seq<real>, input: seq<Float>, dim: nat, i: nat, z: real)
    requires dim > 0 && |start| == dim && SizesOk(cfg, dim) && AllConsistent(cfg, dim) && i < |input|
    requires input[i].Finite?
    requires InBox(LimitsOf(cfg, dim, DimensionOf(i, dim)), z)
    requires InWindow(LimitsOf(cfg, dim, DimensionOf(i, dim)), Previous(cfg, start, input, dim, i), z)
    ensures Abs(Filtered(cfg, start, input, dim, i) - input[i].value) <= Abs(z - input[i].value)
    ensures i >= dim || CanReach(LimitsOf(cfg, dim, DimensionOf(i, dim)), start[i])
  {
    LimitIsNearest(LimitsOf(cfg, dim, DimensionOf(i, dim)), Previous(cfg, start, input, dim, i), input[i].value, z);
  }

  /** An action that is not finite moves nothing: the output of the step before is repeated; at step 0 it is the start
      state, moved into its box. */
  lemma NonFiniteHoldsStill(cfg: SafetyConfig, start: seq<real>, input: seq<Float>, dim: nat, i: nat, z: real)
    requires dim > 0 && |start| == dim && SizesOk(cfg, dim) && AllConsistent(cfg, dim) && i < |input|
    requires !input[i].Finite?
    ensures i >= dim ==> Filtered(cfg, start, input, dim, i) == Filtered(cfg, start, input, dim, i - dim)
    ensures i < dim && InBox(LimitsOf(cfg, dim, i), z) ==>
              Abs(Filtered(cfg, start, input, dim, i) - start[i]) <= Abs(z - start[i])
  {
    if i >= dim {
      FilteredIsSafe(cfg, start, input, dim, i - dim);
    } else {
      assert DimensionOf(i, dim) == i && Previous(cfg, start, input, dim, i) == start[i];
      if InBox(LimitsOf(cfg, dim, i), z) {
        HoldsInBox(LimitsOf(cfg, dim, i), start[i], z);
      }
    }
  }

  lemma HoldsInBox(l: Limits, previous: real, z: real)
    requires Consistent(l) && InBox(l, z)
    ensures Abs(Limit(l, previous, previous) - previous) <= Abs(z - previous)
  {
  }

  /** Filtering twice is filtering once. */
  lemma {:induction false} FilterIsIdempotent(cfg: SafetyConfig, start: seq<real>, input: seq<Float>, dim: nat, i: nat)
    requires dim > 0 && |start| == dim && SizesOk(cfg, dim) && AllConsistent(cfg, dim) && i < |input|
    ensures Filtered(cfg, start, FilteredAll(cfg, start, input, dim), dim, i) == Filtered(cfg, start, input, dim, i)
    decreases i
  {
    var once := FilteredAll(cfg, start, input, dim);
    if i >= dim {
      FilterIsIdempotent(cfg, start, input, dim, i - dim);
    }
    var previous := Previous(cfg, start, input, dim, i);
    LimitIsIdempotent(LimitsOf(cfg, dim, DimensionOf(i, dim)), previous, if input[i].Finite? then input[i].value else previous);
  }

  /** The trajectory is already safe: finite, in its box, and slew-limited from the start state on. */
  predicate SafeAt(cfg: SafetyConfig, start: seq<real>, input: seq<Float>, dim: nat, i: nat)
    requires dim > 0 && |start| == dim && SizesOk(cfg, dim) && i < |input|
  {
    && input[i].Finite? && InBox(LimitsOf(cfg, dim, DimensionOf(i, dim)), input[i].value)
    && (i >= dim ==> input[i - dim].Finite?)
    && InWindow(LimitsOf(cfg, dim, DimensionOf(i, dim)), if i < dim then start[i] else input[i - dim].value, input[i].value)
  }

  ghost predicate Safe(cfg: SafetyConfig, start: seq<real>, input: seq<Float>, dim: nat)
    requires dim > 0 && |start| == dim && SizesOk(cfg, dim)
  {
    forall i :: 0 <= i < |input| ==> SafeAt(cfg, start, input, dim, i)
  }

  lemma {:induction false} SafeIsKept(cfg: SafetyConfig, start: seq<real>, input: seq<Float>, dim: nat, i: nat)
    requires dim > 0 && |start| == dim && SizesOk(cfg, dim) && AllConsistent(cfg, dim) && i < |input|
    requires Safe(cfg, start, input, dim)
    ensures input[i] == Finite(Filtered(cfg, start, input, dim, i))
    decreases i
  {
    if i >= dim {
      SafeIsKept(cfg, start, input, dim, i - dim);
    }
    assert SafeAt(cfg, start, input, dim, i);
  }

  lemma KeptIsSafe(cfg: SafetyConfig, start: seq<real>, input: seq<Float>, dim: nat, i: nat)
    requires dim > 0 && |start| == dim && SizesOk(cfg, dim) && AllConsistent(cfg, dim) && i < |input|
    requires forall d :: 0 <= d < dim ==> CanReach(LimitsOf(cfg, dim, d), start[d])
    requires FilteredAll(cfg, start, input, dim) == input
    ensures SafeAt(cfg, start, input, dim, i)
  {
    var out := FilteredAll(cfg, start, input, dim);
    FilteredIsSafe(cfg, start, input, dim, i);
    assert out[i] == input[i];
    if i >= dim {
      assert out[i - dim] == input[i - dim];
    } else {
      assert DimensionOf(i, dim) == i;
    }
  }

  /** From a start state that can reach its box, the filter leaves a trajectory alone exactly when it is safe. */
  lemma UnchangedIffSafe(cfg: SafetyConfig, start: seq<real>, input: seq<Float>, dim: nat)
    requires dim > 0 && |start| == dim && SizesOk(cfg, dim) && AllConsistent(cfg, dim)
    requires forall d :: 0 <= d < dim ==> CanReach(LimitsOf(cfg, dim, d), start[d])
    ensures FilteredAll(cfg, start, input, dim) == input <==> Safe(cfg, start, input, dim)
  {
    if Safe(cfg, start, input, dim) {
      forall i | 0 <= i < |input| ensures FilteredAll(cfg, start, input, dim)[i] == input[i] {
        SafeIsKept(cfg, start, input, dim, i);
      }
    }
    if FilteredAll(cfg, start, input, dim) == input {
      forall i | 0 <= i < |input| ensures SafeAt(cfg, start, input, dim, i) {
        KeptIsSafe(cfg, start, input, dim, i);
      }
    }
  }

  function Finites(values: seq<real>): (r: seq<Float>)
    ensures |r| == |values|
    ensures forall i :: 0 <= i < |r| ==> r[i] == Finite(values[i])
  {
    seq(|values|, i requires 0 <= i < |values| => Finite(values[i]))
  }

  // ----- Any start state, finite or not -----

  /** `Previous` and `Filtered` for a start state of floating-point numbers. */
  function PreviousFloat(cfg: SafetyConfig, start: seq<Float>, input: seq<Float>, dim: nat, i: nat): Float
    requires dim > 0 && |start| == dim && SizesOk(cfg, dim) && i < |input| + dim
    decreases i, 0
  {
    if i < dim then start[i] else FilteredFloat(cfg, start, input, dim, i - dim)
  }

  function FilteredFloat(cfg: SafetyConfig, start: seq<Float>, input: seq<Float>, dim: nat, i: nat): Float
    requires dim > 0 && |start| == dim && SizesOk(cfg, dim) && i < |input|
    decreases i, 1
  {
    var previous := PreviousFloat(cfg, start, input, dim, i);
    LimitFloat(LimitsOf(cfg, dim, DimensionOf(i, dim)), previous, Wanted(previous, input[i]))
  }

  /** From a finite start state the filter is the one on reals, so everything above holds of it. */
  lemma {:induction false} FiniteStartAgrees(cfg: SafetyConfig, start: seq<real>, input: seq<Float>, dim: nat, i: nat)
    requires dim > 0 && |start| == dim && SizesOk(cfg, dim) && AllConsistent(cfg, dim) && i < |input|
    ensures FilteredFloat(cfg, Finites(start), input, dim, i) == Finite(Filtered(cfg, start, input, dim, i))
    decreases i
  {
    if i >= dim {
      FiniteStartAgrees(cfg, start, input, dim, i - dim);
    }
    var previous := Previous(cfg, start, input, dim, i);
    assert PreviousFloat(cfg, Finites(start), input, dim, i) == Finite(previous);
    LimitFloatIsLimit(LimitsOf(cfg, dim, DimensionOf(i, dim)), previous,
                      if input[i].Finite? then input[i].value else previous);
  }

  /** A dimension that does not recover stays exactly what it was. */
  lemma StuckStays(l: Limits, previous: Float, action: Float)
    requires Consistent(l) && !Recovers(l, previous, action)
    ensures LimitFloat(l, previous, Wanted(previous, action)) == previous
  {
  }

  /** An entry of the same dimension is at least one whole row earlier. */
  lemma {:induction false} SameDimensionEarlier(i: nat, j: nat, dim: nat)
    requires dim > 0 && DimensionOf(i, dim) == DimensionOf(j, dim) && j < i
    ensures j + dim <= i
    decreases i
  {
    if i >= dim {
      if j >= dim {
        SameDimensionEarlier(i - dim, j - dim, dim);
      } else {
        DimensionAtMost(i - dim, dim);
      }
    }
  }

  lemma {:induction false} DimensionAtMost(i: nat, dim: nat)
    requires dim > 0
    ensures DimensionOf(i, dim) <= i
  {
    if i >= dim {
      DimensionAtMost(i - dim, dim);
    }
  }

  /** Action j, applied to the start state of its dimension, would recover it. */
  predicate RecoversStart(cfg: SafetyConfig, start: seq<Float>, input: seq<Float>, dim: nat, j: nat)
    requires dim > 0 && |start| == dim && SizesOk(cfg, dim) && j < |input|
  {
    var d := DimensionOf(j, dim);
    Recovers(LimitsOf(cfg, dim, d), start[d], input[j])
  }

  /** Some action of the dimension of entry i, up to entry i, recovers the start state. */
  predicate RecoveredBy(cfg: SafetyConfig, start: seq<Float>, input: seq<Float>, dim: nat, i: nat)
    requires dim > 0 && |start| == dim && SizesOk(cfg, dim) && i < |input|
  {
    exists j :: 0 <= j <= i && DimensionOf(j, dim) == DimensionOf(i, dim) && RecoversStart(cfg, start, input, dim, j)
  }

  lemma RecoveredStep(cfg: SafetyConfig, start: seq<Float>, input: seq<Float>, dim: nat, i: nat)
    requires dim > 0 && |start| == dim && SizesOk(cfg, dim) && dim <= i < |input|
    ensures RecoveredBy(cfg, start, input, dim, i) <==>
            RecoveredBy(cfg, start, input, dim, i - dim) || RecoversStart(cfg, start, input, dim, i)
  {
    if RecoveredBy(cfg, start, input, dim, i) {
      var j :| 0 <= j <= i && DimensionOf(j, dim) == DimensionOf(i, dim) && RecoversStart(cfg, start, input, dim, j);
      if j < i {
        SameDimensionEarlier(i, j, dim);
      }
    }
  }

  lemma RecoveredFirst(cfg: SafetyConfig, start: seq<Float>, input: seq<Float>, dim: nat, i: nat)
    requires dim > 0 && |start| == dim && SizesOk(cfg, dim) && i < dim && i < |input|
    ensures RecoveredBy(cfg, start, input, dim, i) <==> RecoversStart(cfg, start, input, dim, i)
  {
    if RecoveredBy(cfg, start, input, dim, i) {
      var j :| 0 <= j <= i && DimensionOf(j, dim) == DimensionOf(i, dim) && RecoversStart(cfg, start, input, dim, j);
    }
  }

  /** A dimension is its start state until some action recovers it, and finite from then on. */
  lemma {:induction false} StuckOrFinite(cfg: SafetyConfig, start: seq<Float>, input: seq<Float>, dim: nat, i: nat)
    requires dim > 0 && |start| == dim && SizesOk(cfg, dim) && AllConsistent(cfg, dim) && i < |input|
    ensures var d := DimensionOf(i, dim);
      var out := FilteredFloat(cfg, start, input, dim, i);
      if RecoveredBy(cfg, start, input, dim, i) then out.Finite? && InBox(LimitsOf(cfg, dim, d), out.value)
      else !out.Finite? && out == start[d]
    decreases i
  {
    var l := LimitsOf(cfg, dim, DimensionOf(i, dim));
    var previous := PreviousFloat(cfg, start, input, dim, i);
    FiniteIffRecovers(l, previous, input[i]);
    if !Recovers(l, previous, input[i]) {
      StuckStays(l, previous, input[i]);
    }
    if i < dim {
      RecoveredFirst(cfg, start, input, dim, i);
    } else {
      StuckOrFinite(cfg, start, input, dim, i - dim);
      RecoveredStep(cfg, start, input, dim, i);
    }
  }

  /** Exactly when an output is finite, for any start state: some action of its dimension, up to it, recovers the
      start state. It is then in its box. */
  lemma OutputFiniteIff(cfg: SafetyConfig, start: seq<Float>, input: seq<Float>, dim: nat, i: nat)
    requires dim > 0 && |start| == dim && SizesOk(cfg, dim) && AllConsistent(cfg, dim) && i < |input|
    ensures var out := FilteredFloat(cfg, start, input, dim, i);
      && (out.Finite? <==> RecoveredBy(cfg, start, input, dim, i))
      && (out.Finite? ==> InBox(LimitsOf(cfg, dim, DimensionOf(i, dim)), out.value))
  {
    StuckOrFinite(cfg, start, input, dim, i);
  }

  ghost predicate AllFinite(cfg: SafetyConfig, start: seq<Float>, input: seq<Float>, dim: nat)
    requires dim > 0 && |start| == dim && SizesOk(cfg, dim)
  {
    forall i :: 0 <= i < |input| ==> FilteredFloat(cfg, start, input, dim, i).Finite?
  }

  /** The first row of actions recovers every dimension of the start state. */
  predicate FirstRowRecovers(cfg: SafetyConfig, start: seq<Float>, input: seq<Float>, dim: nat)
    requires dim > 0 && |start| == dim && SizesOk(cfg, dim) && |input| >= dim
  {
    forall d :: 0 <= d < dim ==> Recovers(LimitsOf(cfg, dim, d), start[d], input[d])
  }

  /** Exactly when the filter delivers finite numbers only, for a trajectory of at least one row. */
  lemma AllFiniteIff(cfg: SafetyConfig, start: seq<Float>, input: seq<Float>, dim: nat)
    requires dim > 0 && |start| == dim && SizesOk(cfg, dim) && AllConsistent(cfg, dim) && |input| >= dim
    ensures AllFinite(cfg, start, input, dim) <==> FirstRowRecovers(cfg, start, input, dim)
  {
    if FirstRowRecovers(cfg, start, input, dim) {
      forall i | 0 <= i < |input| ensures FilteredFloat(cfg, start, input, dim, i).Finite? {
        var d := DimensionOf(i, dim);
        DimensionAtMost(i, dim);
        assert DimensionOf(d, dim) == d && RecoversStart(cfg, start, input, dim, d);
        OutputFiniteIff(cfg, start, input, dim, i);
      }
    }
    if AllFinite(cfg, start, input, dim) {
      forall d | 0 <= d < dim ensures Recovers(LimitsOf(cfg, dim, d), start[d], input[d]) {
        OutputFiniteIff(cfg, start, input, dim, d);
        RecoveredFirst(cfg, start, input, dim, d);
      }
    }
  }

  /** Once a dimension is finite it stays so, in its box and slew-limited, whatever it started from. */
  lemma RecoveredIsSafe(cfg: SafetyConfig, start: seq<Float>, input: seq<Float>, dim: nat, i: nat)
    requires dim > 0 && |start| == dim && SizesOk(cfg, dim) && AllConsistent(cfg, dim) && dim <= i < |input|
    requires FilteredFloat(cfg, start, input, dim, i - dim).Finite?
    ensures var l := LimitsOf(cfg, dim, DimensionOf(i, dim));
      var before, out := FilteredFloat(cfg, start, input, dim, i - dim), FilteredFloat(cfg, start, input, dim, i);
      out.Finite? && InBox(l, out.value) && InWindow(l, before.value, out.value)
  {
    var l := LimitsOf(cfg, dim, DimensionOf(i, dim));
    var before := FilteredFloat(cfg, start, input, dim, i - dim);
    var y := Wanted(before, input[i]).value;
    OutputFiniteIff(cfg, start, input, dim, i - dim);
    LimitFloatIsLimit(l, before.value, y);
    LimitIsSafe(l, before.value, y);
  }

  /** A NaN in the start state and in the action passes the filter when non-finite actions are not rejected; and an
      infinite start state overrides a finite action even when they are. */
  lemma NonFiniteStartPasses()
    ensures FilteredFloat(SafetyConfig([0.0], [1.0], [0.5], false), [NaN], [NaN], 1, 0) == NaN
    ensures FilteredFloat(SafetyConfig([], [], [0.5], true), [PosInf], [Finite(0.0)], 1, 0) == PosInf
  {
  }

  // ----- Decoding delta actions -----

  /** Where entry i of the decoded trajectory starts from. */
  function Origin(start: seq<Float>, deltas: seq<Float>, dim: nat, i: nat): Float
    requires dim > 0 && |start| == dim && i < |deltas| + dim
    decreases i, 0
  {
    if i < dim then start[i] else Decoded(start, deltas, dim, i - dim)
  }

  function Decoded(start: seq<Float>, deltas: seq<Float>, dim: nat, i: nat): Float
    requires dim > 0 && |start| == dim && i < |deltas|
    decreases i, 1
  {
    Add(Origin(start, deltas, dim, i), deltas[i])
  }

  function DecodedAll(start: seq<Float>, deltas: seq<Float>, dim: nat): (r: seq<Float>)
    requires dim > 0 && |start| == dim
    ensures |r| == |deltas|
    ensures forall i :: 0 <= i < |r| ==> r[i] == Decoded(start, deltas, dim, i)
  {
    seq(|deltas|, i requires 0 <= i < |deltas| => Decoded(start, deltas, dim, i))
  }

  lemma EntryInRange(steps: nat, dim: nat, step: nat, d: nat)
    requires step < steps && d < dim
    ensures step * dim + d < (step + 1) * dim <= steps * dim
  {
    NextRowFits(step, steps, dim);
  }

  /** The sum of the first n deltas of dimension d. */
  function DeltaSum(deltas: seq<Float>, steps: nat, dim: nat, d: nat, n: nat): real
    requires n <= steps && d < dim && |deltas| == steps * dim
    requires forall i :: 0 <= i < |deltas| ==> deltas[i].Finite?
  {
    if n == 0 then 0.0 else
      EntryInRange(steps, dim, n - 1, d);
      DeltaSum(deltas, steps, dim, d, n - 1) + deltas[(n - 1) * dim + d].value
  }

  /** Decoding computes prefix sums: the start state plus all deltas up to and including the step. */
  lemma {:induction false} DecodedIsPrefixSum(start: seq<Float>, deltas: seq<Float>, steps: nat, dim: nat,
                                              step: nat, d: nat)
    requires dim > 0 && |start| == dim && |deltas| == steps * dim && step < steps && d < dim
    requires forall i :: 0 <= i < |deltas| ==> deltas[i].Finite?
    requires start[d].Finite?
    ensures step * dim + d < |deltas|
    ensures Decoded(start, deltas, dim, step * dim + d) ==
            Finite(start[d].value + DeltaSum(deltas, steps, dim, d, step + 1))
    decreases step
  {
    EntryInRange(steps, dim, step, d);
    if step > 0 {
      DecodedIsPrefixSum(start, deltas, steps, dim, step - 1, d);
      assert step * dim + d - dim == (step - 1) * dim + d;
    }
  }

  /** Every delta is within maximum_delta, and every decoded position is finite and in its box. */
  predicate GentleAt(cfg: SafetyConfig, start: seq<real>, deltas: seq<Float>, dim: nat, i: nat)
    requires dim > 0 && |start| == dim && SizesOk(cfg, dim) && i < |deltas|
  {
    var l, position := LimitsOf(cfg, dim, DimensionOf(i, dim)), Decoded(Finites(start), deltas, dim, i);
    && deltas[i].Finite? && (l.delta.Some? ==> Abs(deltas[i].value) <= l.delta.value)
    && position.Finite? && InBox(l, position.value)
  }

  /** Decoding then filtering: a trajectory whose deltas respect the slew limit and whose prefix sums stay in
      the box passes through the safety filter unchanged. */
  lemma GentleTrajectoriesPass(cfg: SafetyConfig, start: seq<real>, deltas: seq<Float>, dim: nat)
    requires dim > 0 && |start| == dim && SizesOk(cfg, dim) && AllConsistent(cfg, dim)
    requires forall i :: 0 <= i < |deltas| ==> GentleAt(cfg, start, deltas, dim, i)
    ensures var decoded := DecodedAll(Finites(start), deltas, dim);
      FilteredAll(cfg, start, decoded, dim) == decoded
  {
    var decoded := DecodedAll(Finites(start), deltas, dim);
    forall i | 0 <= i < |decoded| ensures SafeAt(cfg, start, decoded, dim, i) {
      assert GentleAt(cfg, start, deltas, dim, i);
      assert decoded[i] == Add(Origin(Finites(start), deltas, dim, i), deltas[i]);
      if i >= dim {
        assert GentleAt(cfg, start, deltas, dim, i - dim);
        assert Origin(Finites(start), deltas, dim, i) == decoded[i - dim];
      } else {
        assert Origin(Finites(start), deltas, dim, i) == Finite(start[i]);
      }
    }
    forall i | 0 <= i < |decoded| ensures FilteredAll(cfg, start, decoded, dim)[i] == decoded[i] {
      SafeIsKept(cfg, start, decoded, dim, i);
    }
  }

  // ----- The processors, in place -----

  class ActionChunk {
    var representation: Representation
    const steps: nat
    const actionDim: nat
    const values: array<Float>

    constructor (representation: Representation, steps: nat, actionDim: nat, values: array<Float>)
      ensures this.representation == representation && this.steps == steps
      ensures this.actionDim == actionDim && this.values == values
    {
      this.representation, this.steps, this.actionDim, this.values := representation, steps, actionDim, values;
    }
  }

  const BAD_DELTAS := Error(InvalidArgument, "delta actions cannot be decoded with the supplied state")

  /** After d entries of the row at `base`: where each dimension stands. */
  ghost predicate OriginsAt(start: seq<Float>, deltas: seq<Float>, dim: nat, base: nat, d: nat, previous: seq<Float>)
    requires dim > 0 && |start| == dim
  {
    && |previous| == dim && base + dim <= |deltas| + dim && d <= dim
    && (d > 0 ==> base + dim <= |deltas|)
    && (forall e :: 0 <= e < d ==> previous[e] == Origin(start, deltas, dim, base + dim + e))
    && (forall e :: d <= e < dim ==> previous[e] == Origin(start, deltas, dim, base + e))
  }

  /** `DeltaToAbsolute::process`. */
  method DecodeDeltas(proprioception: seq<Float>, actions: ActionChunk, specDim: nat) returns (status: Status)
    modifies actions, actions.values
    ensures old(actions.representation) != Delta ==>
              status == Ok && actions.representation == old(actions.representation) &&
              actions.values[..] == old(actions.values[..])
    ensures old(actions.representation) == Delta ==>
              (status == Ok <==> actions.actionDim == specDim && |proprioception| >= actions.actionDim &&
                                 actions.values.Length == actions.steps * actions.actionDim)
    ensures status.Error? ==> status.code == InvalidArgument
    ensures status != Ok ==> status == BAD_DELTAS && actions.representation == Delta &&
                             actions.values[..] == old(actions.values[..])
    ensures old(actions.representation) == Delta && status == Ok ==> actions.representation == Absolute
    ensures old(actions.representation) == Delta && status == Ok && actions.actionDim > 0 ==>
              actions.values[..] ==
              DecodedAll(proprioception[..actions.actionDim], old(actions.values[..]), actions.actionDim)
  {
    if actions.representation != Delta {
      return Ok;
    }
    if actions.actionDim != specDim || actions.values.Length != actions.steps * actions.actionDim ||
       |proprioception| < actions.actionDim {
      return BAD_DELTAS;
    }
    if actions.actionDim > 0 {
      DecodeRows(proprioception[..actions.actionDim], actions.values, actions.steps, actions.actionDim);
    }
    actions.representation := Absolute;
    status := Ok;
  }

  /** Lines 139-149. */
  method DecodeRows(start: seq<Float>, values: array<Float>, steps: nat, dim: nat)
    requires dim > 0 && |start| == dim && values.Length == steps * dim
    modifies values
    ensures values[..] == DecodedAll(start, old(values[..]), dim)
  {
    ghost var deltas := values[..];
    var previous := start;
    for step := 0 to steps
      invariant step * dim <= values.Length
      invariant forall j :: 0 <= j < step * dim ==> values[j] == Decoded(start, deltas, dim, j)
      invariant forall j :: step * dim <= j < values.Length ==> values[j] == deltas[j]
      invariant OriginsAt(start, deltas, dim, step * dim, 0, previous)
    {
      EntryInRange(steps, dim, step, 0);
      previous := DecodeRow(start, values, deltas, dim, step * dim, previous);
      assert step * dim + dim == (step + 1) * dim;
    }
  }

  method DecodeRow(ghost start: seq<Float>, values: array<Float>, ghost deltas: seq<Float>, dim: nat, base: nat,
                   before: seq<Float>)
    returns (previous: seq<Float>)
    requires dim > 0 && |start| == dim && |deltas| == values.Length && base + dim <= values.Length
    requires forall j :: 0 <= j < base ==> values[j] == Decoded(start, deltas, dim, j)
    requires forall j :: base <= j < values.Length ==> values[j] == deltas[j]
    requires OriginsAt(start, deltas, dim, base, 0, before)
    modifies values
    ensures forall j :: 0 <= j < base + dim ==> values[j] == Decoded(start, deltas, dim, j)
    ensures forall j :: base + dim <= j < values.Length ==> values[j] == deltas[j]
    ensures OriginsAt(start, deltas, dim, base + dim, 0, previous)
  {
    previous := before;
    for d := 0 to dim
      invariant forall j :: 0 <= j < base + d ==> values[j] == Decoded(start, deltas, dim, j)
      invariant forall j :: base + d <= j < values.Length ==> values[j] == deltas[j]
      invariant OriginsAt(start, deltas, dim, base, d, previous)
    {
      previous := previous[d := Add(previous[d], values[base + d])];
      values[base + d] := previous[d];
    }
  }

  const NOT_ABSOLUTE := Error(InvalidArgument, "action safety filtering requires absolute actions")
  const BAD_CHUNK := Error(BackendError, "backend returned an action chunk with an invalid shape")
  const NAN := Error(BackendError, "backend returned NaN or infinity")
  const BAD_BOUNDS := Error(InvalidArgument, "action safety bounds are inconsistent")

  function BadSize(name: string): Status {
    Error(InvalidArgument, name + " must be empty, scalar, or action_dim sized")
  }

  /** What goes wrong at entry i, if anything. */
  function Fault(cfg: SafetyConfig, input: seq<Float>, dim: nat, i: nat): Status
    requires dim > 0 && SizesOk(cfg, dim) && i < |input|
  {
    if !input[i].Finite? && cfg.rejectNonFinite then NAN
    else if !Consistent(LimitsOf(cfg, dim, DimensionOf(i, dim))) then BAD_BOUNDS
    else Ok
  }

  /** Filtering starts from the reported state; a dimension that is not reported starts at zero. */
  function StartState(proprioception: seq<Float>, dim: nat): (r: seq<Float>)
    ensures |r| == dim
    ensures forall d :: 0 <= d < dim && d < |proprioception| ==> r[d] == proprioception[d]
    ensures forall d :: |proprioception| <= d < dim ==> r[d] == Finite(0.0)
  {
    seq(dim, d requires 0 <= d < dim => if d < |proprioception| then proprioception[d] else Finite(0.0))
  }

  /** The chunk has the shape of the model and the configured vectors fit it. */
  predicate ShapesOk(cfg: SafetyConfig, steps: nat, dim: nat, length: nat, specDim: nat, horizon: nat) {
    dim == specDim && steps == horizon && length == steps * dim && SizesOk(cfg, specDim)
  }

  /** The first n entries have been filtered without a fault, the rest are as they were. */
  ghost predicate FilteredUpto(cfg: SafetyConfig, start: seq<Float>, input: seq<Float>, dim: nat, values: seq<Float>, n: nat)
    requires dim > 0 && |start| == dim && SizesOk(cfg, dim)
  {
    && |values| == |input| && n <= |input|
    && (forall j :: 0 <= j < n ==> Fault(cfg, input, dim, j) == Ok)
    && (forall j :: 0 <= j < n ==> values[j] == FilteredFloat(cfg, start, input, dim, j))
    && (forall j :: n <= j < |input| ==> values[j] == input[j])
  }

  /** After d entries of the row at `base`: the previous output in each dimension. */
  ghost predicate PreviousAt(cfg: SafetyConfig, start: seq<Float>, input: seq<Float>, dim: nat, base: nat, d: nat,
                             previous: seq<Float>)
    requires dim > 0 && |start| == dim && SizesOk(cfg, dim)
  {
    && |previous| == dim && base <= |input| && d <= dim && (d > 0 ==> base + dim <= |input|)
    && (forall e :: 0 <= e < d ==> previous[e] == PreviousFloat(cfg, start, input, dim, base + dim + e))
    && (forall e :: d <= e < dim ==> previous[e] == PreviousFloat(cfg, start, input, dim, base + e))
  }

  /** Where filtering stopped: at the first fault, or at the end. */
  ghost predicate StoppedAt(cfg: SafetyConfig, input: seq<Float>, dim: nat, status: Status, n: nat)
    requires dim > 0 && SizesOk(cfg, dim)
  {
    if status == Ok then n == |input| else n < |input| && Fault(cfg, input, dim, n) == status
  }

  /** What can go wrong, in the terms of the configuration: the first entry that is not finite, if those are rejected,
      or whose dimension has bounds that contradict each other. */
  lemma FaultIff(cfg: SafetyConfig, input: seq<Float>, dim: nat, step: nat, d: nat)
    requires dim > 0 && SizesOk(cfg, dim) && d < dim && step * dim + d < |input|
    ensures var i := step * dim + d;
      && (Fault(cfg, input, dim, i) == NAN <==> cfg.rejectNonFinite && !input[i].Finite?)
      && (Fault(cfg, input, dim, i) == BAD_BOUNDS <==> !(cfg.rejectNonFinite && !input[i].Finite?) && !BoundsAgree(cfg, d))
      && (Fault(cfg, input, dim, i) in {Ok, NAN, BAD_BOUNDS})
  {
    DimensionOfEntry(step, dim, d);
    LimitsAreConfigured(cfg, dim, d, 0.0, 0.0);
  }

  /** `ActionSafetyFilter::process`: succeeds exactly when no entry has a fault, and then the values are the
      filtered trajectory; otherwise it reports the first fault, having filtered what comes before it. */
  method FilterActions(cfg: SafetyConfig, proprioception: seq<Float>, actions: ActionChunk, specDim: nat, horizon: nat)
    returns (status: Status, ghost n: nat)
    modifies actions.values
    ensures actions.representation != Absolute ==> status == NOT_ABSOLUTE
    ensures actions.representation == Absolute ==>
              (status == BAD_CHUNK <==> actions.actionDim != specDim || actions.steps != horizon ||
                                        actions.values.Length != actions.steps * actions.actionDim)
    ensures actions.representation == Absolute && status != BAD_CHUNK ==>
              if |cfg.lowerBounds| > 1 && |cfg.lowerBounds| != specDim then status == BadSize("lower_bounds")
              else if |cfg.upperBounds| > 1 && |cfg.upperBounds| != specDim then status == BadSize("upper_bounds")
              else if |cfg.maximumDelta| > 1 && |cfg.maximumDelta| != specDim then status == BadSize("maximum_delta")
              else SizesOk(cfg, specDim) && status in {Ok, NAN, BAD_BOUNDS}
    ensures status.Error? ==> status.code == if status in {BAD_CHUNK, NAN} then BackendError else InvalidArgument
    ensures status !in {Ok, NAN, BAD_BOUNDS} ==> actions.values[..] == old(actions.values[..])
    ensures status in {Ok, NAN, BAD_BOUNDS} ==>
              ShapesOk(cfg, actions.steps, actions.actionDim, actions.values.Length, specDim, horizon)
    ensures status in {Ok, NAN, BAD_BOUNDS} && specDim == 0 ==> status == Ok
    ensures status in {Ok, NAN, BAD_BOUNDS} && specDim > 0 ==>
              && StoppedAt(cfg, old(actions.values[..]), specDim, status, n)
              && FilteredUpto(cfg, StartState(proprioception, specDim), old(actions.values[..]), specDim,
                              actions.values[..], n)
  {
    n := 0;
    if actions.representation != Absolute {
      return NOT_ABSOLUTE, 0;
    }
    if actions.actionDim != specDim || actions.steps != horizon ||
       actions.values.Length != actions.steps * actions.actionDim {
      return BAD_CHUNK, 0;
    }
    if !SizeOk(cfg.lowerBounds, specDim) {
      return BadSize("lower_bounds"), 0;
    }
    if !SizeOk(cfg.upperBounds, specDim) {
      return BadSize("upper_bounds"), 0;
    }
    if !SizeOk(cfg.maximumDelta, specDim) {
      return BadSize("maximum_delta"), 0;
    }
    if specDim == 0 {
      return Ok, 0;
    }
    status, n := FilterRows(cfg, StartState(proprioception, specDim), actions.values, actions.steps, specDim);
  }

  method FilterRows(cfg: SafetyConfig, start: seq<Float>, values: array<Float>, steps: nat, dim: nat)
    returns (status: Status, ghost n: nat)
    requires dim > 0 && |start| == dim && SizesOk(cfg, dim) && values.Length == steps * dim
    modifies values
    ensures StoppedAt(cfg, old(values[..]), dim, status, n)
    ensures FilteredUpto(cfg, start, old(values[..]), dim, values[..], n)
  {
    ghost var input := values[..];
    var previous := start;
    for step := 0 to steps
      invariant step * dim <= values.Length
      invariant FilteredUpto(cfg, start, input, dim, values[..], step * dim)
      invariant PreviousAt(cfg, start, input, dim, step * dim, 0, previous)
    {
      EntryInRange(steps, dim, step, 0);
      status, previous, n := FilterRow(cfg, start, values, input, dim, step * dim, step, previous);
      if status != Ok {
        return;
      }
      assert step * dim + dim == (step + 1) * dim;
    }
    return Ok, values.Length;
  }

  /** Lines 194-221 for one entry: a fault, or the limited value. */
  method FilterEntry(cfg: SafetyConfig, l: Limits, previous: Float, action: Float) returns (status: Status, out: Float)
    ensures status == if !action.Finite? && cfg.rejectNonFinite then NAN else if !Consistent(l) then BAD_BOUNDS else Ok
    ensures status == Ok ==> out == LimitFloat(l, previous, Wanted(previous, action))
  {
    out := action;
    if !out.Finite? {
      if cfg.rejectNonFinite {
        return NAN, out;
      }
      out := previous;
    }
    if !Consistent(l) {
      return BAD_BOUNDS, out;
    }
    status, out := Ok, LimitFloat(l, previous, out);
  }

  /** Writing entry n moves the trajectory on by one. */
  lemma EntryFiltered(cfg: SafetyConfig, start: seq<Float>, input: seq<Float>, dim: nat, values: seq<Float>, n: nat, out: Float)
    requires dim > 0 && |start| == dim && SizesOk(cfg, dim) && n < |input|
    requires FilteredUpto(cfg, start, input, dim, values, n) && Fault(cfg, input, dim, n) == Ok
    requires out == FilteredFloat(cfg, start, input, dim, n)
    ensures FilteredUpto(cfg, start, input, dim, values[n := out], n + 1)
  {
  }

  /** And so does remembering it as the previous value of its dimension. */
  lemma EntryRemembered(cfg: SafetyConfig, start: seq<Float>, input: seq<Float>, dim: nat, base: nat, d: nat,
                        previous: seq<Float>, out: Float)
    requires dim > 0 && |start| == dim && SizesOk(cfg, dim) && d < dim && base + dim <= |input|
    requires PreviousAt(cfg, start, input, dim, base, d, previous)
    requires out == FilteredFloat(cfg, start, input, dim, base + d)
    ensures PreviousAt(cfg, start, input, dim, base, d + 1, previous[d := out])
  {
    assert PreviousFloat(cfg, start, input, dim, base + dim + d) == out;
  }

  /** Lines 194-222 for one entry: a fault, or the limited value in place of the action. */
  method FilterAt(cfg: SafetyConfig, ghost start: seq<Float>, values: array<Float>, ghost input: seq<Float>, dim: nat,
                  base: nat, d: nat, previous: seq<Float>)
    returns (status: Status, out: Float)
    requires dim > 0 && |start| == dim && SizesOk(cfg, dim) && |input| == values.Length
    requires d < dim && base + dim <= values.Length && DimensionOf(base + d, dim) == d
    requires FilteredUpto(cfg, start, input, dim, values[..], base + d)
    requires PreviousAt(cfg, start, input, dim, base, d, previous)
    modifies values
    ensures status != Ok ==>
              StoppedAt(cfg, input, dim, status, base + d) && FilteredUpto(cfg, start, input, dim, values[..], base + d)
    ensures status == Ok ==>
              && FilteredUpto(cfg, start, input, dim, values[..], base + d + 1)
              && PreviousAt(cfg, start, input, dim, base, d + 1, previous[d := out])
  {
    status, out := FilterEntry(cfg, LimitsOf(cfg, dim, d), previous[d], values[base + d]);
    if status == Ok {
      EntryFiltered(cfg, start, input, dim, values[..], base + d, out);
      EntryRemembered(cfg, start, input, dim, base, d, previous, out);
      ghost var written := values[..][base + d := out];
      values[base + d] := out;
      assert values[..] == written;
    }
  }

  /** Lines 192-224 for one step. */
  method FilterRow(cfg: SafetyConfig, ghost start: seq<Float>, values: array<Float>, ghost input: seq<Float>, dim: nat,
                   base: nat, ghost step: nat, before: seq<Float>)
    returns (status: Status, previous: seq<Float>, ghost n: nat)
    requires dim > 0 && |start| == dim && SizesOk(cfg, dim) && |input| == values.Length
    requires base == step * dim && base + dim <= values.Length
    requires FilteredUpto(cfg, start, input, dim, values[..], base)
    requires PreviousAt(cfg, start, input, dim, base, 0, before)
    modifies values
    ensures FilteredUpto(cfg, start, input, dim, values[..], n)
    ensures status == Ok ==> n == base + dim && PreviousAt(cfg, start, input, dim, base + dim, 0, previous)
    ensures status != Ok ==> StoppedAt(cfg, input, dim, status, n)
  {
    previous := before;
    for d := 0 to dim
      invariant FilteredUpto(cfg, start, input, dim, values[..], base + d)
      invariant PreviousAt(cfg, start, input, dim, base, d, previous)
    {
      DimensionOfEntry(step, dim, d);
      var out: Float;
      status, out := FilterAt(cfg, start, values, input, dim, base, d, previous);
      if status != Ok {
        return status, previous, base + d;
      }
      previous := previous[d := out];
    }
    return Ok, previous, base + dim;
  }
}
