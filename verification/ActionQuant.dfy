/** plugins/action_quant.py: per-channel mixed-precision quantization, over exact reals. */
module ActionQuant {
  import opened Collections

  // ----- Rounding -----

  function Clip(n: int, top: int): int {
    if n < 0 then 0 else if n > top then top else n
  }

  lemma RoundIsMonotone(x: real, y: real)
    requires x <= y
    ensures Round(x) <= Round(y)
  {
    if x.Floor < y.Floor {
      assert Round(x) <= x.Floor + 1 <= y.Floor <= Round(y);
    }
  }

  lemma RoundOfInteger(n: int)
    ensures Round(n as real) == n
  {
  }

  /** Clipping a rounded code stays within half a unit of the exact one on exactly the half-open-by-half range,
      ties at both ends included. */
  lemma ClipErrorBound(x: real, zero: int, top: int)
    requires 0 <= zero <= top
    ensures var code := Clip(Round(x) + zero, top) - zero;
      (x - 0.5 <= code as real <= x + 0.5) <==>
      (-(zero as real) - 0.5 <= x <= (top - zero) as real + 0.5)
  {
    RoundIsNearest(x);
    var code := Round(x) + zero;
    if code < 0 {
      assert (Round(x) as real) <= (-zero - 1) as real;
    } else if code > top {
      assert (Round(x) as real) >= (top - zero + 1) as real;
    }
  }

  // ----- One channel -----

  datatype Channel = Channel(scale: real, zero: int, top: int)

  predicate Usable(c: Channel) {
    c.scale > 0.0 && 0 <= c.zero <= c.top && c.top > 0
  }

  function Quantize(c: Channel, v: real): int
    requires Usable(c)
  {
    Clip(Round(v / c.scale) + c.zero, c.top)
  }

  function Dequantize(c: Channel, q: int): real {
    (q - c.zero) as real * c.scale
  }

  /** Calibration of a channel whose smallest and largest weights are given. */
  function FitChannel(low: real, high: real, top: int): Channel
    requires top > 0
  {
    var span := high - low;
    var scale := if span > 0.000_000_000_001 then span / top as real else 1.0;
    Channel(scale, Clip(Round(-low / scale), top), top)
  }

  lemma DivPositive(a: real, b: real)
    requires a > 0.0 && b > 0.0
    ensures a / b > 0.0 && (a / b) * b == a
  {
  }

  lemma FitIsUsable(low: real, high: real, top: int)
    requires top > 0
    ensures Usable(FitChannel(low, high, top))
  {
    if high - low > 0.000_000_000_001 {
      DivPositive(high - low, top as real);
    }
  }

  predicate Within(a: real, b: real, bound: real) {
    b - bound <= a <= b + bound
  }

  lemma ScaleBound(a: real, x: real, scale: real)
    requires scale > 0.0
    ensures Within(a * scale, x * scale, 0.5 * scale) <==> Within(a, x, 0.5)
  {
    assert a * scale - x * scale == (a - x) * scale;
    if a - x > 0.5 {
      Strict(a - x, 0.5, scale);
    } else {
      Loose(a - x, 0.5, scale);
    }
    if a - x < -0.5 {
      Strict(-0.5, a - x, scale);
    } else {
      Loose(-0.5, a - x, scale);
    }
  }

  lemma Strict(a: real, b: real, k: real)
    requires a > b && k > 0.0
    ensures a * k > b * k
  {
    assert (a - b) * k > 0.0;
    assert (a - b) * k == a * k - b * k;
  }

  lemma Loose(a: real, b: real, k: real)
    requires a <= b && k > 0.0
    ensures a * k <= b * k
  {
    if a < b {
      Strict(b, a, k);
    }
  }

  lemma QuotientBounds(v: real, scale: real, n: real)
    requires scale > 0.0
    ensures v / scale <= n <==> v <= n * scale
    ensures v / scale >= n <==> v >= n * scale
    ensures (v / scale) * scale == v
  {
    var x := v / scale;
    assert x * scale == v;
    if x <= n { Loose(x, n, scale); } else { Strict(x, n, scale); }
    if n <= x { Loose(n, x, scale); } else { Strict(n, x, scale); }
  }

  /** A value reconstructs within half a scale exactly when it lies between half a scale below the value of
      code 0 and half a scale above the value of the top code. */
  lemma ReconstructsIff(c: Channel, v: real)
    requires Usable(c)
    ensures Within(Dequantize(c, Quantize(c, v)), v, 0.5 * c.scale) <==>
            Dequantize(c, 0) - 0.5 * c.scale <= v <= Dequantize(c, c.top) + 0.5 * c.scale
  {
    var x := v / c.scale;
    ClipErrorBound(x, c.zero, c.top);
    CodeError(c, v, Quantize(c, v));
    CodeRange(c, v);
  }

  lemma CodeError(c: Channel, v: real, q: int)
    requires Usable(c)
    ensures Within(Dequantize(c, q), v, 0.5 * c.scale) <==> Within((q - c.zero) as real, v / c.scale, 0.5)
  {
    QuotientBounds(v, c.scale, 0.0);
    CodeErrorAt((q - c.zero) as real, v / c.scale, c.scale, v);
  }

  lemma CodeErrorAt(a: real, x: real, scale: real, v: real)
    requires scale > 0.0 && x * scale == v
    ensures Within(a * scale, v, 0.5 * scale) <==> Within(a, x, 0.5)
  {
    ScaleBound(a, x, scale);
  }

  lemma CodeRange(c: Channel, v: real)
    requires Usable(c)
    ensures -(c.zero as real) - 0.5 <= v / c.scale <==> Dequantize(c, 0) - 0.5 * c.scale <= v
    ensures v / c.scale <= (c.top - c.zero) as real + 0.5 <==> v <= Dequantize(c, c.top) + 0.5 * c.scale
  {
    QuotientBounds(v, c.scale, -(c.zero as real) - 0.5);
    QuotientBounds(v, c.scale, (c.top - c.zero) as real + 0.5);
    Distribute(-(c.zero as real), -0.5, c.scale);
    Distribute((c.top - c.zero) as real, 0.5, c.scale);
  }

  lemma Distribute(a: real, b: real, k: real)
    ensures (a + b) * k == a * k + b * k
  {
  }

  /** The scale divides the span into `top` steps. */
  lemma SpanInSteps(low: real, high: real, top: int)
    requires top > 0 && Spread(low, high)
    ensures var s := FitChannel(low, high, top).scale;
      s > 0.0 && -low / s + high / s == top as real
  {
    DivPositive(high - low, top as real);
    var s := (high - low) / top as real;
    assert s * top as real == high - low;
    QuotientBounds(high - low, s, top as real);
    assert (high - low) / s == top as real;
    assert -low / s + high / s == (high - low) / s;
  }

  /** The zero point is within half a step of the exact one iff zero is within half a step of the range. */
  lemma ZeroPoint(low: real, high: real, top: int)
    requires top > 0 && Spread(low, high)
    ensures var c := FitChannel(low, high, top);
      && c.scale > 0.0
      && (Within(c.zero as real, -low / c.scale, 0.5) <==> low <= 0.5 * c.scale && high >= -0.5 * c.scale)
  {
    var c := FitChannel(low, high, top);
    SpanInSteps(low, high, top);
    var a := -low / c.scale;
    ClipErrorBound(a, 0, top);
    QuotientBounds(-low, c.scale, -0.5);
    QuotientBounds(high, c.scale, -0.5);
    assert -0.5 * c.scale == -(0.5 * c.scale);
  }

  /** Every value of the range reconstructs. */
  ghost predicate ReconstructsRange(low: real, high: real, top: int)
    requires top > 0
  {
    var c := FitChannel(low, high, top);
    FitIsUsable(low, high, top);
    forall v: real :: low <= v <= high ==> Within(Dequantize(c, Quantize(c, v)), v, 0.5 * c.scale)
  }

  lemma EndsDecide(low: real, high: real, top: int)
    requires top > 0 && Spread(low, high)
    ensures var c := FitChannel(low, high, top);
      && c.scale > 0.0
      && (Within(c.zero as real, -low / c.scale, 0.5) <==>
            Dequantize(c, 0) - 0.5 * c.scale <= low && high <= Dequantize(c, top) + 0.5 * c.scale)
  {
    var c := FitChannel(low, high, top);
    SpanInSteps(low, high, top);
    var z, a := c.zero as real, -low / c.scale;
    QuotientBounds(-low, c.scale, z + 0.5);
    QuotientBounds(high, c.scale, (top - c.zero) as real + 0.5);
    assert (z + 0.5) * c.scale == -(Dequantize(c, 0) - 0.5 * c.scale);
    assert ((top - c.zero) as real + 0.5) * c.scale == Dequantize(c, top) + 0.5 * c.scale;
  }

  /** The weights of a channel differ by more than the threshold below which it counts as constant. */
  predicate Spread(low: real, high: real) {
    high - low > 0.000_000_000_001
  }

  /** The condition a caller can read off the range: a spread channel comes within half a scale of zero; a constant
      one, which gets scale one, is no further from zero than the largest code and a half. */
  predicate Representable(low: real, high: real, top: int)
    requires top > 0
  {
    if Spread(low, high) then NearZero(low, high, (high - low) / top as real)
    else -(top as real) - 0.5 <= low && high <= top as real + 0.5
  }

  /** The channel's range comes within half a scale of zero. */
  predicate NearZero(low: real, high: real, scale: real) {
    low <= 0.5 * scale && high >= -0.5 * scale
  }

  /** Quantizer error bound, exactly and for every channel: every calibrated value is reconstructed within half a scale
      if and only if the range is representable. */
  lemma RangeReconstructsIff(low: real, high: real, top: int)
    requires top > 0 && low <= high
    ensures ReconstructsRange(low, high, top) <==> Representable(low, high, top)
  {
    if Spread(low, high) {
      SpreadReconstructsIff(low, high, top);
    } else {
      ConstantReconstructsIff(low, high, top);
    }
  }

  /** A constant channel gets scale one and the nearest zero point it can have. */
  lemma ConstantEnds(low: real, high: real, top: int)
    requires top > 0 && low <= high && !Spread(low, high)
    ensures var c := FitChannel(low, high, top);
      && c.scale == 1.0
      && (Dequantize(c, 0) - 0.5 <= low && high <= Dequantize(c, top) + 0.5 <==>
          -(top as real) - 0.5 <= low && high <= top as real + 0.5)
  {
    var c := FitChannel(low, high, top);
    assert -low / 1.0 == -low;
    assert c == Channel(1.0, Clip(Round(-low), top), top);
    RoundIsNearest(-low);
    assert Dequantize(c, 0) == -(c.zero as real) && Dequantize(c, top) == top as real - c.zero as real;
    if -low < 0.0 {
      RoundIsMonotone(-low, 0.0);
      RoundOfInteger(0);
    } else if -low > top as real {
      RoundIsMonotone(top as real, -low);
      RoundOfInteger(top);
    } else {
      RoundIsMonotone(0.0, -low);
      RoundIsMonotone(-low, top as real);
      RoundOfInteger(0);
      RoundOfInteger(top);
    }
  }

  lemma ConstantReconstructsIff(low: real, high: real, top: int)
    requires top > 0 && low <= high && !Spread(low, high)
    ensures ReconstructsRange(low, high, top) <==> -(top as real) - 0.5 <= low && high <= top as real + 0.5
  {
    FitIsUsable(low, high, top);
    ConstantEnds(low, high, top);
    EndsReconstructRange(low, high, top);
  }

  /** A range reconstructs exactly when both its ends lie within half a scale of the representable interval. */
  lemma EndsReconstructRange(low: real, high: real, top: int)
    requires top > 0 && low <= high
    ensures var c := FitChannel(low, high, top);
      ReconstructsRange(low, high, top) <==>
      Dequantize(c, 0) - 0.5 * c.scale <= low && high <= Dequantize(c, top) + 0.5 * c.scale
  {
    var c := FitChannel(low, high, top);
    FitIsUsable(low, high, top);
    if Dequantize(c, 0) - 0.5 * c.scale <= low && high <= Dequantize(c, top) + 0.5 * c.scale {
      forall v: real | low <= v <= high ensures Within(Dequantize(c, Quantize(c, v)), v, 0.5 * c.scale) {
        ReconstructsIff(c, v);
      }
    } else {
      ReconstructsIff(c, low);
      ReconstructsIff(c, high);
      var v := if Dequantize(c, 0) - 0.5 * c.scale <= low then high else low;
      assert !Within(Dequantize(c, Quantize(c, v)), v, 0.5 * c.scale);
    }
  }

  lemma SpreadReconstructsIff(low: real, high: real, top: int)
    requires top > 0 && Spread(low, high)
    ensures ReconstructsRange(low, high, top) <==> NearZero(low, high, (high - low) / top as real)
  {
    FitIsUsable(low, high, top);
    ZeroPoint(low, high, top);
    EndsDecide(low, high, top);
    EndsReconstructRange(low, high, top);
  }

  /** Constant channels away from zero: 5.25 comes back within a half at eight bits, 300 does not. */
  lemma ConstantChannels()
    ensures ReconstructsRange(5.25, 5.25, 255) && !ReconstructsRange(300.0, 300.0, 255)
  {
    RangeReconstructsIff(5.25, 5.25, 255);
    RangeReconstructsIff(300.0, 300.0, 255);
  }

  /** In particular a range that contains zero always reconstructs. */
  lemma RangeAroundZeroReconstructs(low: real, high: real, top: int)
    requires top > 0 && low <= 0.0 <= high && Spread(low, high)
    ensures ReconstructsRange(low, high, top)
  {
    FitIsUsable(low, high, top);
    RangeReconstructsIff(low, high, top);
  }

  /** The tie case: the code of the largest weight is one past the top and is clipped, and the bound still holds. */
  lemma TieIsClipped()
    ensures var c := FitChannel(-1.5, 13.5, 15);
      && c == Channel(1.0, 2, 15)
      && Round(13.5 / c.scale) + c.zero == 16
      && Dequantize(c, Quantize(c, 13.5)) == 13.0
  {
    assert 15.0 / 15.0 == 1.0;
    assert Round(1.5) == 2 && Round(13.5) == 14;
  }

  /** A range away from zero does not reconstruct: its weights are all clipped to the top code. */
  lemma FarRangeFails()
    ensures !ReconstructsRange(100.0, 115.0, 15)
  {
    assert FitChannel(100.0, 115.0, 15).scale == 1.0;
    RangeReconstructsIff(100.0, 115.0, 15);
  }

  /** Quantizing a dequantized code gives the code back. */
  lemma CodesRoundTrip(c: Channel, q: int)
    requires Usable(c) && 0 <= q <= c.top
    ensures Quantize(c, Dequantize(c, q)) == q
  {
    var n := (q - c.zero) as real;
    QuotientBounds(n * c.scale, c.scale, n);
    assert Dequantize(c, q) == n * c.scale;
    assert Dequantize(c, q) / c.scale == n;
    RoundOfInteger(q - c.zero);
  }

  /** Quantization keeps order. */
  lemma QuantizeIsMonotone(c: Channel, v: real, w: real)
    requires Usable(c) && v <= w
    ensures Quantize(c, v) <= Quantize(c, w)
  {
    QuotientBounds(w, c.scale, 0.0);
    QuotientBounds(v, c.scale, w / c.scale);
    RoundIsMonotone(v / c.scale, w / c.scale);
  }

  // ----- Bit allocation -----

  /** A result of argsort: a permutation of the channels in ascending importance, ties in any order. */
  predicate IsArgsort(importance: seq<real>, order: seq<nat>) {
    && |order| == |importance| && Distinct(order)
    && (forall i :: 0 <= i < |order| ==> order[i] < |importance|)
    && (forall i, j :: 0 <= i < j < |order| ==> importance[order[i]] <= importance[order[j]])
  }

  /** The nearest number to the share, but at least one. */
  function AtLeastOne(share: real): (n: nat)
    ensures n >= 1
  {
    if Round(share) < 1 then 1 else Round(share)
  }

  function SensitiveCount(channels: nat, ratio: real): (n: nat)
    ensures n >= 1
  {
    AtLeastOne(channels as real * ratio)
  }

  /** How many channels get the wide code: the configured ratio of them to the nearest number, but at least one. */
  lemma SensitiveShare(order: seq<nat>, ratio: real, share: real)
    requires order != [] && Distinct(order) && 0.0 <= share <= |order| as real && share == |order| as real * ratio
    ensures var n := |Elems(Sensitive(order, SensitiveCount(|order|, ratio)))|;
      && 1 <= n <= |order|
      && (share <= 1.0 ==> n == 1)
      && (share >= 1.0 ==> -0.5 <= n as real - share <= 0.5)
  {
    CountOfShare(|order|, ratio, share);
    RoundedShare(order, share);
  }

  lemma CountOfShare(channels: nat, ratio: real, share: real)
    requires share == channels as real * ratio
    ensures SensitiveCount(channels, ratio) == AtLeastOne(share)
  {
  }

  lemma RoundedShare(order: seq<nat>, share: real)
    requires order != [] && Distinct(order) && 0.0 <= share <= |order| as real
    ensures var n := |Elems(Sensitive(order, AtLeastOne(share)))|;
      && 1 <= n <= |order|
      && (share <= 1.0 ==> n == 1)
      && (share >= 1.0 ==> -0.5 <= n as real - share <= 0.5)
  {
    RoundIsNearest(share);
    DistinctSize(Sensitive(order, AtLeastOne(share)));
  }

  /** The slice [-count:] of the order. */
  function Sensitive(order: seq<nat>, count: nat): seq<nat> {
    if count >= |order| then order else order[|order| - count..]
  }

  /** Lines 111-115: the channels of the slice get the wide code, the others the narrow one. */
  method AllocateBits(importance: seq<real>, order: seq<nat>, ratio: real, sensitiveBits: Width, defaultBits: Width)
    returns (bits: seq<Width>)
    requires IsArgsort(importance, order)
    ensures |bits| == |importance|
    ensures forall c :: 0 <= c < |bits| ==>
              bits[c] == if c in Sensitive(order, SensitiveCount(|importance|, ratio)) then sensitiveBits else defaultBits
  {
    bits := seq(|importance|, _ => defaultBits);
    var chosen := Sensitive(order, SensitiveCount(|importance|, ratio));
    for k := 0 to |chosen|
      invariant |bits| == |importance|
      invariant forall c :: 0 <= c < |bits| ==> bits[c] == if c in chosen[..k] then sensitiveBits else defaultBits
    {
      assert chosen[..k + 1] == chosen[..k] + [chosen[k]];
      assert chosen[k] in order;
      bits := bits[chosen[k] := sensitiveBits];
    }
    assert chosen[..|chosen|] == chosen;
  }

  /** As many channels as asked for are sensitive, and none that is not is more important than one that is. */
  lemma SensitiveAreMostImportant(importance: seq<real>, order: seq<nat>, count: nat, c: nat, d: nat)
    requires IsArgsort(importance, order) && c < |importance| && d < |importance|
    requires c in Sensitive(order, count) && d !in Sensitive(order, count)
    ensures importance[d] <= importance[c]
    ensures |Elems(Sensitive(order, count))| == if count < |importance| then count else |importance|
  {
    var top := Sensitive(order, count);
    ListsAll(order, |importance|, d);
    var i, j := IndexOf(order, d), IndexOf(top, c);
    var start := |order| - |top|;
    assert top == order[start..];
    assert order[start + j] == c;
    IndexBeforeSuffix(order, d, start);
    DistinctSize(top);
  }

  // ----- A whole matrix -----

  /** The permitted code widths. */
  type Width = w: nat | w == 4 || w == 8 || w == 16 witness 8

  function PowerOfTwo(n: nat): nat {
    if n == 0 then 1 else 2 * PowerOfTwo(n - 1)
  }

  /** `qmax`: the largest code of this width. */
  function TopCode(bits: Width): (top: int)
    ensures top == match bits { case 4 => 15 case 8 => 255 case _ => 65535 }
  {
    PowerOfTwo(bits) - 1
  }

  predicate IsRange(row: seq<real>, low: real, high: real) {
    && low in row && high in row
    && (forall j :: 0 <= j < |row| ==> low <= row[j] <= high)
  }

  ghost predicate FittedTo(row: seq<real>, top: int, c: Channel)
    requires top > 0
  {
    exists low, high :: IsRange(row, low, high) && c == FitChannel(low, high, top)
  }

  method RowRange(row: seq<real>) returns (low: real, high: real)
    requires row != []
    ensures IsRange(row, low, high)
  {
    low, high := row[0], row[0];
    for j := 0 to |row|
      invariant low in row && high in row
      invariant forall i :: 0 <= i < j ==> low <= row[i] <= high
      invariant low <= high
    {
      if row[j] < low { low := row[j]; }
      if row[j] > high { high := row[j]; }
    }
  }

  /** Lines 117-126: calibrate every channel from its own weights. Rows are not empty: numpy's min raises on one. */
  method Fit(matrix: seq<seq<real>>, bits: seq<Width>) returns (state: seq<Channel>)
    requires |bits| == |matrix| && forall c :: 0 <= c < |matrix| ==> matrix[c] != []
    ensures |state| == |matrix|
    ensures forall c :: 0 <= c < |matrix| ==> FittedTo(matrix[c], TopCode(bits[c]), state[c]) && Usable(state[c])
  {
    state := [];
    for c := 0 to |matrix|
      invariant |state| == c
      invariant forall b :: 0 <= b < c ==> FittedTo(matrix[b], TopCode(bits[b]), state[b]) && Usable(state[b])
    {
      var low, high := RowRange(matrix[c]);
      FitIsUsable(low, high, TopCode(bits[c]));
      state := state + [FitChannel(low, high, TopCode(bits[c]))];
    }
  }

  /** A calibrated channel whose weights straddle zero reconstructs each of them within half its scale. */
  lemma CalibratedWeightsReconstruct(row: seq<real>, top: int, c: Channel, j: nat, low: real, high: real)
    requires top > 0 && FittedTo(row, top, c) && IsRange(row, low, high) && j < |row|
    requires low <= 0.0 <= high && Spread(low, high)
    ensures Usable(c) && Within(Dequantize(c, Quantize(c, row[j])), row[j], 0.5 * c.scale)
  {
    var low', high' :| IsRange(row, low', high') && c == FitChannel(low', high', top);
    assert low == low' && high == high';
    FitIsUsable(low, high, top);
    RangeAroundZeroReconstructs(low, high, top);
  }

  /** The reconstructed row is within half a scale of the original, weight by weight. */
  predicate RowWithin(target: seq<real>, row: seq<real>, scale: real) {
    |target| == |row| && forall j :: 0 <= j < |row| ==> Within(target[j], row[j], 0.5 * scale)
  }

  /** Exactly which calibrated channels survive the round trip: all weights come back within half the scale if and only
      if the range is representable. */
  lemma ChannelReconstructsIff(row: seq<real>, top: int, c: Channel, low: real, high: real)
    requires top > 0 && FittedTo(row, top, c) && IsRange(row, low, high)
    ensures Usable(c)
    ensures RowWithin(DequantizeRow(c, QuantizeRow(c, row)), row, c.scale) <==> Representable(low, high, top)
  {
    var low', high' :| IsRange(row, low', high') && c == FitChannel(low', high', top);
    assert low == low' && high == high' && low <= high;
    FitIsUsable(low, high, top);
    RangeReconstructsIff(low, high, top);
    EndsReconstructRange(low, high, top);
    if RowWithin(DequantizeRow(c, QuantizeRow(c, row)), row, c.scale) {
      EndsReconstruct(row, c, low, high);
    }
  }

  lemma EndsReconstruct(row: seq<real>, c: Channel, low: real, high: real)
    requires Usable(c) && IsRange(row, low, high)
    requires RowWithin(DequantizeRow(c, QuantizeRow(c, row)), row, c.scale)
    ensures Dequantize(c, 0) - 0.5 * c.scale <= low && high <= Dequantize(c, c.top) + 0.5 * c.scale
  {
    var i :| 0 <= i < |row| && row[i] == low;
    var j :| 0 <= j < |row| && row[j] == high;
    ReconstructsIff(c, low);
    ReconstructsIff(c, high);
  }

  function QuantizeRow(c: Channel, row: seq<real>): (r: seq<int>)
    requires Usable(c)
    ensures |r| == |row| && forall j :: 0 <= j < |r| ==> r[j] == Quantize(c, row[j]) && 0 <= r[j] <= c.top
  {
    seq(|row|, j requires 0 <= j < |row| => Quantize(c, row[j]))
  }

  function DequantizeRow(c: Channel, codes: seq<int>): (r: seq<real>)
    ensures |r| == |codes| && forall j :: 0 <= j < |r| ==> r[j] == Dequantize(c, codes[j])
  {
    seq(|codes|, j requires 0 <= j < |codes| => Dequantize(c, codes[j]))
  }

  /** `quantize`: None is the error for a wrong number of channels. */
  method QuantizeMatrix(matrix: seq<seq<real>>, state: seq<Channel>) returns (output: Option<seq<seq<int>>>)
    requires forall c :: 0 <= c < |state| ==> Usable(state[c])
    ensures output.Some? <==> |matrix| == |state|
    ensures output.Some? ==> |output.value| == |matrix|
    ensures output.Some? ==> forall c :: 0 <= c < |matrix| ==> output.value[c] == QuantizeRow(state[c], matrix[c])
  {
    if |matrix| != |state| {
      return None;
    }
    var rows := [];
    for c := 0 to |matrix|
      invariant |rows| == c
      invariant forall b :: 0 <= b < c ==> rows[b] == QuantizeRow(state[b], matrix[b])
    {
      rows := rows + [QuantizeRow(state[c], matrix[c])];
    }
    output := Some(rows);
  }

  /** `dequantize`. */
  method DequantizeMatrix(codes: seq<seq<int>>, state: seq<Channel>) returns (output: Option<seq<seq<real>>>)
    ensures output.Some? <==> |codes| == |state|
    ensures output.Some? ==> |output.value| == |codes|
    ensures output.Some? ==> forall c :: 0 <= c < |codes| ==> output.value[c] == DequantizeRow(state[c], codes[c])
  {
    if |codes| != |state| {
      return None;
    }
    var rows := [];
    for c := 0 to |codes|
      invariant |rows| == c
      invariant forall b :: 0 <= b < c ==> rows[b] == DequantizeRow(state[b], codes[b])
    {
      rows := rows + [DequantizeRow(state[c], codes[c])];
    }
    output := Some(rows);
  }

  /** Integer codes survive a dequantize and a quantize of the whole row. */
  lemma RowCodesRoundTrip(c: Channel, codes: seq<int>)
    requires Usable(c) && forall j :: 0 <= j < |codes| ==> 0 <= codes[j] <= c.top
    ensures QuantizeRow(c, DequantizeRow(c, codes)) == codes
  {
    forall j | 0 <= j < |codes| ensures Quantize(c, Dequantize(c, codes[j])) == codes[j] {
      CodesRoundTrip(c, codes[j]);
    }
  }

  /** Quantizing a second time loses nothing more. */
  lemma SecondPassIsExact(c: Channel, row: seq<real>)
    requires Usable(c)
    ensures var once := DequantizeRow(c, QuantizeRow(c, row));
      DequantizeRow(c, QuantizeRow(c, once)) == once
  {
    RowCodesRoundTrip(c, QuantizeRow(c, row));
  }

  // ----- Mean squared error -----

  function SquareSum(target: seq<real>, row: seq<real>, n: nat): real
    requires n <= |target| == |row|
  {
    if n == 0 then 0.0 else SquareSum(target, row, n - 1) + Square(target[n - 1] - row[n - 1])
  }

  function Square(x: real): real {
    x * x
  }

  function MeanSquare(target: seq<real>, row: seq<real>): real
    requires |target| == |row| != 0
  {
    SquareSum(target, row, |row|) / |row| as real
  }

  /** Errors add up over the parts of a row. */
  lemma {:induction false} SquareSumConcat(a: seq<real>, b: seq<real>, c: seq<real>, d: seq<real>, n: nat)
    requires |a| == |b| && n <= |c| == |d|
    ensures SquareSum(a + c, b + d, |a| + n) == SquareSum(a, b, |a|) + SquareSum(c, d, n)
  {
    if n > 0 {
      SquareSumConcat(a, b, c, d, n - 1);
    } else {
      SquareSumPrefix(a, b, c, d, |a|);
    }
  }

  lemma {:induction false} SquareSumPrefix(a: seq<real>, b: seq<real>, c: seq<real>, d: seq<real>, n: nat)
    requires |a| == |b| && |c| == |d| && n <= |a|
    ensures SquareSum(a + c, b + d, n) == SquareSum(a, b, n)
  {
    if n > 0 {
      SquareSumPrefix(a, b, c, d, n - 1);
    }
  }

  lemma {:induction false} SquareSumOfEqual(target: seq<real>, row: seq<real>, n: nat, q: real)
    requires n <= |target| == |row| && forall j :: 0 <= j < n ==> Square(target[j] - row[j]) == q
    ensures SquareSum(target, row, n) == n as real * q
  {
    if n > 0 {
      SquareSumOfEqual(target, row, n - 1, q);
      NextMultiple(n, q);
    }
  }

  lemma SquareOfSign(d: real, x: real)
    requires d == x || d == -x
    ensures Square(d) == x * x
  {
  }

  /** A row that is off by x everywhere, in whatever direction, has the mean squared error x * x. */
  lemma MeanSquareOfConstant(target: seq<real>, row: seq<real>, x: real)
    requires |target| == |row| != 0
    requires forall j :: 0 <= j < |row| ==> target[j] - row[j] == x || target[j] - row[j] == -x
    ensures MeanSquare(target, row) == x * x
  {
    forall j | 0 <= j < |row| ensures Square(target[j] - row[j]) == x * x {
      SquareOfSign(target[j] - row[j], x);
    }
    SquareSumOfEqual(target, row, |row|, x * x);
    QuotientOfProduct(|row| as real, x * x);
  }

  lemma QuotientOfProduct(n: real, q: real)
    requires n > 0.0
    ensures (n * q) / n == q
  {
    QuotientBounds(n * q, n, q);
  }

  /** The mean error of two rows together is the mean of their errors, weighted by their lengths. */
  lemma MeanSquareConcat(a: seq<real>, b: seq<real>, c: seq<real>, d: seq<real>)
    requires |a| == |b| != 0 && |c| == |d| != 0
    ensures (|b| + |d|) as real * MeanSquare(a + c, b + d) ==
            |b| as real * MeanSquare(a, b) + |d| as real * MeanSquare(c, d)
  {
    SquareSumConcat(a, b, c, d, |c|);
    TimesQuotient(SquareSum(a + c, b + d, |b + d|), |b + d| as real);
    TimesQuotient(SquareSum(a, b, |b|), |b| as real);
    TimesQuotient(SquareSum(c, d, |d|), |d| as real);
  }

  lemma TimesQuotient(a: real, n: real)
    requires n > 0.0
    ensures n * (a / n) == a
  {
  }

  lemma SquareBound(x: real, bound: real)
    requires -bound <= x <= bound
    ensures 0.0 <= Square(x) <= Square(bound)
  {
    var y := if x < 0.0 then -x else x;
    assert Square(x) == Square(y);
    assert Square(bound) - Square(y) == (bound - y) * (bound + y);
  }

  lemma {:induction false} SquareSumBound(target: seq<real>, row: seq<real>, n: nat, bound: real)
    requires n <= |target| == |row| && forall j :: 0 <= j < n ==> -bound <= target[j] - row[j] <= bound
    ensures 0.0 <= SquareSum(target, row, n) <= n as real * Square(bound)
  {
    if n > 0 {
      SquareSumBound(target, row, n - 1, bound);
      SquareBound(target[n - 1] - row[n - 1], bound);
      NextMultiple(n, Square(bound));
    }
  }

  lemma NextMultiple(n: nat, x: real)
    requires n > 0
    ensures n as real * x == (n - 1) as real * x + x
  {
    assert n as real == (n - 1) as real + 1.0;
    Distribute((n - 1) as real, 1.0, x);
  }

  lemma QuotientAtMost(a: real, n: real, x: real)
    requires n > 0.0 && 0.0 <= a <= n * x
    ensures 0.0 <= a / n <= x
  {
    QuotientBounds(a, n, x);
    QuotientBounds(a, n, 0.0);
  }

  /** Rows within half a scale have a mean squared error of at most a quarter of the squared scale. */
  lemma MeanSquareBound(target: seq<real>, row: seq<real>, scale: real)
    requires row != [] && RowWithin(target, row, scale)
    ensures 0.0 <= MeanSquare(target, row) <= Square(0.5 * scale)
  {
    SquareSumBound(target, row, |row|, 0.5 * scale);
    QuotientAtMost(SquareSum(target, row, |row|), |row| as real, Square(0.5 * scale));
  }

  // ----- The plugin -----

  datatype QuantConfig = QuantConfig(sensitiveBits: Width, defaultBits: Width, sensitiveRatio: real)

  datatype QuantError = WrongImportance | NotFitted | WrongChannels

  datatype Outcome<T> = Good(value: T) | Bad(error: QuantError)

  /** The code width of channel c. */
  function BitsOf(config: QuantConfig, order: seq<nat>, c: nat): Width {
    if c in Sensitive(order, SensitiveCount(|order|, config.sensitiveRatio)) then config.sensitiveBits
    else config.defaultBits
  }

  /** Each channel is calibrated to its own row with the width its importance earned. */
  ghost predicate Calibrated(config: QuantConfig, order: seq<nat>, matrix: seq<seq<real>>, state: seq<Channel>) {
    && |state| == |matrix|
    && forall c :: 0 <= c < |matrix| ==>
         FittedTo(matrix[c], TopCode(BitsOf(config, order, c)), state[c]) && Usable(state[c])
  }

  class Plugin {
    const config: QuantConfig
    var state: Option<seq<Channel>>

    ghost predicate Valid()
      reads this
    {
      state.Some? ==> forall c :: 0 <= c < |state.value| ==> Usable(state.value[c])
    }

    constructor (config: QuantConfig)
      ensures Valid() && this.config == config && state == None
    {
      this.config, state := config, None;
    }

    /** `fit`; `order` is what argsort returns for the importance scores. */
    method FitWeights(matrix: seq<seq<real>>, importance: seq<real>, order: seq<nat>) returns (outcome: Outcome<seq<Channel>>)
      requires Valid() && IsArgsort(importance, order) && forall c :: 0 <= c < |matrix| ==> matrix[c] != []
      modifies this
      ensures Valid()
      ensures |importance| != |matrix| ==> outcome == Bad(WrongImportance) && state == old(state)
      ensures |importance| == |matrix| ==>
                && outcome.Good? && state == Some(outcome.value)
                && Calibrated(config, order, matrix, outcome.value)
    {
      if |importance| != |matrix| {
        return Bad(WrongImportance);
      }
      var bits := AllocateBits(importance, order, config.sensitiveRatio, config.sensitiveBits, config.defaultBits);
      var fitted := Fit(matrix, bits);
      state := Some(fitted);
      outcome := Good(fitted);
    }

    /** `quantize` with the stored state. */
    method QuantizeWeights(matrix: seq<seq<real>>) returns (outcome: Outcome<seq<seq<int>>>)
      requires Valid()
      ensures state.None? ==> outcome == Bad(NotFitted)
      ensures state.Some? && |matrix| != |state.value| ==> outcome == Bad(WrongChannels)
      ensures state.Some? && |matrix| == |state.value| ==>
                && outcome.Good? && |outcome.value| == |matrix|
                && forall c :: 0 <= c < |matrix| ==> outcome.value[c] == QuantizeRow(state.value[c], matrix[c])
    {
      if state.None? {
        return Bad(NotFitted);
      }
      var output := QuantizeMatrix(matrix, state.value);
      outcome := if output.Some? then Good(output.value) else Bad(WrongChannels);
    }

    /** `dequantize` with the stored state. */
    method DequantizeCodes(codes: seq<seq<int>>) returns (outcome: Outcome<seq<seq<real>>>)
      requires Valid()
      ensures state.None? ==> outcome == Bad(NotFitted)
      ensures state.Some? && |codes| != |state.value| ==> outcome == Bad(WrongChannels)
      ensures state.Some? && |codes| == |state.value| ==>
                && outcome.Good? && |outcome.value| == |codes|
                && forall c :: 0 <= c < |codes| ==> outcome.value[c] == DequantizeRow(state.value[c], codes[c])
    {
      if state.None? {
        return Bad(NotFitted);
      }
      var output := DequantizeMatrix(codes, state.value);
      outcome := if output.Some? then Good(output.value) else Bad(WrongChannels);
    }

    /** The round trip that `error` measures. On the weights the plugin was fitted to, the weights of a channel come
        back within half that channel's scale if and only if its range is representable at its width. */
    method Reconstruct(matrix: seq<seq<real>>) returns (outcome: Outcome<seq<seq<real>>>)
      requires Valid()
      ensures state.None? ==> outcome == Bad(NotFitted)
      ensures state.Some? && |matrix| != |state.value| ==> outcome == Bad(WrongChannels)
      ensures state.Some? && |matrix| == |state.value| ==> outcome.Good? && RoundTripped(matrix, state.value, outcome.value)
      ensures forall order: seq<nat>, c, low, high ::
                outcome.Good? && state.Some? && Calibrated(config, order, matrix, state.value) &&
                |outcome.value| == |matrix| && 0 <= c < |matrix| && IsRange(matrix[c], low, high) ==>
                (RowWithin(outcome.value[c], matrix[c], state.value[c].scale) <==>
                 Representable(low, high, TopCode(BitsOf(config, order, c))))
    {
      var codes := QuantizeWeights(matrix);
      if codes.Bad? {
        return Bad(codes.error);
      }
      outcome := DequantizeCodes(codes.value);
      forall order: seq<nat>, c, low, high |
        state.Some? && Calibrated(config, order, matrix, state.value) && 0 <= c < |matrix| && IsRange(matrix[c], low, high)
        ensures RowWithin(outcome.value[c], matrix[c], state.value[c].scale) <==>
                Representable(low, high, TopCode(BitsOf(config, order, c)))
      {
        ChannelReconstructsIff(matrix[c], TopCode(BitsOf(config, order, c)), state.value[c], low, high);
      }
    }

    /** `error`: the mean squared error of each channel; rows are not empty, as the mean of nothing is not a number. */
    method MeanErrors(matrix: seq<seq<real>>) returns (outcome: Outcome<seq<real>>)
      requires Valid() && forall c :: 0 <= c < |matrix| ==> matrix[c] != []
      ensures state.None? ==> outcome == Bad(NotFitted)
      ensures state.Some? && |matrix| != |state.value| ==> outcome == Bad(WrongChannels)
      ensures state.Some? && |matrix| == |state.value| ==>
                && outcome.Good? && |outcome.value| == |matrix|
                && forall c :: 0 <= c < |matrix| ==> outcome.value[c] == ChannelError(state.value[c], matrix[c])
    {
      var target := Reconstruct(matrix);
      if target.Bad? {
        return Bad(target.error);
      }
      var errors := [];
      for c := 0 to |matrix|
        invariant |errors| == c
        invariant forall b :: 0 <= b < c ==> errors[b] == ChannelError(state.value[b], matrix[b])
      {
        var sum := RowSquareSum(target.value[c], matrix[c]);
        errors := errors + [sum / |matrix[c]| as real];
      }
      outcome := Good(errors);
    }
  }

  /** Every row went through its own channel and back. */
  predicate RoundTripped(matrix: seq<seq<real>>, state: seq<Channel>, target: seq<seq<real>>) {
    && |target| == |matrix| == |state|
    && (forall c :: 0 <= c < |matrix| ==> Usable(state[c]))
    && forall c :: 0 <= c < |matrix| ==> target[c] == DequantizeRow(state[c], QuantizeRow(state[c], matrix[c]))
  }

  function ChannelError(c: Channel, row: seq<real>): real
    requires Usable(c) && row != []
  {
    MeanSquare(DequantizeRow(c, QuantizeRow(c, row)), row)
  }

  /** The error reported for a calibrated channel whose range is representable is at most a quarter of the squared
      scale. */
  lemma ChannelErrorBound(row: seq<real>, top: int, c: Channel, low: real, high: real)
    requires top > 0 && FittedTo(row, top, c) && IsRange(row, low, high) && Representable(low, high, top)
    ensures Usable(c) && 0.0 <= ChannelError(c, row) <= Square(0.5 * c.scale)
  {
    ChannelReconstructsIff(row, top, c, low, high);
    MeanSquareBound(DequantizeRow(c, QuantizeRow(c, row)), row, c.scale);
  }

  method RowSquareSum(target: seq<real>, row: seq<real>) returns (sum: real)
    requires |target| == |row|
    ensures sum == SquareSum(target, row, |row|)
  {
    sum := 0.0;
    for j := 0 to |row|
      invariant sum == SquareSum(target, row, j)
    {
      sum := sum + (target[j] - row[j]) * (target[j] - row[j]);
    }
  }
}
