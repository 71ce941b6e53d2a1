/** src/processors.cpp, ObservationValidator: the overflow-guarded shape check of an extra tensor. */
module ShapeCheck {
  import opened Statuses

  /** The true, unbounded product of the extents. */
  function Product(shape: seq<int>): int {
    if shape == [] then 1 else Product(shape[..|shape| - 1]) * shape[|shape| - 1]
  }

  predicate AllPositive(shape: seq<int>) {
    forall i :: 0 <= i < |shape| ==> shape[i] > 0
  }

  lemma {:induction false} ProductGrows(shape: seq<int>, n: nat)
    requires n <= |shape| && AllPositive(shape)
    ensures 1 <= Product(shape[..n]) <= Product(shape)
    decreases |shape|
  {
    if n < |shape| {
      var front := shape[..|shape| - 1];
      ProductGrows(front, n);
      assert front[..n] == shape[..n];
      Scale(Product(front), shape[|shape| - 1]);
    } else {
      assert shape[..n] == shape;
      if n > 0 {
        var front := shape[..n - 1];
        ProductGrows(front, n - 1);
        assert front[..n - 1] == front;
        Scale(Product(front), shape[n - 1]);
      }
    }
  }

  lemma Scale(a: int, b: int)
    requires a >= 1 && b >= 1
    ensures a <= a * b
  {
    assert a * b == a + a * (b - 1);
  }

  /** The division guard is exact: it rejects just the products above the 64-bit maximum. */
  lemma GuardIsExact(elements: nat, extent: int)
    requires extent > 0
    ensures elements > MAX / extent <==> elements * extent > MAX
  {
    var q := MAX / extent;
    assert q * extent <= MAX < (q + 1) * extent;
    if elements > q {
      assert elements * extent >= (q + 1) * extent by { Monotone(q + 1, elements, extent); }
    } else {
      assert elements * extent <= q * extent by { Monotone(elements, q, extent); }
    }
  }

  lemma Monotone(a: int, b: int, k: int)
    requires a <= b && k >= 0
    ensures a * k <= b * k
  {
    assert b * k - a * k == (b - a) * k;
  }

  datatype Verdict = Accepted | InvalidShape | Mismatch

  /** Lines 104-117. A shape is accepted exactly when all extents are positive and their true product is the
      data length, so no accepted product ever wrapped; the two rejections are told apart as in the source. */
  method CheckShape(shape: seq<int>, length: nat) returns (verdict: Verdict)
    requires length <= MAX
    ensures verdict == Accepted <==> AllPositive(shape) && Product(shape) == length
    ensures verdict == InvalidShape <==> !(AllPositive(shape) && Product(shape) <= MAX)
  {
    var elements := 1;
    for i := 0 to |shape|
      invariant AllPositive(shape[..i]) && elements == Product(shape[..i])
      invariant 1 <= elements <= MAX
    {
      var extent := shape[i];
      assert shape[..i + 1][..i] == shape[..i];
      if extent <= 0 {
        return InvalidShape;
      }
      GuardIsExact(elements, extent);
      if elements > MAX / extent {
        if AllPositive(shape) {
          ProductGrows(shape, i + 1);
        }
        return InvalidShape;
      }
      Scale(elements, extent);
      elements := elements * extent;
    }
    assert shape[..|shape|] == shape;
    verdict := if elements != length then Mismatch else Accepted;
  }
}
