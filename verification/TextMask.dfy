/** models/turbovla/split_tensorrt.py, _text: the self-attention mask and position ids of a tokenized prompt. */
module TextMask {
  import opened Collections

  /** np.flatnonzero of the special-token test: increasing positions. */
  predicate AreSpecials(length: nat, cols: seq<nat>) {
    Increasing(cols) && forall i :: 0 <= i < |cols| ==> cols[i] < length
  }

  /** Special positions that close a block: all but the first and the last position. */
  predicate Closes(length: nat, col: nat) {
    col != 0 && col != length - 1
  }

  /** The special position before entry k of the list; 0 when there is none. */
  function PreviousOf(cols: seq<nat>, k: nat): nat
    requires k <= |cols|
  {
    if k == 0 then 0 else cols[k - 1]
  }

  /** The start of the class of position i, looking at the first n special positions: the position after the
      previous special one if a closing special position at or after i is found, else i itself. */
  function Start(length: nat, cols: seq<nat>, n: nat, i: nat): nat
    requires n <= |cols|
  {
    if n == 0 then i
    else if Closes(length, cols[n - 1]) && PreviousOf(cols, n - 1) < i <= cols[n - 1] then PreviousOf(cols, n - 1) + 1
    else Start(length, cols, n - 1, i)
  }

  /** Positions past the specials seen so far are still alone. */
  lemma {:induction false} StartBeyond(length: nat, cols: seq<nat>, n: nat, i: nat)
    requires AreSpecials(length, cols) && n <= |cols| && PreviousOf(cols, n) < i
    ensures Start(length, cols, n, i) == i
  {
    if n > 0 {
      if n > 1 {
        assert cols[n - 2] < cols[n - 1];
      }
      StartBeyond(length, cols, n - 1, i);
    }
  }

  lemma {:induction false} StartBounds(length: nat, cols: seq<nat>, n: nat, i: nat)
    requires AreSpecials(length, cols) && n <= |cols|
    ensures Start(length, cols, n, i) <= i
    ensures i <= PreviousOf(cols, n) ==> Start(length, cols, n, i) <= PreviousOf(cols, n)
  {
    if n > 0 {
      StartBounds(length, cols, n - 1, i);
    }
  }

  /** Classes are contiguous: every position between the start of i's class and i is in the same class. */
  lemma {:induction false} ClassesAreIntervals(length: nat, cols: seq<nat>, n: nat, i: nat, j: nat)
    requires AreSpecials(length, cols) && n <= |cols|
    requires Start(length, cols, n, i) <= j <= i
    ensures Start(length, cols, n, j) == Start(length, cols, n, i)
  {
    if n > 0 {
      var previous, col := PreviousOf(cols, n - 1), cols[n - 1];
      if n > 1 {
        assert cols[n - 2] < cols[n - 1];
      }
      if Closes(length, col) && previous < i <= col {
      } else {
        ClassesAreIntervals(length, cols, n - 1, i, j);
        if previous < i {
          StartBeyond(length, cols, n - 1, i);
        }
      }
    }
  }

  /** What the loop has built after n special positions. */
  ghost predicate Built(length: nat, cols: seq<nat>, n: nat, mask: array2<bool>, position: array<int>)
    requires n <= |cols|
    reads mask, position
  {
    && mask.Length0 == length && mask.Length1 == length && position.Length == length
    && (forall i, j :: 0 <= i < length && 0 <= j < length ==>
          (mask[i, j] <==> Start(length, cols, n, i) == Start(length, cols, n, j)))
    && (forall i :: 0 <= i < length ==> position[i] == i - Start(length, cols, n, i))
  }

  /** self_mask[low:high, low:high] = True */
  method FillBlock(mask: array2<bool>, low: nat, high: nat)
    requires low <= high <= mask.Length0 && high <= mask.Length1
    modifies mask
    ensures forall i, j :: 0 <= i < mask.Length0 && 0 <= j < mask.Length1 ==>
              (mask[i, j] <==> old(mask[i, j]) || (low <= i < high && low <= j < high))
  {
    for row := low to high
      invariant forall i, j :: 0 <= i < mask.Length0 && 0 <= j < mask.Length1 ==>
                  (mask[i, j] <==> old(mask[i, j]) || (low <= i < row && low <= j < high))
    {
      for col := low to high
        invariant forall i, j :: 0 <= i < mask.Length0 && 0 <= j < mask.Length1 ==>
                    (mask[i, j] <==> old(mask[i, j]) || (low <= i < row && low <= j < high) ||
                                     (i == row && low <= j < col))
      {
        mask[row, col] := true;
      }
    }
  }

  /** position[low:high] = arange(high - low) */
  method FillPositions(position: array<int>, low: nat, high: nat)
    requires low <= high <= position.Length
    modifies position
    ensures forall i :: 0 <= i < position.Length ==>
              position[i] == if low <= i < high then i - low else old(position[i])
  {
    for i := low to high
      invariant forall k :: 0 <= k < position.Length ==>
                  position[k] == if low <= k < i then k - low else old(position[k])
    {
      position[i] := i - low;
    }
  }

  /** How one closing special position changes the classes: it joins the positions after the previous one. */
  lemma BlockJoins(length: nat, cols: seq<nat>, n: nat, i: nat, j: nat)
    requires AreSpecials(length, cols) && n < |cols| && Closes(length, cols[n])
    ensures var low, high := PreviousOf(cols, n) + 1, cols[n] + 1;
      Start(length, cols, n + 1, i) == Start(length, cols, n + 1, j) <==>
      Start(length, cols, n, i) == Start(length, cols, n, j) || (low <= i < high && low <= j < high)
  {
    var low, high := PreviousOf(cols, n) + 1, cols[n] + 1;
    if n > 0 {
      assert cols[n - 1] < cols[n];
    }
    StartBounds(length, cols, n, i);
    StartBounds(length, cols, n, j);
    if low <= i { StartBeyond(length, cols, n, i); }
    if low <= j { StartBeyond(length, cols, n, j); }
  }

  /** The branch of a closing special position. */
  method CloseBlock(length: nat, ghost cols: seq<nat>, ghost n: nat, mask: array2<bool>, position: array<int>,
                    previous: nat, col: nat)
    requires AreSpecials(length, cols) && n < |cols| && Closes(length, cols[n])
    requires Built(length, cols, n, mask, position) && previous == PreviousOf(cols, n) && col == cols[n]
    modifies mask, position
    ensures Built(length, cols, n + 1, mask, position)
  {
    if n > 0 {
      assert cols[n - 1] < cols[n];
    }
    FillBlock(mask, previous + 1, col + 1);
    FillPositions(position, previous + 1, col + 1);
    forall i, j | 0 <= i < length && 0 <= j < length
      ensures mask[i, j] <==> Start(length, cols, n + 1, i) == Start(length, cols, n + 1, j)
    {
      BlockJoins(length, cols, n, i, j);
    }
  }

  /** The branch of the first and the last position, which writes what is already there. */
  method MarkBoundary(length: nat, ghost cols: seq<nat>, ghost n: nat, mask: array2<bool>, position: array<int>, col: nat)
    requires AreSpecials(length, cols) && n < |cols| && !Closes(length, cols[n])
    requires Built(length, cols, n, mask, position) && col == cols[n]
    modifies mask, position
    ensures Built(length, cols, n + 1, mask, position)
    ensures forall i, j :: 0 <= i < length && 0 <= j < length ==> mask[i, j] == old(mask[i, j])
    ensures forall i :: 0 <= i < length ==> position[i] == old(position[i])
  {
    BoundaryPosition(length, cols, n);
    mask[col, col] := true;
    position[col] := 0;
  }

  /** The loop of `_text`, for any increasing special positions. */
  method BuildMask(length: nat, cols: seq<nat>) returns (mask: array2<bool>, position: array<int>)
    requires AreSpecials(length, cols)
    ensures fresh(mask) && fresh(position)
    ensures Built(length, cols, |cols|, mask, position)
  {
    mask := new bool[length, length]((i, j) => i == j);
    position := new int[length](_ => 0);
    var previous := 0;
    for k := 0 to |cols|
      invariant fresh(mask) && fresh(position)
      invariant previous == PreviousOf(cols, k)
      invariant Built(length, cols, k, mask, position)
    {
      var col := cols[k];
      if col == 0 || col == length - 1 {
        MarkBoundary(length, cols, k, mask, position, col);
      } else {
        CloseBlock(length, cols, k, mask, position, previous, col);
      }
      previous := col;
    }
  }

  /** The first and the last position are never inside an earlier block. */
  lemma BoundaryPosition(length: nat, cols: seq<nat>, k: nat)
    requires AreSpecials(length, cols) && k < |cols| && !Closes(length, cols[k])
    ensures Start(length, cols, k, cols[k]) == cols[k]
  {
    if cols[k] == 0 {
      StartBounds(length, cols, k, 0);
    } else {
      if k > 0 {
        assert cols[k - 1] < cols[k];
      }
      StartBeyond(length, cols, k, cols[k]);
    }
  }

  /** For any special positions the mask is an equivalence relation whose classes are intervals, and every
      position id is the offset from the start of its class. */
  lemma MaskIsIntervalEquivalence(length: nat, cols: seq<nat>, mask: array2<bool>, position: array<int>,
                                  i: nat, j: nat, k: nat)
    requires AreSpecials(length, cols) && Built(length, cols, |cols|, mask, position)
    requires i < length && j < length && k < length
    ensures mask[i, i] && mask[i, j] == mask[j, i] && (mask[i, j] && mask[j, k] ==> mask[i, k])
    ensures i <= j <= k && mask[i, k] ==> mask[i, j]
    ensures 0 <= position[i] <= i && mask[i, i - position[i]]
    ensures j < i - position[i] ==> !mask[i, j]
  {
    var n := |cols|;
    assert mask[i, j] <==> Start(length, cols, n, i) == Start(length, cols, n, j);
    assert mask[j, k] <==> Start(length, cols, n, j) == Start(length, cols, n, k);
    assert mask[i, k] <==> Start(length, cols, n, i) == Start(length, cols, n, k);
    StartBounds(length, cols, n, i);
    StartBounds(length, cols, n, j);
    ClassesAreIntervals(length, cols, n, i, Start(length, cols, n, i));
    if i <= j <= k && mask[i, k] {
      ClassesAreIntervals(length, cols, n, k, j);
    }
    if j < i - position[i] {
      assert Start(length, cols, n, j) < Start(length, cols, n, i);
    }
  }

  /** Position i lies after special position k - 1 and up to the closing special position k. */
  predicate InBlock(length: nat, cols: seq<nat>, k: nat, i: nat)
    requires k < |cols|
  {
    Closes(length, cols[k]) && PreviousOf(cols, k) < i <= cols[k]
  }

  /** Two different positions are in one class exactly when one block holds both. */
  lemma {:induction false} SameClassIffSameBlock(length: nat, cols: seq<nat>, n: nat, i: nat, j: nat)
    requires AreSpecials(length, cols) && n <= |cols|
    ensures Start(length, cols, n, i) == Start(length, cols, n, j) <==>
            i == j || exists k :: 0 <= k < n && InBlock(length, cols, k, i) && InBlock(length, cols, k, j)
  {
    if n > 0 {
      SameClassIffSameBlock(length, cols, n - 1, i, j);
      if Closes(length, cols[n - 1]) {
        BlockJoins(length, cols, n - 1, i, j);
        if InBlock(length, cols, n - 1, i) && InBlock(length, cols, n - 1, j) {
          assert Start(length, cols, n, i) == Start(length, cols, n, j);
        }
      }
    }
  }

  /** The position lies in the block that inner special position k closes: after the special position before it. */
  predicate Between(length: nat, cols: seq<nat>, k: nat, i: nat)
    requires k < |cols|
  {
    0 < cols[k] < length - 1 && (if k == 0 then 0 else cols[k - 1]) < i <= cols[k]
  }

  /** What the mask and the position ids hold, without the loop: the mask is the diagonal and the squares of the blocks;
      a position in a block is numbered from the start of the block, any other position is numbered zero. */
  lemma MaskIsBlocks(length: nat, cols: seq<nat>, mask: array2<bool>, position: array<int>, i: nat, j: nat)
    requires AreSpecials(length, cols) && Built(length, cols, |cols|, mask, position)
    requires i < length && j < length
    ensures mask[i, j] <==>
            i == j || exists k :: 0 <= k < |cols| && Between(length, cols, k, i) && Between(length, cols, k, j)
    ensures forall k :: 0 <= k < |cols| && Between(length, cols, k, i) ==>
              position[i] == i - (if k == 0 then 0 else cols[k - 1]) - 1
    ensures (forall k :: 0 <= k < |cols| ==> !Between(length, cols, k, i)) ==> position[i] == 0
  {
    assert forall k, x :: 0 <= k < |cols| ==> (InBlock(length, cols, k, x) <==> Between(length, cols, k, x));
    SameClassIffSameBlock(length, cols, |cols|, i, j);
    StartIsBlockStart(length, cols, |cols|, i);
  }

  lemma {:induction false} StartIsBlockStart(length: nat, cols: seq<nat>, n: nat, i: nat)
    requires AreSpecials(length, cols) && n <= |cols|
    ensures forall k :: 0 <= k < n && InBlock(length, cols, k, i) ==> Start(length, cols, n, i) == PreviousOf(cols, k) + 1
    ensures (forall k :: 0 <= k < n ==> !InBlock(length, cols, k, i)) ==> Start(length, cols, n, i) == i
  {
    if n > 0 {
      StartIsBlockStart(length, cols, n - 1, i);
      if InBlock(length, cols, n - 1, i) {
        forall k | 0 <= k < n - 1 ensures !InBlock(length, cols, k, i) {
          assert cols[k] <= PreviousOf(cols, n - 1);
        }
      }
    }
  }
}
