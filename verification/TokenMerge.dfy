/** plugins/token_merge.py: greedy merging of the most similar tokens beyond a protected prefix. */
module TokenMerge {
  import opened Collections

  type Row = seq<real>

  /** Which two rows of the unprotected body are most similar: the argmax of the similarity matrix. */
  type Picker = seq<Row> -> (nat, nat)

  /** The diagonal is masked out, so with two rows or more the pair is distinct; with one row it is (0, 0). */
  predicate PicksPair(body: seq<Row>, pair: (nat, nat)) {
    && pair.0 < |body| && pair.1 < |body|
    && (|body| >= 2 ==> pair.0 != pair.1)
  }

  ghost predicate IsPicker(pick: Picker) {
    forall body: seq<Row> :: body != [] ==> PicksPair(body, pick(body))
  }

  function RemoveAt<T>(s: seq<T>, i: nat): (r: seq<T>)
    requires i < |s|
    ensures |r| == |s| - 1
  {
    s[..i] + s[i + 1..]
  }

  /** np.delete of one or two rows. */
  function Delete<T>(s: seq<T>, a: nat, b: nat): (r: seq<T>)
    requires a < |s| && b < |s|
    ensures |r| == if a == b then |s| - 1 else |s| - 2
  {
    if a == b then RemoveAt(s, a)
    else if a < b then RemoveAt(RemoveAt(s, b), a)
    else RemoveAt(RemoveAt(s, a), b)
  }

  predicate Rectangular(rows: seq<Row>, width: nat) {
    forall i :: 0 <= i < |rows| ==> |rows[i]| == width
  }

  function Average(a: Row, b: Row): (r: Row)
    requires |a| == |b|
    ensures |r| == |a|
  {
    seq(|a|, j requires 0 <= j < |a| => (a[j] + b[j]) / 2.0)
  }

  /** One iteration of the loop. */
  function MergeStep(pick: Picker, width: nat, protected: nat, merged: seq<Row>): (r: seq<Row>)
    requires protected < |merged| && Rectangular(merged, width) && PicksPair(merged[protected..], pick(merged[protected..]))
  {
    var body := merged[protected..];
    var pair := pick(body);
    merged[..protected] + (Delete(body, pair.0, pair.1) + [Average(body[pair.0], body[pair.1])])
  }

  function Max(a: nat, b: nat): nat {
    if a < b then b else a
  }

  predicate Done(keep: nat, protected: nat, merged: seq<Row>) {
    |merged| <= keep || |merged| <= protected
  }

  // ----- When the loop ends -----

  lemma {:induction false} DeleteRows(rows: seq<Row>, a: nat, b: nat, width: nat)
    requires a < |rows| && b < |rows| && Rectangular(rows, width)
    ensures Rectangular(Delete(rows, a, b), width)
  {
  }

  lemma StepShape(pick: Picker, width: nat, protected: nat, merged: seq<Row>)
    requires protected < |merged| && Rectangular(merged, width) && IsPicker(pick)
    ensures PicksPair(merged[protected..], pick(merged[protected..]))
    ensures var r := MergeStep(pick, width, protected, merged);
      && Rectangular(r, width)
      && |r| == (if |merged| == protected + 1 then |merged| else |merged| - 1)
      && r[..protected] == merged[..protected]
  {
    var body := merged[protected..];
    assert Rectangular(body, width);
    DeleteRows(body, pick(body).0, pick(body).1, width);
  }

  /** Where the rows go: the protected ones stay, the others close up over the two that were picked, and the mean of
      those two comes last. */
  lemma StepPlaces(pick: Picker, width: nat, protected: nat, merged: seq<Row>, k: nat)
    requires protected + 1 < |merged| && Rectangular(merged, width) && IsPicker(pick) && k < |merged| - protected
    ensures PicksPair(merged[protected..], pick(merged[protected..]))
    ensures var pair, r := pick(merged[protected..]), MergeStep(pick, width, protected, merged);
      && |r| == |merged| - 1 && r[..protected] == merged[..protected]
      && (k != pair.0 && k != pair.1 ==>
            r[protected + k - Passed(pair.0, k) - Passed(pair.1, k)] == merged[protected + k])
      && IsMean(r[|r| - 1], merged[protected + pair.0], merged[protected + pair.1])
  {
    StepShape(pick, width, protected, merged);
    var body := merged[protected..];
    var pair := pick(body);
    var rest := Delete(body, pair.0, pair.1);
    assert body[pair.0] == merged[protected + pair.0] && body[pair.1] == merged[protected + pair.1];
    LastOfThree(merged[..protected], rest, Average(body[pair.0], body[pair.1]));
    if k != pair.0 && k != pair.1 {
      DeletePlaces(body, pair.0, pair.1, k);
      MiddleOfThree(merged[..protected], rest, Average(body[pair.0], body[pair.1]), k - Passed(pair.0, k) - Passed(pair.1, k));
    }
  }

  lemma LastOfThree<T>(a: seq<T>, b: seq<T>, c: T)
    ensures |a + (b + [c])| == |a| + |b| + 1 && (a + (b + [c]))[|a| + |b|] == c
  {
  }

  lemma MiddleOfThree<T>(a: seq<T>, b: seq<T>, c: T, i: nat)
    requires i < |b|
    ensures (a + (b + [c]))[|a| + i] == b[i]
  {
  }

  /** Entry for entry, twice the row is the sum of the two. */
  predicate IsMean(row: Row, a: Row, b: Row) {
    |row| == |a| == |b| && forall j :: 0 <= j < |row| ==> row[j] + row[j] == a[j] + b[j]
  }

  /** One if row a is before row k. */
  function Passed(a: nat, k: nat): nat {
    if a < k then 1 else 0
  }

  lemma RemovePlaces<T>(s: seq<T>, a: nat, k: nat)
    requires a < |s| && k < |s| && k != a
    ensures 0 <= k - Passed(a, k) < |RemoveAt(s, a)| && RemoveAt(s, a)[k - Passed(a, k)] == s[k]
  {
  }

  lemma DeletePlaces<T>(s: seq<T>, a: nat, b: nat, k: nat)
    requires a < |s| && b < |s| && a != b && k < |s| && k != a && k != b
    ensures 0 <= k - Passed(a, k) - Passed(b, k) < |Delete(s, a, b)|
    ensures Delete(s, a, b)[k - Passed(a, k) - Passed(b, k)] == s[k]
  {
    var low, high := if a < b then a else b, if a < b then b else a;
    RemovePlaces(s, high, k);
    RemovePlaces(RemoveAt(s, high), low, k - Passed(high, k));
  }

  /** How one iteration changes the number of rows. */
  function Shrunk(n: nat, keep: nat, protected: nat): nat {
    if n <= keep || n <= protected + 1 then n else n - 1
  }

  /** The number of rows left after at most k iterations, by arithmetic alone. */
  function SizeAfter(n: nat, k: nat, keep: nat, protected: nat): nat {
    if k == 0 then n else Shrunk(SizeAfter(n, k - 1, keep, protected), keep, protected)
  }

  /** The loop test and, if it holds, one iteration. */
  function Once(pick: Picker, width: nat, keep: nat, protected: nat, merged: seq<Row>): (r: seq<Row>)
    requires Rectangular(merged, width) && IsPicker(pick)
    ensures Rectangular(r, width) && |r| == Shrunk(|merged|, keep, protected)
  {
    if Done(keep, protected, merged) then merged
    else
      StepShape(pick, width, protected, merged);
      MergeStep(pick, width, protected, merged)
  }

  /** Entry i + 1 of the history is one iteration after entry i. */
  ghost predicate IterationAt(pick: Picker, width: nat, keep: nat, protected: nat, history: seq<seq<Row>>, i: nat) {
    && i + 1 < |history| && Rectangular(history[i], width) && IsPicker(pick)
    && history[i + 1] == Once(pick, width, keep, protected, history[i])
  }

  /** The streams the loop has gone through, from the input to the present one. */
  ghost predicate IsHistory(pick: Picker, width: nat, keep: nat, protected: nat, tokens: seq<Row>, merged: seq<Row>,
                            history: seq<seq<Row>>) {
    && history != [] && history[0] == tokens && history[|history| - 1] == merged
    && forall i :: 0 <= i < |history| - 1 ==> IterationAt(pick, width, keep, protected, history, i)
  }

  lemma HistorySnoc(pick: Picker, width: nat, keep: nat, protected: nat, tokens: seq<Row>, merged: seq<Row>,
                    history: seq<seq<Row>>, next: seq<Row>)
    requires IsHistory(pick, width, keep, protected, tokens, merged, history)
    requires Rectangular(merged, width) && IsPicker(pick) && next == Once(pick, width, keep, protected, merged)
    ensures IsHistory(pick, width, keep, protected, tokens, next, history + [next])
  {
    var history' := history + [next];
    forall i | 0 <= i < |history'| - 1 ensures IterationAt(pick, width, keep, protected, history', i) {
      if i < |history| - 1 {
        assert IterationAt(pick, width, keep, protected, history, i);
      }
    }
  }

  lemma {:induction false} HistorySize(pick: Picker, width: nat, keep: nat, protected: nat, tokens: seq<Row>,
                                       merged: seq<Row>, history: seq<seq<Row>>, i: nat)
    requires IsHistory(pick, width, keep, protected, tokens, merged, history) && i < |history|
    ensures |history[i]| == SizeAfter(|tokens|, i, keep, protected)
  {
    if i > 0 {
      HistorySize(pick, width, keep, protected, tokens, merged, history, i - 1);
      assert IterationAt(pick, width, keep, protected, history, i - 1);
    }
  }

  /** The loop can always go on: a history of any length. */
  lemma {:induction false} HistoryExists(pick: Picker, width: nat, keep: nat, protected: nat, tokens: seq<Row>, k: nat)
    returns (merged: seq<Row>, history: seq<seq<Row>>)
    requires Rectangular(tokens, width) && IsPicker(pick)
    ensures IsHistory(pick, width, keep, protected, tokens, merged, history) && |history| == k + 1
    ensures Rectangular(merged, width)
  {
    if k == 0 {
      merged, history := tokens, [tokens];
    } else {
      var before, shorter := HistoryExists(pick, width, keep, protected, tokens, k - 1);
      merged := Once(pick, width, keep, protected, before);
      HistorySnoc(pick, width, keep, protected, tokens, before, shorter, merged);
      history := shorter + [merged];
    }
  }

  lemma {:induction false} HopelessSize(n: nat, k: nat, keep: nat, protected: nat)
    requires Hopeless(n, keep, protected)
    ensures SizeAfter(n, k, keep, protected) > protected
  {
    if k > 0 {
      HopelessSize(n, k - 1, keep, protected);
    }
  }

  lemma {:induction false} ShrinkingSize(n: nat, k: nat, keep: nat, protected: nat)
    requires protected < keep <= n
    ensures SizeAfter(n, k, keep, protected) == if n - k > keep then n - k else keep
  {
    if k > 0 {
      ShrinkingSize(n, k - 1, keep, protected);
    }
  }

  /** The loop goes through this history and its test then fails. */
  ghost predicate EndsAfter(pick: Picker, width: nat, keep: nat, protected: nat, tokens: seq<Row>, merged: seq<Row>,
                            history: seq<seq<Row>>) {
    IsHistory(pick, width, keep, protected, tokens, merged, history) && Done(keep, protected, merged)
  }

  /** The rows to keep do not outnumber the protected ones, yet there are rows to merge. */
  predicate Hopeless(n: nat, keep: nat, protected: nat) {
    keep <= protected < n
  }

  /** A hopeless loop never gets down to the protected rows. */
  lemma HopelessStays(pick: Picker, width: nat, keep: nat, protected: nat, tokens: seq<Row>, merged: seq<Row>,
                      history: seq<seq<Row>>)
    requires IsHistory(pick, width, keep, protected, tokens, merged, history) && Hopeless(|tokens|, keep, protected)
    ensures |merged| > protected
  {
    HistorySize(pick, width, keep, protected, tokens, merged, history, |history| - 1);
    HopelessSize(|tokens|, |history| - 1, keep, protected);
  }

  /** With more rows to keep than protected ones, each iteration removes exactly one row until keep are left. */
  lemma ShrinksToKeep(pick: Picker, width: nat, keep: nat, protected: nat, tokens: seq<Row>, merged: seq<Row>,
                      history: seq<seq<Row>>, i: nat)
    requires IsHistory(pick, width, keep, protected, tokens, merged, history) && i < |history|
    requires protected < keep <= |tokens|
    ensures |history[i]| == if |tokens| - i > keep then |tokens| - i else keep
  {
    HistorySize(pick, width, keep, protected, tokens, merged, history, i);
    ShrinkingSize(|tokens|, i, keep, protected);
  }

  /** The loop ends if and only if it is not hopeless: keep <= protected < n makes it run forever, because
      merging the single unprotected row left with itself never shortens the stream. */
  lemma TerminatesIff(pick: Picker, width: nat, keep: nat, protected: nat, tokens: seq<Row>)
    requires Rectangular(tokens, width) && IsPicker(pick)
    ensures (exists merged, history :: EndsAfter(pick, width, keep, protected, tokens, merged, history)) <==>
            !Hopeless(|tokens|, keep, protected)
  {
    if Hopeless(|tokens|, keep, protected) {
      forall merged, history ensures !EndsAfter(pick, width, keep, protected, tokens, merged, history) {
        if IsHistory(pick, width, keep, protected, tokens, merged, history) {
          HopelessStays(pick, width, keep, protected, tokens, merged, history);
        }
      }
    } else {
      var merged, history := HistoryExists(pick, width, keep, protected, tokens, |tokens|);
      HistorySize(pick, width, keep, protected, tokens, merged, history, |tokens|);
      HopefulSize(|tokens|, keep, protected);
      assert EndsAfter(pick, width, keep, protected, tokens, merged, history);
    }
  }

  lemma HopefulSize(n: nat, keep: nat, protected: nat)
    requires !Hopeless(n, keep, protected)
    ensures SizeAfter(n, n, keep, protected) <= keep || SizeAfter(n, n, keep, protected) <= protected
  {
    if protected < keep <= n {
      ShrinkingSize(n, n, keep, protected);
    } else {
      ShortStays(n, n, keep, protected);
    }
  }

  lemma {:induction false} ShortStays(n: nat, k: nat, keep: nat, protected: nat)
    requires n <= keep || n <= protected
    ensures SizeAfter(n, k, keep, protected) == n
  {
    if k > 0 {
      ShortStays(n, k - 1, keep, protected);
    }
  }

  // ----- The parameters compress computes -----

  function Ceil(x: real): int {
    -((-x).Floor)
  }

  function KeepOf(count: nat, mergeRatio: real): (keep: nat)
    ensures keep >= 1 && keep as real >= count as real * (1.0 - mergeRatio)
    ensures keep > 1 ==> (keep - 1) as real < count as real * (1.0 - mergeRatio)
  {
    var n := Ceil(count as real * (1.0 - mergeRatio));
    if n < 1 then 1 else n
  }

  function ProtectedOf(count: nat, salientRatio: real): (protected: nat)
    requires 0.0 <= salientRatio
    ensures protected <= count
    ensures protected < count ==> protected == Round(count as real * salientRatio)
    ensures protected == count ==> count as real * salientRatio >= count as real - 0.5
  {
    RoundIsNearest(count as real * salientRatio);
    var n := Round(count as real * salientRatio);
    if n > count then count else if n < 0 then 0 else n
  }

  /** A permitted configuration reaches the endless loop: ten tokens, nine tenths merged, half protected. */
  lemma CompressCanDiverge()
    ensures Hopeless(10, KeepOf(10, 0.9), ProtectedOf(10, 0.5))
  {
    assert KeepOf(10, 0.9) == 1;
    assert ProtectedOf(10, 0.5) == 5;
  }

  // ----- Where the output rows come from -----

  /** How a row was made: an input row, or the mean of two earlier rows. */
  datatype Tree = Leaf(index: nat) | Mean(left: Tree, right: Tree)

  predicate LeavesBelow(t: Tree, n: nat) {
    match t
    case Leaf(i) => i < n
    case Mean(l, r) => LeavesBelow(l, n) && LeavesBelow(r, n)
  }

  function Eval(t: Tree, tokens: seq<Row>, width: nat): (row: Row)
    requires LeavesBelow(t, |tokens|) && Rectangular(tokens, width)
    ensures |row| == width
  {
    match t
    case Leaf(i) => tokens[i]
    case Mean(l, r) => Average(Eval(l, tokens, width), Eval(r, tokens, width))
  }

  function LeafCount(t: Tree, i: nat): nat {
    match t
    case Leaf(j) => if i == j then 1 else 0
    case Mean(l, r) => LeafCount(l, i) + LeafCount(r, i)
  }

  function ForestCount(trees: seq<Tree>, i: nat): nat {
    if trees == [] then 0 else LeafCount(trees[0], i) + ForestCount(trees[1..], i)
  }

  lemma {:induction false} ForestConcat(a: seq<Tree>, b: seq<Tree>, i: nat)
    ensures ForestCount(a + b, i) == ForestCount(a, i) + ForestCount(b, i)
  {
    if a == [] {
      assert a + b == b;
    } else {
      ForestConcat(a[1..], b, i);
      assert (a + b)[1..] == a[1..] + b;
    }
  }

  lemma ForestRemove(trees: seq<Tree>, k: nat, i: nat)
    requires k < |trees|
    ensures ForestCount(RemoveAt(trees, k), i) + LeafCount(trees[k], i) == ForestCount(trees, i)
  {
    assert trees == trees[..k] + ([trees[k]] + trees[k + 1..]);
    ForestConcat(trees[..k], [trees[k]] + trees[k + 1..], i);
    ForestConcat([trees[k]], trees[k + 1..], i);
    ForestConcat(trees[..k], trees[k + 1..], i);
    assert ForestCount([trees[k]], i) == LeafCount(trees[k], i);
  }

  lemma ForestDelete(trees: seq<Tree>, a: nat, b: nat, i: nat)
    requires a < |trees| && b < |trees| && a != b
    ensures ForestCount(Delete(trees, a, b), i) + LeafCount(trees[a], i) + LeafCount(trees[b], i) == ForestCount(trees, i)
  {
    if a < b {
      ForestRemove(trees, b, i);
      ForestRemove(RemoveAt(trees, b), a, i);
    } else {
      ForestRemove(trees, a, i);
      ForestRemove(RemoveAt(trees, a), b, i);
    }
  }

  /** Row k is what tree k makes of the input. */
  ghost predicate Made(body: seq<Row>, trees: seq<Tree>, tokens: seq<Row>, width: nat) {
    && |body| == |trees| && Rectangular(tokens, width)
    && forall k :: 0 <= k < |trees| ==> LeavesBelow(trees[k], |tokens|) && body[k] == Eval(trees[k], tokens, width)
  }

  /** The trees together use every input row from `from` on exactly once and nothing else. */
  ghost predicate UsesEachOnce(trees: seq<Tree>, from: nat, n: nat) {
    forall i: nat {:trigger ForestCount(trees, i)} :: ForestCount(trees, i) == if from <= i < n then 1 else 0
  }

  /** The merged rows are the protected prefix followed by one row per tree, and the trees together use every
      unprotected input row exactly once and nothing else. */
  ghost predicate Lineage(tokens: seq<Row>, width: nat, protected: nat, merged: seq<Row>, trees: seq<Tree>) {
    && protected <= |tokens| && protected <= |merged|
    && merged[..protected] == tokens[..protected]
    && Made(merged[protected..], trees, tokens, width)
    && UsesEachOnce(trees, protected, |tokens|)
  }

  function Leaves(from: nat, n: nat): (r: seq<Tree>)
    requires from <= n
    ensures |r| == n - from && forall k :: 0 <= k < |r| ==> r[k] == Leaf(from + k)
    decreases n - from
  {
    if from == n then [] else [Leaf(from)] + Leaves(from + 1, n)
  }

  lemma {:induction false} LeavesCount(from: nat, n: nat, i: nat)
    requires from <= n
    ensures ForestCount(Leaves(from, n), i) == if from <= i < n then 1 else 0
    decreases n - from
  {
    if from < n {
      LeavesCount(from + 1, n, i);
      assert Leaves(from, n)[1..] == Leaves(from + 1, n);
    }
  }

  lemma LeavesMade(tokens: seq<Row>, width: nat, protected: nat)
    requires Rectangular(tokens, width) && protected <= |tokens|
    ensures Made(tokens[protected..], Leaves(protected, |tokens|), tokens, width)
  {
  }

  lemma InputLineage(tokens: seq<Row>, width: nat, protected: nat)
    requires Rectangular(tokens, width) && protected <= |tokens|
    ensures Lineage(tokens, width, protected, tokens, Leaves(protected, |tokens|))
  {
    LeavesMade(tokens, width, protected);
    forall i: nat ensures ForestCount(Leaves(protected, |tokens|), i) == if protected <= i < |tokens| then 1 else 0 {
      LeavesCount(protected, |tokens|, i);
    }
  }

  lemma RemoveCommutes(body: seq<Row>, trees: seq<Tree>, i: nat, tokens: seq<Row>, width: nat)
    requires Made(body, trees, tokens, width) && i < |body|
    ensures Made(RemoveAt(body, i), RemoveAt(trees, i), tokens, width)
  {
  }

  lemma DeleteCommutes(body: seq<Row>, trees: seq<Tree>, a: nat, b: nat, tokens: seq<Row>, width: nat)
    requires Made(body, trees, tokens, width) && a < |body| && b < |body| && a != b
    ensures Made(Delete(body, a, b), Delete(trees, a, b), tokens, width)
  {
    if a < b {
      RemoveCommutes(body, trees, b, tokens, width);
      RemoveCommutes(RemoveAt(body, b), RemoveAt(trees, b), a, tokens, width);
    } else {
      RemoveCommutes(body, trees, a, tokens, width);
      RemoveCommutes(RemoveAt(body, a), RemoveAt(trees, a), b, tokens, width);
    }
  }

  function GrowTrees(trees: seq<Tree>, a: nat, b: nat): seq<Tree>
    requires a < |trees| && b < |trees|
  {
    Delete(trees, a, b) + [Mean(trees[a], trees[b])]
  }

  lemma GrownCount(trees: seq<Tree>, a: nat, b: nat, i: nat)
    requires a < |trees| && b < |trees| && a != b
    ensures ForestCount(GrowTrees(trees, a, b), i) == ForestCount(trees, i)
  {
    ForestDelete(trees, a, b, i);
    var mean := Mean(trees[a], trees[b]);
    ForestConcat(Delete(trees, a, b), [mean], i);
    assert ForestCount([mean], i) == LeafCount(mean, i);
  }

  function GrowRows(body: seq<Row>, a: nat, b: nat): seq<Row>
    requires a < |body| && b < |body| && |body[a]| == |body[b]|
  {
    Delete(body, a, b) + [Average(body[a], body[b])]
  }

  lemma GrownRows(body: seq<Row>, trees: seq<Tree>, a: nat, b: nat, tokens: seq<Row>, width: nat)
    requires Made(body, trees, tokens, width) && a < |body| && b < |body| && a != b
    ensures |body[a]| == |body[b]|
    ensures Made(GrowRows(body, a, b), GrowTrees(trees, a, b), tokens, width)
  {
    DeleteCommutes(body, trees, a, b, tokens, width);
    var mean := Mean(trees[a], trees[b]);
    assert LeavesBelow(mean, |tokens|);
    assert Eval(mean, tokens, width) == Average(body[a], body[b]);
  }

  lemma GrownUses(trees: seq<Tree>, a: nat, b: nat, from: nat, n: nat)
    requires a < |trees| && b < |trees| && a != b && UsesEachOnce(trees, from, n)
    ensures UsesEachOnce(GrowTrees(trees, a, b), from, n)
  {
    forall i: nat ensures ForestCount(GrowTrees(trees, a, b), i) == if from <= i < n then 1 else 0 {
      GrownCount(trees, a, b, i);
    }
  }

  /** A merge of two distinct rows keeps the lineage, with the two trees joined. */
  lemma StepLineage(pick: Picker, tokens: seq<Row>, width: nat, protected: nat, merged: seq<Row>, trees: seq<Tree>,
                    a: nat, b: nat)
    requires Lineage(tokens, width, protected, merged, trees) && Rectangular(merged, width)
    requires |merged| >= protected + 2 && pick(merged[protected..]) == (a, b) && PicksPair(merged[protected..], (a, b))
    ensures Lineage(tokens, width, protected, MergeStep(pick, width, protected, merged), GrowTrees(trees, a, b))
  {
    var body := merged[protected..];
    GrownRows(body, trees, a, b, tokens, width);
    GrownUses(trees, a, b, protected, |tokens|);
    var rows, next := GrowRows(body, a, b), MergeStep(pick, width, protected, merged);
    assert next == merged[..protected] + rows;
    assert next[..protected] == tokens[..protected] && next[protected..] == rows;
  }

  // ----- Convexity -----

  function Weight(t: Tree, i: nat): real {
    match t
    case Leaf(j) => if i == j then 1.0 else 0.0
    case Mean(l, r) => (Weight(l, i) + Weight(r, i)) / 2.0
  }

  /** Sum of the weights of input rows below n. */
  function WeightSum(t: Tree, n: nat): real {
    if n == 0 then 0.0 else WeightSum(t, n - 1) + Weight(t, n - 1)
  }

  /** Weighted sum of column j over input rows below n. */
  function Combination(t: Tree, tokens: seq<Row>, width: nat, j: nat, n: nat): real
    requires Rectangular(tokens, width) && j < width && n <= |tokens|
  {
    if n == 0 then 0.0 else Combination(t, tokens, width, j, n - 1) + Weight(t, n - 1) * tokens[n - 1][j]
  }

  lemma {:induction false} MeanOfSums(l: Tree, r: Tree, n: nat)
    ensures WeightSum(Mean(l, r), n) == (WeightSum(l, n) + WeightSum(r, n)) / 2.0
  {
    if n > 0 {
      MeanOfSums(l, r, n - 1);
    }
  }

  lemma HalfProduct(a: real, b: real, t: real)
    ensures (a + b) / 2.0 * t == (a * t + b * t) / 2.0
  {
  }

  lemma {:induction false} MeanOfCombinations(l: Tree, r: Tree, tokens: seq<Row>, width: nat, j: nat, n: nat)
    requires Rectangular(tokens, width) && j < width && n <= |tokens|
    ensures Combination(Mean(l, r), tokens, width, j, n) ==
            (Combination(l, tokens, width, j, n) + Combination(r, tokens, width, j, n)) / 2.0
  {
    if n > 0 {
      MeanOfCombinations(l, r, tokens, width, j, n - 1);
      var a, b, t := Weight(l, n - 1), Weight(r, n - 1), tokens[n - 1][j];
      HalfProduct(a, b, t);
      HalvesAdd(Combination(l, tokens, width, j, n - 1), Combination(r, tokens, width, j, n - 1), a * t, b * t);
    }
  }

  lemma HalvesAdd(a: real, b: real, c: real, d: real)
    ensures (a + b) / 2.0 + (c + d) / 2.0 == ((a + c) + (b + d)) / 2.0
  {
  }

  lemma {:induction false} LeafSums(i: nat, tokens: seq<Row>, width: nat, j: nat, n: nat)
    requires Rectangular(tokens, width) && j < width && n <= |tokens| && i < |tokens|
    ensures WeightSum(Leaf(i), n) == if i < n then 1.0 else 0.0
    ensures Combination(Leaf(i), tokens, width, j, n) == if i < n then tokens[i][j] else 0.0
  {
    if n > 0 {
      LeafSums(i, tokens, width, j, n - 1);
    }
  }

  /** Every merged row is a convex combination of the input rows in its tree: non-negative weights that sum to
      one, zero outside the tree, and the row is the weighted sum. */
  lemma {:induction false} RowsAreConvex(t: Tree, tokens: seq<Row>, width: nat, j: nat, i: nat)
    requires Rectangular(tokens, width) && j < width && LeavesBelow(t, |tokens|)
    ensures WeightSum(t, |tokens|) == 1.0
    ensures Eval(t, tokens, width)[j] == Combination(t, tokens, width, j, |tokens|)
    ensures Weight(t, i) >= 0.0 && (Weight(t, i) > 0.0 <==> LeafCount(t, i) > 0)
  {
    match t
    case Leaf(k) => LeafSums(k, tokens, width, j, |tokens|);
    case Mean(l, r) =>
      RowsAreConvex(l, tokens, width, j, i);
      RowsAreConvex(r, tokens, width, j, i);
      MeanOfSums(l, r, |tokens|);
      MeanOfCombinations(l, r, tokens, width, j, |tokens|);
  }

  // ----- The loop -----

  /** What holds after a number of merges. */
  ghost predicate Progress(pick: Picker, width: nat, keep: nat, protected: nat, tokens: seq<Row>,
                           merged: seq<Row>, trees: seq<Tree>, history: seq<seq<Row>>) {
    && Rectangular(merged, width)
    && |history| - 1 == |tokens| - |merged|
    && IsHistory(pick, width, keep, protected, tokens, merged, history)
    && Lineage(tokens, width, protected, merged, trees)
  }

  lemma OnceIsMergeStep(pick: Picker, width: nat, keep: nat, protected: nat, merged: seq<Row>)
    requires Rectangular(merged, width) && IsPicker(pick) && protected < keep < |merged|
    ensures PicksPair(merged[protected..], pick(merged[protected..]))
    ensures Once(pick, width, keep, protected, merged) == MergeStep(pick, width, protected, merged)
  {
    StepShape(pick, width, protected, merged);
  }

  lemma ProgressStep(pick: Picker, width: nat, keep: nat, protected: nat, tokens: seq<Row>,
                     merged: seq<Row>, trees: seq<Tree>, history: seq<seq<Row>>, a: nat, b: nat)
    requires Progress(pick, width, keep, protected, tokens, merged, trees, history) && IsPicker(pick)
    requires protected < keep < |merged| && pick(merged[protected..]) == (a, b)
    ensures PicksPair(merged[protected..], (a, b)) && |trees| == |merged[protected..]|
    ensures var next := MergeStep(pick, width, protected, merged);
      |next| == |merged| - 1 &&
      Progress(pick, width, keep, protected, tokens, next, GrowTrees(trees, a, b), history + [next])
  {
    StepShape(pick, width, protected, merged);
    StepLineage(pick, tokens, width, protected, merged, trees, a, b);
    OnceIsMergeStep(pick, width, keep, protected, merged);
    HistorySnoc(pick, width, keep, protected, tokens, merged, history, MergeStep(pick, width, protected, merged));
  }

  /** The loop body. */
  method MergeOnce(pick: Picker, width: nat, ghost tokens: seq<Row>, ghost keep: nat, protected: nat, merged: seq<Row>,
                   ghost trees: seq<Tree>, ghost history: seq<seq<Row>>)
    returns (next: seq<Row>, ghost forest: seq<Tree>)
    requires Progress(pick, width, keep, protected, tokens, merged, trees, history) && IsPicker(pick)
    requires protected < keep < |merged|
    ensures |next| == |merged| - 1
    ensures Progress(pick, width, keep, protected, tokens, next, forest, history + [next])
  {
    var body := merged[protected..];
    var pair := pick(body);
    ProgressStep(pick, width, keep, protected, tokens, merged, trees, history, pair.0, pair.1);
    forest := GrowTrees(trees, pair.0, pair.1);
    next := merged[..protected] + (Delete(body, pair.0, pair.1) + [Average(body[pair.0], body[pair.1])]);
  }

  lemma StartProgress(pick: Picker, width: nat, keep: nat, protected: nat, tokens: seq<Row>)
    requires Rectangular(tokens, width) && protected <= |tokens|
    ensures Progress(pick, width, keep, protected, tokens, tokens, Leaves(protected, |tokens|), [tokens])
  {
    InputLineage(tokens, width, protected);
  }

  /** `_cosine_merge` on every input on which it ends: exactly the rows asked for, after as many iterations as rows were
      removed, the protected prefix untouched, and each other row made from its own group of unprotected rows. */
  method CosineMerge(pick: Picker, width: nat, tokens: seq<Row>, keep: nat, protected: nat)
    returns (merged: seq<Row>, ghost trees: seq<Tree>, ghost history: seq<seq<Row>>)
    requires Rectangular(tokens, width) && IsPicker(pick) && protected <= |tokens|
    requires !Hopeless(|tokens|, keep, protected)
    ensures |merged| == (if |tokens| > Max(keep, protected) then keep else |tokens|)
    ensures Progress(pick, width, keep, protected, tokens, merged, trees, history)
  {
    merged, history := tokens, [tokens];
    trees := Leaves(protected, |tokens|);
    StartProgress(pick, width, keep, protected, tokens);
    while |merged| > Max(keep, protected)
      invariant Progress(pick, width, keep, protected, tokens, merged, trees, history)
      invariant |tokens| > Max(keep, protected) ==> protected < keep <= |merged| <= |tokens|
      invariant |tokens| <= Max(keep, protected) ==> |merged| == |tokens|
      decreases |merged|
    {
      merged, trees := MergeOnce(pick, width, tokens, keep, protected, merged, trees, history);
      history := history + [merged];
    }
  }

  // ----- The plugin -----

  /** A reversed argsort of the saliency scores: a permutation in descending saliency, ties in any order. */
  predicate IsRanking(saliency: seq<real>, order: seq<nat>) {
    && |order| == |saliency| && Distinct(order)
    && (forall i :: 0 <= i < |order| ==> order[i] < |saliency|)
    && (forall i, j :: 0 <= i < j < |order| ==> saliency[order[i]] >= saliency[order[j]])
  }

  function Reorder(tokens: seq<Row>, order: seq<nat>): (r: seq<Row>)
    requires forall i :: 0 <= i < |order| ==> order[i] < |tokens|
    ensures |r| == |order| && forall i :: 0 <= i < |r| ==> r[i] == tokens[order[i]]
  {
    seq(|order|, i requires 0 <= i < |order| => tokens[order[i]])
  }

  /** The protected rows are the most salient ones: none that may be merged is more salient. */
  lemma ProtectedAreMostSalient(saliency: seq<real>, order: seq<nat>, protected: nat, a: nat, b: nat)
    requires IsRanking(saliency, order) && protected <= |order| && a < |saliency| && b < |saliency|
    requires a in order[..protected] && b !in order[..protected]
    ensures saliency[a] >= saliency[b]
  {
    ListsAll(order, |saliency|, b);
    var i :| 0 <= i < protected && order[..protected][i] == a;
    var j :| 0 <= j < |order| && order[j] == b;
  }

  datatype MergeConfig = MergeConfig(enabled: bool, mergeRatio: real, salientRatio: real)

  predicate Permitted(config: MergeConfig) {
    0.0 <= config.mergeRatio < 1.0 && 0.0 <= config.salientRatio <= 1.0
  }

  predicate Active(config: MergeConfig) {
    config.enabled && config.mergeRatio > 0.0
  }

  class Plugin {
    const config: MergeConfig
    const pick: Picker
    var tokensIn: nat
    var tokensOut: nat

    constructor (config: MergeConfig, pick: Picker)
      requires Permitted(config)
      ensures this.config == config && this.pick == pick && tokensIn == 0 && tokensOut == 0
    {
      this.config, this.pick, tokensIn, tokensOut := config, pick, 0, 0;
    }

    /** `compress` of a two-dimensional stream; `ranking` is the reversed argsort of the saliency scores, if given. */
    method Compress(width: nat, tokens: seq<Row>, ranking: Option<seq<nat>>) returns (merged: seq<Row>, ghost source: seq<Row>)
      requires Permitted(config) && Rectangular(tokens, width) && IsPicker(pick)
      requires ranking.Some? ==> |ranking.value| == |tokens| && forall i :: 0 <= i < |tokens| ==> ranking.value[i] < |tokens|
      requires Active(config) ==>
                 !Hopeless(|tokens|, KeepOf(|tokens|, config.mergeRatio), ProtectedOf(|tokens|, config.salientRatio))
      modifies `tokensIn, `tokensOut
      ensures !Active(config) ==> merged == tokens && tokensIn == old(tokensIn) && tokensOut == old(tokensOut)
      ensures Active(config) ==> tokensIn == old(tokensIn) + |tokens| && tokensOut == old(tokensOut) + |merged|
      ensures Active(config) ==>
                var keep, protected := KeepOf(|tokens|, config.mergeRatio), ProtectedOf(|tokens|, config.salientRatio);
                && source == (if ranking.Some? && protected > 0 then Reorder(tokens, ranking.value) else tokens)
                && |merged| == (if |tokens| > Max(keep, protected) then keep else |tokens|)
                && Merges(source, width, protected, merged)
    {
      merged, source := tokens, tokens;
      if !config.enabled || config.mergeRatio <= 0.0 {
        return;
      }
      var keep, protected := KeepOf(|tokens|, config.mergeRatio), ProtectedOf(|tokens|, config.salientRatio);
      var rows := tokens;
      if ranking.Some? && protected > 0 {
        rows := Reorder(tokens, ranking.value);
      }
      ghost var trees, history;
      merged, trees, history := CosineMerge(pick, width, rows, keep, protected);
      source := rows;
      assert Lineage(source, width, protected, merged, trees);
      tokensIn, tokensOut := tokensIn + |tokens|, tokensOut + |merged|;
    }
  }

  /** Some grouping of the unprotected rows explains the merged stream. */
  ghost predicate Merges(source: seq<Row>, width: nat, protected: nat, merged: seq<Row>) {
    exists trees :: Lineage(source, width, protected, merged, trees)
  }
}
