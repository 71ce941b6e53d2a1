/** Facts about sequences, finite sets and numbers that the other modules share. */
module Collections {

  datatype Option<+T> = None | Some(value: T)

  predicate Distinct<T(==)>(s: seq<T>) {
    forall i, j :: 0 <= i < j < |s| ==> s[i] != s[j]
  }

  function Elems<T>(s: seq<T>): set<T> {
    set x | x in s
  }

  /** The numbers below n. */
  function Upto(n: nat): (r: set<nat>)
    ensures forall i :: i in r <==> 0 <= i < n
    ensures |r| == n
  {
    if n == 0 then {} else Upto(n - 1) + {n - 1}
  }

  /** The first position of x in s. */
  function IndexOf<T(==)>(s: seq<T>, x: T): (i: nat)
    requires x in s
    ensures i < |s| && s[i] == x
    ensures x !in s[..i]
  {
    if s[0] == x then 0 else
      assert s == [s[0]] + s[1..];
      var k := IndexOf(s[1..], x);
      assert s[..k + 1] == [s[0]] + s[1..][..k];
      k + 1
  }

  lemma IndexInPrefix<T>(s: seq<T>, x: T, n: nat)
    requires n <= |s| && x in s[..n]
    ensures x in s && IndexOf(s, x) < n
  {
    var j :| 0 <= j < n && s[..n][j] == x;
    assert s[j] == x;
    var i := IndexOf(s, x);
    assert forall m :: 0 <= m < i ==> s[..i][m] == s[m];
  }

  lemma IndexBeforeSuffix<T>(s: seq<T>, x: T, n: nat)
    requires n <= |s| && x in s && x !in s[n..]
    ensures IndexOf(s, x) < n
  {
    assert forall m :: n <= m < |s| ==> s[m] == s[n..][m - n];
  }

  lemma {:induction false} SubsetSize<T>(a: set<T>, b: set<T>)
    requires a <= b
    ensures |a| <= |b|
    ensures |a| == |b| ==> a == b
  {
    assert b == a + (b - a);
    assert |b| == |a| + |b - a|;
  }

  lemma {:induction false} DistinctSize<T>(s: seq<T>)
    requires Distinct(s)
    ensures |Elems(s)| == |s|
  {
    if s != [] {
      var front, last := s[..|s| - 1], s[|s| - 1];
      DistinctSize(front);
      assert Elems(s) == Elems(front) + {last};
    }
  }

  /** A duplicate-free sequence of numbers below n has at most n entries, and n only if it lists them all. */
  lemma DistinctBelow(s: seq<nat>, n: nat)
    requires Distinct(s)
    requires forall x :: x in s ==> x < n
    ensures |s| <= n
    ensures |s| == n <==> Elems(s) == Upto(n)
  {
    DistinctSize(s);
    assert Elems(s) <= Upto(n);
    SubsetSize(Elems(s), Upto(n));
  }

  lemma ListsAll(s: seq<nat>, n: nat, x: nat)
    requires Distinct(s) && |s| == n && x < n
    requires forall y :: y in s ==> y < n
    ensures x in s
  {
    DistinctBelow(s, n);
    assert x in Elems(s);
  }

  /** Pigeonhole: a sequence longer than the set it draws from repeats an element. */
  lemma Pigeonhole<T>(s: seq<T>, from: set<T>) returns (i: nat, j: nat)
    requires forall x :: x in s ==> x in from
    requires |s| > |from|
    ensures i < j < |s| && s[i] == s[j]
  {
    if Distinct(s) {
      DistinctSize(s);
      assert Elems(s) <= from;
      SubsetSize(Elems(s), from);
      assert false;
    }
    i, j :| 0 <= i < j < |s| && s[i] == s[j];
  }

  lemma {:induction false} DistinctAppend<T>(s: seq<T>, x: T)
    requires Distinct(s) && x !in s
    ensures Distinct(s + [x])
  {
  }

  /** The next row of a row-major array still fits. */
  lemma {:induction false} NextRowFits(i: nat, n: nat, dim: nat)
    requires i < n
    ensures 0 <= i * dim
    ensures (i + 1) * dim == i * dim + dim
    ensures (i + 1) * dim <= n * dim
  {
    if i + 1 < n {
      NextRowFits(i, n - 1, dim);
      assert n * dim == (n - 1) * dim + dim;
    }
  }

  predicate Increasing(s: seq<nat>) {
    forall i, j :: 0 <= i < j < |s| ==> s[i] < s[j]
  }

  /** Round to nearest, ties to even (section 4.3.1 of IEEE 754-2019). */
  function Round(x: real): int {
    var low := x.Floor;
    var rest := x - low as real;
    if rest < 0.5 then low else if rest > 0.5 then low + 1 else if low % 2 == 0 then low else low + 1
  }

  lemma RoundIsNearest(x: real)
    ensures x - 0.5 <= Round(x) as real <= x + 0.5
    ensures Round(x) as real == x - 0.5 || Round(x) as real == x + 0.5 ==> Round(x) % 2 == 0
  {
  }
}
