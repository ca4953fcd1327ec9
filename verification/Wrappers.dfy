/** Types and functions that several modules share. */
module Wrappers {
  datatype Option<+T> = None | Some(value: T)

  function Max(a: int, b: int): int { if a < b then b else a }

  function Min(a: int, b: int): int { if a < b then a else b }

  /** One or zero, so that a condition can be counted. */
  function Bit(b: bool): nat { if b then 1 else 0 }

  lemma SubsetIsSmaller<T>(a: set<T>, b: set<T>)
    requires a <= b
    ensures |a| <= |b|
  {
    assert b == a + (b - a);
  }

  predicate Distinct<T(==)>(q: seq<T>) { forall i, j | 0 <= i < j < |q| :: q[i] != q[j] }

  /** A set holds at least as many elements as any sequence of different elements of it. */
  lemma {:induction false} DistinctFits<T>(q: seq<T>, s: set<T>)
    requires Distinct(q) && forall x | x in q :: x in s
    ensures |q| <= |s|
  {
    if q != [] {
      var n := |q| - 1;
      assert forall i | 0 <= i < n :: q[i] in q;
      assert q[n] in q;
      DistinctFits(q[..n], s - {q[n]});
    }
  }

  newtype byte = x: int | 0 <= x < 256

  type Bytes = seq<byte>
}
