/** The least equivalence on 0..n-1 that contains a given relation, and the least
    index of each of its classes. */
module Closure {

  type Relation = (int, int) -> bool

  ghost predicate Symmetric(e: Relation, n: nat) {
    forall i, j :: 0 <= i < n && 0 <= j < n && e(i, j) ==> e(j, i)
  }

  ghost predicate IsPath(e: Relation, n: nat, path: seq<int>, i: int, j: int) {
    && |path| > 0 && path[0] == i && path[|path| - 1] == j
    && (forall k :: 0 <= k < |path| ==> 0 <= path[k] < n)
    && (forall k :: 0 < k < |path| ==> e(path[k - 1], path[k]))
  }

  ghost predicate Linked(e: Relation, n: nat, i: int, j: int) {
    exists path: seq<int> :: IsPath(e, n, path, i, j)
  }

  lemma EdgeIsLink(e: Relation, n: nat, i: int, j: int)
    requires 0 <= i < n && 0 <= j < n && e(i, j)
    ensures Linked(e, n, i, j)
  {
    assert IsPath(e, n, [i, j], i, j);
  }

  lemma LinkReflexive(e: Relation, n: nat, i: int)
    requires 0 <= i < n
    ensures Linked(e, n, i, i)
  {
    assert IsPath(e, n, [i], i, i);
  }

  lemma LinkTransitive(e: Relation, n: nat, i: int, j: int, k: int)
    requires Linked(e, n, i, j) && Linked(e, n, j, k)
    ensures Linked(e, n, i, k)
  {
    var p: seq<int> :| IsPath(e, n, p, i, j);
    var q: seq<int> :| IsPath(e, n, q, j, k);
    var r := p + q[1..];
    forall x | 0 < x < |r| ensures e(r[x - 1], r[x]) {
      if x < |p| {
        assert e(p[x - 1], p[x]);
      } else {
        assert e(q[x - |p|], q[x - |p| + 1]);
      }
    }
    assert IsPath(e, n, r, i, k);
  }

  lemma {:induction false} PathReverses(e: Relation, n: nat, p: seq<int>, i: int, j: int)
    requires Symmetric(e, n) && IsPath(e, n, p, i, j)
    ensures Linked(e, n, j, i)
    decreases |p|
  {
    if |p| == 1 {
      LinkReflexive(e, n, i);
    } else {
      PathReverses(e, n, p[1..], p[1], j);
      assert e(p[0], p[1]);
      EdgeIsLink(e, n, p[1], i);
      LinkTransitive(e, n, j, p[1], i);
    }
  }

  lemma LinkSymmetric(e: Relation, n: nat, i: int, j: int)
    requires Symmetric(e, n) && Linked(e, n, i, j)
    ensures Linked(e, n, j, i)
  {
    var p: seq<int> :| IsPath(e, n, p, i, j);
    PathReverses(e, n, p, i, j);
  }

  /** `c` labels the indices so that related ones share a label. */
  ghost predicate Respects(e: Relation, n: nat, c: seq<int>) {
    |c| == n && forall i, j :: 0 <= i < n && 0 <= j < n && e(i, j) ==> c[i] == c[j]
  }

  lemma {:induction false} PathKeepsLabel(e: Relation, n: nat, c: seq<int>, p: seq<int>, i: int, j: int)
    requires Respects(e, n, c) && IsPath(e, n, p, i, j)
    ensures c[i] == c[j]
    decreases |p|
  {
    if |p| > 1 {
      assert e(p[0], p[1]);
      PathKeepsLabel(e, n, c, p[1..], p[1], j);
    }
  }

  /** Linked is the least equivalence containing e: every labelling (that is, every
      equivalence) that respects e already identifies linked indices. */
  lemma LinkedIsLeast(e: Relation, n: nat, c: seq<int>, i: int, j: int)
    requires Respects(e, n, c) && Linked(e, n, i, j)
    ensures 0 <= i < n && 0 <= j < n && c[i] == c[j]
  {
    var p: seq<int> :| IsPath(e, n, p, i, j);
    PathKeepsLabel(e, n, c, p, i, j);
  }

  /** The least index linked to i. */
  ghost function Leader(e: Relation, n: nat, i: int): (l: int)
    requires 0 <= i < n
    ensures 0 <= l <= i && Linked(e, n, i, l)
    ensures forall k :: 0 <= k < l ==> !Linked(e, n, i, k)
  {
    LinkReflexive(e, n, i);
    LeastFrom(e, n, i, 0)
  }

  ghost function LeastFrom(e: Relation, n: nat, i: int, from: nat): (l: int)
    requires from <= i < n && Linked(e, n, i, i)
    requires forall k :: 0 <= k < from ==> !Linked(e, n, i, k)
    ensures 0 <= l <= i && Linked(e, n, i, l)
    ensures forall k :: 0 <= k < l ==> !Linked(e, n, i, k)
    decreases i - from
  {
    if Linked(e, n, i, from) then from else LeastFrom(e, n, i, from + 1)
  }

  /** Two indices have the same leader exactly when they are linked. */
  lemma SameLeaderIffLinked(e: Relation, n: nat, i: int, j: int)
    requires Symmetric(e, n) && 0 <= i < n && 0 <= j < n
    ensures Leader(e, n, i) == Leader(e, n, j) <==> Linked(e, n, i, j)
  {
    var a, b := Leader(e, n, i), Leader(e, n, j);
    if a == b {
      LinkSymmetric(e, n, j, b);
      LinkTransitive(e, n, i, a, j);
    }
    if Linked(e, n, i, j) {
      LinkTransitive(e, n, i, j, b);
      LinkSymmetric(e, n, i, j);
      LinkTransitive(e, n, j, i, a);
    }
  }

  /** All leaders in index order. */
  ghost function LeaderSeq(e: Relation, n: nat): (c: seq<int>)
    ensures |c| == n && forall i :: 0 <= i < n ==> c[i] == Leader(e, n, i)
  {
    seq(n, i requires 0 <= i < n => Leader(e, n, i))
  }

  /** Every index is linked to its own label: the labelling joins nothing unlinked. */
  ghost predicate Sound(e: Relation, n: nat, c: seq<int>) {
    |c| == n && forall i :: 0 <= i < n ==> Linked(e, n, i, c[i])
  }

  /** A least-named labelling that is sound and respects e is the leader labelling:
      there is only one, however it was computed. */
  lemma LabellingIsUnique(e: Relation, n: nat, c: seq<int>)
    requires Symmetric(e, n) && Respects(e, n, c) && Sound(e, n, c)
    requires forall i :: 0 <= i < n ==> 0 <= c[i] <= i
    ensures c == LeaderSeq(e, n)
  {
    forall i | 0 <= i < n ensures c[i] == Leader(e, n, i) {
      var l := Leader(e, n, i);
      assert Linked(e, n, i, c[i]);
      LinkedIsLeast(e, n, c, i, l);
      assert c[l] <= l <= c[i];
    }
  }
}
