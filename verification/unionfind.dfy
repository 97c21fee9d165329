/** The union-find of srv/jobs/dedupe.go: path halving, least index as root. */
module UnionFind {

  /** Every parent link goes to an equal or smaller index. */
  ghost predicate Forest(p: seq<int>) {
    forall i :: 0 <= i < |p| ==> 0 <= p[i] <= i
  }

  /** The root that following parent links from `i` arrives at. */
  ghost function Root(p: seq<int>, i: int): (r: int)
    requires Forest(p) && 0 <= i < |p|
    ensures 0 <= r <= i && p[r] == r
    decreases i
  {
    if p[i] == i then i else Root(p, p[i])
  }

  /** The partition as a sequence: position i holds the root of i. */
  ghost function Roots(p: seq<int>): (c: seq<int>)
    requires Forest(p)
    ensures |c| == |p|
    ensures forall i :: 0 <= i < |p| ==> c[i] == Root(p, i)
  {
    seq(|p|, i requires 0 <= i < |p| => Root(p, i))
  }

  /** What a partition must satisfy when every class is named by its least index. */
  ghost predicate LeastNamed(c: seq<int>) {
    forall i :: 0 <= i < |c| ==> 0 <= c[i] <= i && c[c[i]] == c[i]
  }

  /** The classes of a and b become one, named by the smaller of the two names. */
  ghost function Joined(c: seq<int>, a: int, b: int): (d: seq<int>)
    requires 0 <= a < |c| && 0 <= b < |c|
    ensures |d| == |c|
  {
    var least := if c[a] < c[b] then c[a] else c[b];
    seq(|c|, i requires 0 <= i < |c| => if c[i] == c[a] || c[i] == c[b] then least else c[i])
  }

  /** Pointing i at another non-larger node of its own tree moves no root. */
  lemma {:induction false} RepointKeepsRoots(p: seq<int>, i: int, j: int, k: int)
    requires Forest(p) && 0 <= j < i < |p| && 0 <= k < |p|
    requires p[i] != i && Root(p, j) == Root(p, i)
    ensures Forest(p[i := j]) && Root(p[i := j], k) == Root(p, k)
    decreases k
  {
    if k == i {
      RepointKeepsRoots(p, i, j, j);
    } else if p[k] != k {
      RepointKeepsRoots(p, i, j, p[k]);
    }
  }

  /** Linking one root below a smaller root merges exactly those two classes. */
  lemma {:induction false} LinkMergesTwo(p: seq<int>, low: int, high: int, k: int)
    requires Forest(p) && 0 <= low < high < |p| && 0 <= k < |p|
    requires p[low] == low && p[high] == high
    ensures Forest(p[high := low])
    ensures Root(p[high := low], k) == if Root(p, k) == high then low else Root(p, k)
    decreases k
  {
    if k != high && p[k] != k {
      LinkMergesTwo(p, low, high, p[k]);
    }
  }

  /** Joining is the least coarsening that puts a and b together: two indices
      share a class afterwards exactly when they did before, or each of them was
      with a or with b; and classes stay named by their least index. */
  lemma JoinedIsLeastCoarsening(c: seq<int>, a: int, b: int, i: int, j: int)
    requires LeastNamed(c) && 0 <= a < |c| && 0 <= b < |c| && 0 <= i < |c| && 0 <= j < |c|
    ensures LeastNamed(Joined(c, a, b))
    ensures Joined(c, a, b)[i] == Joined(c, a, b)[j] <==>
              c[i] == c[j] || (c[i] in {c[a], c[b]} && c[j] in {c[a], c[b]})
  {
    var d := Joined(c, a, b);
    forall k | 0 <= k < |d| ensures 0 <= d[k] <= k && d[d[k]] == d[k] {
      assert c[c[k]] == c[k] && c[c[a]] == c[a] && c[c[b]] == c[b];
    }
  }

  class Uf {
    var p: array<int>

    ghost predicate Valid()
      reads this, p
    {
      Forest(p[..])
    }

    /** The partition held: each index with the least index of its class. */
    ghost function Classes(): (c: seq<int>)
      requires Valid()
      reads this, p
      ensures |c| == p.Length && LeastNamed(c)
    {
      Roots(p[..])
    }

    constructor (n: nat)
      ensures Valid() && fresh(p) && p.Length == n
      ensures forall i :: 0 <= i < n ==> Classes()[i] == i
    {
      var q := new int[n];
      for i := 0 to n
        invariant forall k :: 0 <= k < i ==> q[k] == k
      {
        q[i] := i;
      }
      p := q;
    }

    method Find(start: int) returns (i: int)
      requires Valid() && 0 <= start < p.Length
      modifies p
      ensures Valid() && Classes() == old(Classes())
      ensures i == Classes()[start]
      ensures forall k :: 0 <= k < p.Length && Classes()[k] == Classes()[start] ==> i <= k
    {
      i := start;
      while p[i] != i
        invariant Valid() && 0 <= i < p.Length
        invariant Classes() == old(Classes())
        invariant Classes()[i] == old(Classes())[start]
        decreases i
      {
        ghost var was := p[..];
        var grand := p[p[i]];
        assert Root(was, grand) == Root(was, i) by {
          if was[was[i]] != was[i] {
            assert Root(was, was[i]) == Root(was, grand);
          }
        }
        forall k | 0 <= k < |was|
          ensures Forest(was[i := grand]) && Root(was[i := grand], k) == Root(was, k)
        {
          RepointKeepsRoots(was, i, grand, k);
        }
        p[i] := grand;
        assert p[..] == was[i := grand];
        i := p[i];
      }
    }

    method Union(a: int, b: int)
      requires Valid() && 0 <= a < p.Length && 0 <= b < p.Length
      modifies p
      ensures Valid() && Classes() == Joined(old(Classes()), a, b)
    {
      var ra := Find(a);
      var rb := Find(b);
      if ra == rb {
        return;
      }
      if ra > rb {
        ra, rb := rb, ra;
      }
      ghost var was := p[..];
      forall k | 0 <= k < |was|
        ensures Forest(was[rb := ra])
        ensures Root(was[rb := ra], k) == if Root(was, k) == rb then ra else Root(was, k)
      {
        LinkMergesTwo(was, ra, rb, k);
      }
      p[rb] := ra;
      assert p[..] == was[rb := ra];
    }
  }
}
