/** Which rows the duplicate search matches directly, counted by the tokens their titles do
    not share, and what that makes of the collapsed list. */
module MatchLaws {
  import opened Closure
  import opened Postings
  import opened Dedupe
  import opened UnionFind

  /** The tokens that only one of two titles has. */
  function Apart(a: set<string>, b: set<string>): nat {
    |a - b| + |b - a|
  }

  lemma Sizes(a: set<string>, b: set<string>)
    ensures |a| == |a * b| + |a - b| && |b| == |a * b| + |b - a| && |a + b| == |a * b| + Apart(a, b)
  {
    assert a == a * b + (a - b) && b == a * b + (b - a) && a + b == a + (b - a);
  }

  /** Titles of two or more tokens match when what they share is at least three times what
      they do not, or twice that many if both have four tokens or more. */
  lemma SimilarByDifference(a: set<string>, b: set<string>)
    ensures Similar(a, b) <==>
              && |a| >= 2 && |b| >= 2
              && 3 * Apart(a, b) <= (if |a| <= 3 || |b| <= 3 then |a * b| else 2 * |a * b|)
  {
    Sizes(a, b);
  }

  /** Titles of equal size: of two or three tokens none may differ, of more at most a quarter. */
  lemma SimilarOfSize(a: set<string>, b: set<string>, n: nat)
    requires |a| == |b| == n
    ensures n < 2 ==> !Similar(a, b)
    ensures 2 <= n <= 3 ==> (Similar(a, b) <==> a == b)
    ensures n > 3 ==> (Similar(a, b) <==> 4 * |a - b| <= n)
  {
    Sizes(a, b);
    SimilarByDifference(a, b);
    if |a - b| == 0 {
      assert a - b == {} && b - a == {};
      assert a == b;
    } else {
      assert a != b;
    }
  }

  /** Two rows are the same page, or have one organisation and title, or titles with few
      enough tokens apart in one bucket. */
  predicate Matches(f: Lens, r: Row, s: Row) {
    var a, b := f.tokens(r.title), f.tokens(s.title);
    || (f.canonicalUrl(r.url) == f.canonicalUrl(s.url) != "")
    || f.key(r.org, r.title) == f.key(s.org, s.title)
    || (&& f.bucket(r.org, r.source) == f.bucket(s.org, s.source) && |a| >= 2 && |b| >= 2
        && 3 * Apart(a, b) <= (if |a| <= 3 || |b| <= 3 then |a * b| else 2 * |a * b|))
  }

  lemma MatchIsDirect(f: Lens, r: Row, s: Row)
    ensures SameJob(f, r, s) <==> Matches(f, r, s)
  {
    SimilarByDifference(f.Tokens(r), f.Tokens(s));
  }

  /** Rows that match are collapsed together. */
  lemma MatchesCollapse(f: Lens, rows: seq<Row>, i: nat, j: nat)
    requires i < |rows| && j < |rows| && Matches(f, rows[i], rows[j])
    ensures Partition(f, rows)[i] == Partition(f, rows)[j]
  {
    MatchIsDirect(f, rows[i], rows[j]);
    EdgeIsLink(Edges(f, rows), |rows|, i, j);
    CollapsedIffLinked(f, rows, i, j);
  }

  ghost predicate AllApart(f: Lens, rows: seq<Row>) {
    forall i, j :: 0 <= i < |rows| && 0 <= j < |rows| && i != j ==> !Matches(f, rows[i], rows[j])
  }

  lemma OwnClass(f: Lens, rows: seq<Row>, i: nat)
    requires AllApart(f, rows) && i < |rows|
    ensures Partition(f, rows)[i] == i
  {
    var n, e := |rows|, Edges(f, rows);
    var own := seq(n, k => k);
    forall x, y | 0 <= x < n && 0 <= y < n && e(x, y) ensures own[x] == own[y] {
      MatchIsDirect(f, rows[x], rows[y]);
    }
    var c := Partition(f, rows);
    CollapsedIffLinked(f, rows, i, c[i]);
    LinkedIsLeast(e, n, own, i, c[i]);
  }

  lemma {:induction false} OwnHeads(c: seq<int>, n: nat)
    requires n <= |c| && forall i :: 0 <= i < |c| ==> c[i] == i
    ensures |Heads(c, n)| == n && forall k :: 0 <= k < n ==> Heads(c, n)[k] == k
  {
    if n > 0 {
      OwnHeads(c, n - 1);
    }
  }

  lemma {:induction false} OwnFold(rows: seq<Row>, c: seq<int>, l: nat, n: nat)
    requires |rows| == |c| && l < n <= |c| && forall i :: 0 <= i < |c| ==> c[i] == i
    ensures Fold(rows, c, l, n) == rows[l]
  {
    if n > l + 1 {
      OwnFold(rows, c, l, n - 1);
    }
  }

  /** Rows of which no two match stay as they are, in their order. */
  lemma DistinctStay(f: Lens, rows: seq<Row>)
    requires AllApart(f, rows)
    ensures Collapse(f, rows) == rows
  {
    var c, out := Partition(f, rows), Collapse(f, rows);
    forall i | 0 <= i < |rows| ensures c[i] == i {
      OwnClass(f, rows, i);
    }
    OwnHeads(c, |rows|);
    forall k | 0 <= k < |rows| ensures out[k] == rows[k] {
      OwnFold(rows, c, k, |rows|);
    }
  }

  lemma {:induction false} FewerHeads(c: seq<int>, n: nat, i: nat)
    requires i < n <= |c| && c[i] != i
    ensures |Heads(c, n)| < n
  {
    if i < n - 1 {
      FewerHeads(c, n - 1, i);
    }
  }

  /** The list is left as it is exactly when no two of its rows match. */
  lemma UnchangedExactly(f: Lens, rows: seq<Row>)
    ensures Collapse(f, rows) == rows <==> AllApart(f, rows)
  {
    if AllApart(f, rows) {
      DistinctStay(f, rows);
    } else {
      var i, j :| 0 <= i < |rows| && 0 <= j < |rows| && i != j && Matches(f, rows[i], rows[j]);
      MatchesCollapse(f, rows, i, j);
      FewerHeads(Partition(f, rows), |rows|, if Partition(f, rows)[i] == i then j else i);
    }
  }

  lemma MatchesEitherWay(f: Lens, r: Row, s: Row)
    ensures Matches(f, r, s) == Matches(f, s, r)
  {
    var a, b := f.tokens(r.title), f.tokens(s.title);
    assert a * b == b * a;
  }

  lemma SecondJoinsFirst(f: Lens, r: Row, s: Row, c: seq<int>)
    requires Matches(f, r, s) && c == Partition(f, [r, s])
    ensures c == [0, 0]
  {
    MatchesCollapse(f, [r, s], 0, 1);
  }

  lemma FoldTwo(r: Row, s: Row)
    ensures Groups([r, s], [0, 0], 2) == [Merged(r, s)]
  {
    var c := [0, 0];
    assert Heads(c, 1) == [0] && Heads(c, 2) == [0];
    assert Fold([r, s], c, 0, 2) == Merged(r, s);
  }

  /** Two rows become one exactly when they match. */
  lemma TwoRows(f: Lens, r: Row, s: Row)
    ensures Collapse(f, [r, s]) == if Matches(f, r, s) then [Merged(r, s)] else [r, s]
  {
    if Matches(f, r, s) {
      SecondJoinsFirst(f, r, s, Partition(f, [r, s]));
      FoldTwo(r, s);
    } else {
      MatchesEitherWay(f, r, s);
      UnchangedExactly(f, [r, s]);
    }
  }

  lemma FourOfFive(a: set<string>, b: set<string>)
    requires a == {"ruaha", "national", "park", "director", "tanzania"}
    requires b == {"ruaha", "national", "park", "director", "iringa"}
    ensures |a| == |b| == 5 && |a - b| == 1
  {
    assert a - b == {"tanzania"};
  }

  /** One token of five may differ. */
  lemma OneTokenApart(f: Lens, r: Row, s: Row)
    requires f.bucket(r.org, r.source) == f.bucket(s.org, s.source)
    requires f.tokens(r.title) == {"ruaha", "national", "park", "director", "tanzania"}
    requires f.tokens(s.title) == {"ruaha", "national", "park", "director", "iringa"}
    ensures Collapse(f, [r, s]) == [Merged(r, s)]
  {
    FourOfFive(f.tokens(r.title), f.tokens(s.title));
    SimilarOfSize(f.tokens(r.title), f.tokens(s.title), 5);
    MatchIsDirect(f, r, s);
    TwoRows(f, r, s);
  }
}
