/** Selection of the weekly digest (srv/jobs/report.go): picks, runner-ups, and the
    ids that get marked as reported. */
module Digest {
  import opened Basics
  import opened Postings
  import opened Dedupe
  import opened CollapseLaws
  import opened UnionFind
  import opened Closure

  const REPORT_MIN_SCORE := 70
  const REPORT_MAX := 10
  const ALSO_MAX := 8

  function Picks(g: seq<Row>): (p: seq<Row>)
    ensures |p| <= REPORT_MAX
  {
    if g == [] then [] else
      var p, r := Picks(g[..|g| - 1]), g[|g| - 1];
      if r.ScoreVal() >= REPORT_MIN_SCORE && |p| < REPORT_MAX then p + [r] else p
  }

  function RunnerUps(g: seq<Row>): (a: seq<Row>)
    ensures |a| <= ALSO_MAX
  {
    if g == [] then [] else
      var a, r := RunnerUps(g[..|g| - 1]), g[|g| - 1];
      if r.ScoreVal() >= REPORT_MIN_SCORE && |Picks(g[..|g| - 1])| < REPORT_MAX then a
      else if |a| < ALSO_MAX then a + [r] else a
  }

  method Select(groups: seq<Row>) returns (picks: seq<Row>, also: seq<Row>)
    ensures picks == Picks(groups) && also == RunnerUps(groups)
  {
    picks, also := [], [];
    for i := 0 to |groups|
      invariant picks == Picks(groups[..i]) && also == RunnerUps(groups[..i])
    {
      assert groups[..i + 1][..i] == groups[..i];
      var r := groups[i];
      if r.ScoreVal() >= REPORT_MIN_SCORE && |picks| < REPORT_MAX {
        picks := picks + [r];
      } else if |also| < ALSO_MAX {
        also := also + [r];
      }
    }
    assert groups[..|groups|] == groups;
  }

  /** How many groups reach the pick threshold. */
  function HighCount(g: seq<Row>): (n: nat)
    ensures n <= |g|
  {
    if g == [] then 0 else
      HighCount(g[..|g| - 1]) + if g[|g| - 1].ScoreVal() >= REPORT_MIN_SCORE then 1 else 0
  }

  lemma {:induction false} AllHigh(g: seq<Row>)
    requires forall i :: 0 <= i < |g| ==> g[i].ScoreVal() >= REPORT_MIN_SCORE
    ensures HighCount(g) == |g|
  {
    if g != [] {
      AllHigh(g[..|g| - 1]);
    }
  }

  /** The window [m, m + 8) of a list, when the list grows by one. */
  lemma WindowGrows(g: seq<Row>, m: nat)
    requires m < |g|
    ensures var front := g[..|g| - 1];
            var a := front[m..Min(|front|, m + ALSO_MAX)];
            g[m..Min(|g|, m + ALSO_MAX)] == if |a| < ALSO_MAX then a + [g[|g| - 1]] else a
  {
  }

  lemma FrontByScore(g: seq<Row>)
    requires g != [] && ByScore(g)
    ensures ByScore(g[..|g| - 1])
    ensures g[|g| - 1].ScoreVal() >= REPORT_MIN_SCORE ==> HighCount(g) == |g| && HighCount(g[..|g| - 1]) == |g| - 1
  {
    if g[|g| - 1].ScoreVal() >= REPORT_MIN_SCORE {
      AllHigh(g);
      AllHigh(g[..|g| - 1]);
    }
  }

  /** On groups ordered by score the picks are the first (at most ten) that reach the
      threshold. */
  lemma {:induction false} PicksArePrefix(g: seq<Row>)
    requires ByScore(g)
    ensures Picks(g) == g[..Min(HighCount(g), REPORT_MAX)]
  {
    if g != [] {
      var front, r := g[..|g| - 1], g[|g| - 1];
      FrontByScore(g);
      PicksArePrefix(front);
      if r.ScoreVal() >= REPORT_MIN_SCORE && |front| < REPORT_MAX {
        assert Picks(g) == front + [r] == g;
      } else {
        var m := Min(HighCount(front), REPORT_MAX);
        assert front[..m] == g[..m];
      }
    }
  }

  /** The runner-ups are the next eight groups after the picks, whatever their score. */
  lemma {:induction false} RunnerUpsFollow(g: seq<Row>)
    requires ByScore(g)
    ensures var m := Min(HighCount(g), REPORT_MAX); RunnerUps(g) == g[m..Min(|g|, m + ALSO_MAX)]
  {
    if g != [] {
      FrontByScore(g);
      RunnerUpsFollow(g[..|g| - 1]);
      PicksArePrefix(g[..|g| - 1]);
      if g[|g| - 1].ScoreVal() < REPORT_MIN_SCORE || |g| > REPORT_MAX {
        WindowGrows(g, Min(HighCount(g[..|g| - 1]), REPORT_MAX));
      }
    }
  }

  lemma {:induction false} HighFirst(g: seq<Row>, i: nat)
    requires ByScore(g) && i < |g|
    ensures i < HighCount(g) <==> g[i].ScoreVal() >= 70
  {
    FrontByScore(g);
    if i < |g| - 1 {
      HighFirst(g[..|g| - 1], i);
    } else if g[i].ScoreVal() < 70 {
      LowLast(g);
    }
  }

  lemma {:induction false} LowLast(g: seq<Row>)
    requires g != [] && g[|g| - 1].ScoreVal() < REPORT_MIN_SCORE
    ensures HighCount(g) < |g|
  {
  }

  /** On groups ordered by score, picks followed by runner-ups are a prefix of them.  The picks
      are the first ten groups, or fewer, that reach 70, and a group is left out only when there
      are eight runner-ups. */
  lemma ShownIsPrefix(g: seq<Row>)
    requires ByScore(g)
    ensures var shown := Picks(g) + RunnerUps(g);
            && |shown| <= |g| && shown == g[..|shown|]
            && |RunnerUps(g)| <= 8 && (|shown| < |g| ==> |RunnerUps(g)| == 8)
    ensures |Picks(g)| <= 10 && forall i :: 0 <= i < |g| ==>
              if i < |Picks(g)| then g[i].ScoreVal() >= 70 else |Picks(g)| == 10 || g[i].ScoreVal() < 70
  {
    PicksArePrefix(g);
    RunnerUpsFollow(g);
    PrefixAndWindow(g, Min(HighCount(g), REPORT_MAX));
    forall i | 0 <= i < |g|
      ensures if i < |Picks(g)| then g[i].ScoreVal() >= 70 else |Picks(g)| == 10 || g[i].ScoreVal() < 70
    {
      HighFirst(g, i);
    }
  }

  lemma PrefixAndWindow(g: seq<Row>, m: nat)
    requires m <= |g|
    ensures g[..m] + g[m..Min(|g|, m + ALSO_MAX)] == g[..Min(|g|, m + ALSO_MAX)]
  {
  }

  /** The digest of rows ordered as the query returns them: no copy of an omitted group
      outscores a group that is shown. */
  lemma DigestShowsTheBest(f: Lens, rows: seq<Row>, s: nat, k: nat, copy: int)
    requires ByScore(rows)
    requires var g, h := Collapse(f, rows), Heads(Partition(f, rows), |rows|);
             s < |Picks(g) + RunnerUps(g)| <= k < |g| && Member(Partition(f, rows), h[k], |rows|, copy)
    ensures var g := Collapse(f, rows); s < |g| && (Picks(g) + RunnerUps(g))[s] == g[s]
    ensures Collapse(f, rows)[s].ScoreVal() >= Collapse(f, rows)[k].ScoreVal() >= rows[copy].ScoreVal()
  {
    CollapseKeepsScoreOrder(f, rows);
    ShownIsPrefix(Collapse(f, rows));
  }

  // ----- ids marked as reported ------------------------------------------------------

  ghost predicate ShownKey(f: Lens, shown: seq<Row>, k: string) {
    exists s :: 0 <= s < |shown| && f.Key(shown[s]) == k
  }

  /** The ids of the rows whose key is the key of a shown row, in input order. */
  ghost function Covered(f: Lens, shown: seq<Row>, all: seq<Row>): seq<int> {
    if all == [] then [] else
      Covered(f, shown, all[..|all| - 1])
      + if ShownKey(f, shown, f.Key(all[|all| - 1])) then [all[|all| - 1].id] else []
  }

  lemma {:induction false} CoveredExactly(f: Lens, shown: seq<Row>, all: seq<Row>, id: int)
    ensures id in Covered(f, shown, all) <==>
              exists i :: 0 <= i < |all| && all[i].id == id && ShownKey(f, shown, f.Key(all[i]))
  {
    if all != [] {
      var front := all[..|all| - 1];
      CoveredExactly(f, shown, front, id);
      assert forall i :: 0 <= i < |front| ==> front[i] == all[i];
    }
  }

  method ReportIds(f: Lens, picks: seq<Row>, also: seq<Row>, all: seq<Row>) returns (ids: seq<int>)
    ensures ids == Covered(f, picks + also, all)
  {
    var shown := picks + also;
    var picked: set<string> := {};
    for i := 0 to |shown|
      invariant forall k :: k in picked <==> ShownKey(f, shown[..i], k)
    {
      var now := picked + {f.Key(shown[i])};
      forall k ensures k in now <==> ShownKey(f, shown[..i + 1], k) {
        ShownKeyStep(f, shown, i, k);
      }
      picked := now;
    }
    assert shown[..|shown|] == shown;
    ids := [];
    for i := 0 to |all|
      invariant ids == Covered(f, shown, all[..i])
    {
      assert all[..i + 1][..i] == all[..i];
      if f.Key(all[i]) in picked {
        ids := ids + [all[i].id];
      }
    }
    assert all[..|all|] == all;
  }

  lemma ShownKeyStep(f: Lens, shown: seq<Row>, i: nat, k: string)
    requires i < |shown|
    ensures ShownKey(f, shown[..i + 1], k) <==> ShownKey(f, shown[..i], k) || f.Key(shown[i]) == k
  {
    var a, b := shown[..i], shown[..i + 1];
    assert forall s :: 0 <= s < |a| ==> a[s] == b[s];
    assert b[i] == shown[i];
  }

  lemma FirstFilledUnique(g: Row -> string, rows: seq<Row>, c: seq<int>, l: nat, n: nat, v: string, w: string)
    requires FirstFilled(g, rows, c, l, n, v) && FirstFilled(g, rows, c, l, n, w)
    ensures v == w
  {
    if v != "" && w != "" {
      var j :| Member(c, l, n, j) && g(rows[j]) == v && forall i :: Member(c, l, n, i) && i < j ==> g(rows[i]) == "";
      var k :| Member(c, l, n, k) && g(rows[k]) == w && forall i :: Member(c, l, n, i) && i < k ==> g(rows[i]) == "";
      assert !(j < k) && !(k < j);
    }
  }

  /** k is the key of the s-th group, told from the input rows: its first non-empty
      organisation with the title of its least-index copy. */
  ghost predicate MatchedBy(f: Lens, rows: seq<Row>, s: nat, k: string)
    requires s < |Heads(Partition(f, rows), |rows|)|
  {
    var c, l := Partition(f, rows), Heads(Partition(f, rows), |rows|)[s];
    exists o :: FirstFilled(ORG, rows, c, l, |rows|, o) && f.key(o, rows[l].title) == k
  }

  lemma GroupKey(f: Lens, rows: seq<Row>, s: nat, k: string)
    requires s < |Heads(Partition(f, rows), |rows|)|
    ensures f.Key(Collapse(f, rows)[s]) == k <==> MatchedBy(f, rows, s, k)
  {
    var c, n := Partition(f, rows), |rows|;
    var l, r := Heads(c, n)[s], Collapse(f, rows)[s];
    HeadsAreHeads(c, n, s);
    GroupTexts(rows, c, l, n);
    GroupIdentity(rows, c, l, n);
    if o :| FirstFilled(ORG, rows, c, l, n, o) && f.key(o, rows[l].title) == k {
      FirstFilledUnique(ORG, rows, c, l, n, o, r.org);
    }
  }

  lemma ShownKeyIff(f: Lens, rows: seq<Row>, shown: seq<Row>, k: string)
    requires |shown| <= |Collapse(f, rows)| && shown == Collapse(f, rows)[..|shown|]
    ensures ShownKey(f, shown, k) <==> exists s :: 0 <= s < |shown| && MatchedBy(f, rows, s, k)
  {
    forall s | 0 <= s < |shown| ensures f.Key(shown[s]) == k <==> MatchedBy(f, rows, s, k) {
      GroupKey(f, rows, s, k);
    }
  }

  /** Exactly when the digest marks a posting as reported, told from the input rows:
      some shown group's first organisation and leading title give the posting's own key. */
  lemma ReportedExactly(f: Lens, rows: seq<Row>, shown: seq<Row>, i: nat)
    requires ByScore(rows) && i < |rows| && shown == Picks(Collapse(f, rows)) + RunnerUps(Collapse(f, rows))
    requires forall a, b :: 0 <= a < b < |rows| ==> rows[a].id != rows[b].id
    ensures |shown| <= |Heads(Partition(f, rows), |rows|)|
    ensures rows[i].id in Covered(f, shown, rows) <==>
              exists s :: 0 <= s < |shown| && MatchedBy(f, rows, s, f.Key(rows[i]))
  {
    CollapseKeepsScoreOrder(f, rows);
    ShownIsPrefix(Collapse(f, rows));
    CoveredExactly(f, shown, rows, rows[i].id);
    ShownKeyIff(f, rows, shown, f.Key(rows[i]));
  }

  /** So a shown group marks the posting that represents it whenever merging did not
      change the organisation: the representative names one, or no copy does. */
  lemma RepresentativeReported(f: Lens, rows: seq<Row>, shown: seq<Row>, k: nat)
    requires k < |Heads(Partition(f, rows), |rows|)| && Collapse(f, rows)[k] in shown
    requires var l := Heads(Partition(f, rows), |rows|)[k];
             rows[l].org != "" || forall i :: Member(Partition(f, rows), l, |rows|, i) ==> rows[i].org == ""
    ensures rows[Heads(Partition(f, rows), |rows|)[k]].id in Covered(f, shown, rows)
  {
    var c, n := Partition(f, rows), |rows|;
    var l := Heads(c, n)[k];
    HeadsAreHeads(c, n, k);
    KeepsOrg(rows, c, l, n);
    GroupKey(f, rows, k, f.Key(rows[l]));
    var s :| 0 <= s < |shown| && shown[s] == Collapse(f, rows)[k];
    assert ShownKey(f, shown, f.Key(rows[l]));
    CoveredExactly(f, shown, rows, rows[l].id);
  }

  lemma KeepsOrg(rows: seq<Row>, c: seq<int>, l: nat, n: nat)
    requires l < n <= |c| == |rows| && LeastNamed(c) && c[l] == l
    requires rows[l].org != "" || forall i :: Member(c, l, n, i) ==> rows[i].org == ""
    ensures FirstFilled(ORG, rows, c, l, n, rows[l].org)
  {
    assert Member(c, l, n, l);
    assert forall j :: Member(c, l, n, j) ==> l <= j;
    assert forall i :: Member(c, l, n, i) ==> ORG(rows[i]) == rows[i].org;
  }

  lemma TwoTogether(f: Lens, a: Row, b: Row)
    requires SameJob(f, b, a)
    ensures Collapse(f, [a, b]) == [Merged(a, b)]
  {
    var rows := [a, b];
    var e, c := Edges(f, rows), Partition(f, rows);
    assert e(1, 0);
    EdgeIsLink(e, 2, 1, 0);
    CollapsedIffLinked(f, rows, 1, 0);
    assert Heads(c, 1) == [0] && Heads(c, 2) == [0];
    assert Fold(rows, c, 0, 1) == a;
  }

  lemma OnePick(m: Row)
    requires m.ScoreVal() >= REPORT_MIN_SCORE
    ensures Picks([m]) == [m] && RunnerUps([m]) == []
  {
    var front := [m][..0];
    assert front == [] && Picks(front) == [] && RunnerUps(front) == [];
    assert Picks([m]) == Picks(front) + [m];
    assert RunnerUps([m]) == RunnerUps(front);
  }

  /** Otherwise it can fail, although the comment on BuildReport promises every copy:
      a representative without organisation inherits one from its copy, the key
      changes with it, and the representative's own id is not marked: it resurfaces. */
  lemma RepresentativeMissed(f: Lens, a: Row, b: Row)
    requires SameJob(f, b, a) && a.id != b.id && a.score.Some? && a.score.value >= REPORT_MIN_SCORE
    requires a.org == "" && f.key(b.org, a.title) != f.key("", a.title)
    ensures var g := Collapse(f, [a, b]);
            && |g| == 1 && g[0].id == a.id && Picks(g) == g
            && a.id !in Covered(f, Picks(g) + RunnerUps(g), [a, b])
  {
    var m := Merged(a, b);
    TwoTogether(f, a, b);
    OnePick(m);
    var shown := Picks([m]) + RunnerUps([m]);
    assert shown == [m];
    CoveredExactly(f, shown, [a, b], a.id);
    assert f.Key(m) != f.Key(a);
  }

  /** The part of a URL in front of its query. */
  function WithoutQuery(u: string): string {
    if u == "" || u[0] == '?' then "" else [u[0]] + WithoutQuery(u[1..])
  }

  lemma {:induction false} QueryCut(u: string, query: string)
    requires '?' !in u && query != "" && query[0] == '?'
    ensures WithoutQuery(u) == u && WithoutQuery(u + query) == u
  {
    if u == "" {
      assert u + query == query;
    } else {
      assert (u + query)[1..] == u[1..] + query;
      QueryCut(u[1..], query);
    }
  }

  const NO_ORG := Row(1, "https://x", "Source", "Park Director", "", "", "", "", "", Some(90), "",
                      None, "", None, None, false, [], "", 0)
  const WITH_ORG := NO_ORG.(id := 2, url := "https://x" + "?utm=1", org := "WWF", score := Some(80))
  const PLAIN_LENS := Lens(WithoutQuery, (o, t) => o + "|" + t, (o, s) => "o:" + o, t => {})

  lemma PlainKeysDiffer(t: string)
    ensures PLAIN_LENS.key("WWF", t) != PLAIN_LENS.key("", t)
  {
    assert PLAIN_LENS.key("WWF", t)[0] == 'W' && PLAIN_LENS.key("", t)[0] == '|';
  }

  lemma SameLink()
    ensures NO_ORG.url != WITH_ORG.url && SameJob(PLAIN_LENS, WITH_ORG, NO_ORG)
  {
    QueryCut("https://x", "?utm=1");
  }

  /** Two such rows under different URLs, the second with a tracking parameter and its
      organisation. */
  lemma RepresentativeCanBeMissed()
    ensures ByScore([NO_ORG, WITH_ORG]) && NO_ORG.url != WITH_ORG.url
    ensures var g := Collapse(PLAIN_LENS, [NO_ORG, WITH_ORG]);
            NO_ORG.id !in Covered(PLAIN_LENS, Picks(g) + RunnerUps(g), [NO_ORG, WITH_ORG])
  {
    SameLink();
    PlainKeysDiffer(NO_ORG.title);
    RepresentativeMissed(PLAIN_LENS, NO_ORG, WITH_ORG);
  }
}
