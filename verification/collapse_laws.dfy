/** What collapsing conserves, and what each collapsed row is in terms of its copies. */
module CollapseLaws {
  import opened Basics
  import opened Postings
  import opened TextOrder
  import opened UnionFind
  import opened Dedupe

  // ----- conservation --------------------------------------------------------------

  /** Number of stored postings a list of rows stands for. */
  function Copies(g: seq<Row>): nat {
    if g == [] then 0 else Copies(g[..|g| - 1]) + g[|g| - 1].dupes + 1
  }

  function EventBag(g: seq<Row>): multiset<Change> {
    if g == [] then multiset{} else EventBag(g[..|g| - 1]) + multiset(g[|g| - 1].events)
  }

  lemma {:induction false} ReplaceOne(g: seq<Row>, p: nat, m: Row)
    requires p < |g|
    ensures Copies(g[p := m]) + g[p].dupes == Copies(g) + m.dupes
    ensures EventBag(g[p := m]) + multiset(g[p].events) == EventBag(g) + multiset(m.events)
  {
    var last := |g| - 1;
    if p == last {
      assert g[p := m][..last] == g[..last];
    } else {
      assert g[p := m][..last] == g[..last][p := m];
      ReplaceOne(g[..last], p, m);
      var rest, was, now := multiset(g[last].events), multiset(g[p].events), multiset(m.events);
      assert (EventBag(g[..last][p := m]) + rest) + was == (EventBag(g[..last][p := m]) + was) + rest;
      assert (EventBag(g[..last]) + rest) + now == (EventBag(g[..last]) + now) + rest;
    }
  }

  lemma BagStep(now: multiset<Change>, before: multiset<Change>, a: seq<Change>, b: seq<Change>)
    requires now + multiset(a) == before + multiset(a + b)
    ensures now == before + multiset(b)
  {
    assert multiset(a + b) == multiset(a) + multiset(b);
    assert now == (now + multiset(a)) - multiset(a);
    assert (before + multiset(b) + multiset(a)) - multiset(a) == before + multiset(b);
    assert before + (multiset(a) + multiset(b)) == before + multiset(b) + multiset(a);
  }

  /** From `before` to `after` one more row, r, is taken in. */
  ghost predicate Takes(before: seq<Row>, after: seq<Row>, r: Row) {
    Copies(after) == Copies(before) + 1 && EventBag(after) == EventBag(before) + multiset(r.events)
  }

  lemma OpenedConserves(g: seq<Row>, after: seq<Row>, r: Row)
    requires r.dupes == 0 && after == g + [r]
    ensures Takes(g, after, r)
  {
    assert after[..|g|] == g;
  }

  lemma MergeConserves(g: seq<Row>, after: seq<Row>, at: nat, m: Row, r: Row)
    requires at < |g| && r.dupes == 0 && after == g[at := m]
    requires m.dupes == g[at].dupes + 1 && m.events == g[at].events + r.events
    ensures Takes(g, after, r)
  {
    ReplaceOne(g, at, m);
    BagStep(EventBag(after), EventBag(g), g[at].events, r.events);
  }

  lemma PrefixBag(rows: seq<Row>, n: nat)
    requires 0 < n <= |rows|
    ensures EventBag(rows[..n]) == EventBag(rows[..n - 1]) + multiset(rows[n - 1].events)
  {
    assert rows[..n][..n - 1] == rows[..n - 1];
  }

  /** Each row is taken in between two neighbouring stages. */
  ghost predicate AllTaken(stages: seq<seq<Row>>, rows: seq<Row>, n: nat) {
    n <= |rows| && |stages| == n + 1 && forall k :: 0 <= k < n ==> Takes(stages[k], stages[k + 1], rows[k])
  }

  lemma {:induction false} StagesConserve(stages: seq<seq<Row>>, rows: seq<Row>, n: nat)
    requires n <= |rows| && AllTaken(stages, rows, |rows|) && stages[0] == []
    ensures Copies(stages[n]) == n && EventBag(stages[n]) == EventBag(rows[..n])
  {
    if n > 0 {
      StagesConserve(stages, rows, n - 1);
      PrefixBag(rows, n);
      assert Takes(stages[n - 1], stages[n - 1 + 1], rows[n - 1]);
    }
  }

  lemma GroupsStepConserves(rows: seq<Row>, c: seq<int>, n: nat)
    requires LeastNamed(c) && |rows| == |c| && 0 < n <= |c| && rows[n - 1].dupes == 0
    ensures Takes(Groups(rows, c, n - 1), Groups(rows, c, n), rows[n - 1])
  {
    var g, r := Groups(rows, c, n - 1), rows[n - 1];
    if c[n - 1] == n - 1 {
      GroupsStep(rows, c, n, 0);
      OpenedConserves(g, Groups(rows, c, n), r);
    } else {
      HeadsComplete(c, n - 1, c[n - 1]);
      var at :| 0 <= at < |Heads(c, n - 1)| && Heads(c, n - 1)[at] == c[n - 1];
      GroupsStep(rows, c, n, at);
      MergeConserves(g, Groups(rows, c, n), at, Merged(g[at], r), r);
    }
  }

  lemma OneMoreTaken(stages: seq<seq<Row>>, g: seq<Row>, rows: seq<Row>, n: nat)
    requires AllTaken(stages, rows, n) && n < |rows| && Takes(stages[n], g, rows[n])
    ensures AllTaken(stages + [g], rows, n + 1)
  {
    var all := stages + [g];
    forall k | 0 <= k < n + 1 ensures Takes(all[k], all[k + 1], rows[k]) {
      if k < n {
        assert all[k] == stages[k] && all[k + 1] == stages[k + 1];
      }
    }
  }

  /** The groups after each row, as a sequence. */
  lemma {:induction false} Stages(rows: seq<Row>, c: seq<int>, n: nat) returns (stages: seq<seq<Row>>)
    requires LeastNamed(c) && |rows| == |c| && n <= |c|
    requires forall i :: 0 <= i < |rows| ==> rows[i].dupes == 0
    ensures AllTaken(stages, rows, n) && stages[0] == [] && stages[n] == Groups(rows, c, n)
  {
    if n == 0 {
      stages := [Groups(rows, c, 0)];
    } else {
      var front := Stages(rows, c, n - 1);
      GroupsStepConserves(rows, c, n);
      OneMoreTaken(front, Groups(rows, c, n), rows, n - 1);
      stages := front + [Groups(rows, c, n)];
    }
  }

  /** Nothing is lost or invented: the collapsed rows stand for exactly the input
      rows, and the recorded events are the same ones. */
  lemma {:induction false} CollapseConserves(f: Lens, rows: seq<Row>)
    requires forall i :: 0 <= i < |rows| ==> rows[i].dupes == 0
    ensures Copies(Collapse(f, rows)) == |rows|
    ensures EventBag(Collapse(f, rows)) == EventBag(rows)
  {
    var stages := Stages(rows, Partition(f, rows), |rows|);
    StagesConserve(stages, rows, |rows|);
    assert rows[..|rows|] == rows;
  }

  // ----- the collapsed row -----------------------------------------------------------

  ghost const FIRST_SEEN: Row -> string := (r: Row) => r.firstSeen
  ghost const LAST_SEEN: Row -> string := (r: Row) => r.lastSeen
  ghost const DEADLINE: Row -> string := (r: Row) => r.deadline
  ghost const ORG: Row -> string := (r: Row) => r.org
  ghost const LOCATION: Row -> string := (r: Row) => r.location
  ghost const SALARY: Row -> string := (r: Row) => r.salary
  ghost const WHY: Row -> string := (r: Row) => r.why

  /** Index k below n belongs to the class named l. */
  ghost predicate Member(c: seq<int>, l: nat, n: nat, k: int) {
    0 <= k < n <= |c| && c[k] == l
  }

  /** v is the first non-empty value of attribute g among the members, in index order,
      and "" when no member has one. */
  ghost predicate FirstFilled(g: Row -> string, rows: seq<Row>, c: seq<int>, l: nat, n: nat, v: string) {
    && |rows| == |c|
    && (v == "" ==> forall k :: Member(c, l, n, k) ==> g(rows[k]) == "")
    && (v != "" ==> exists k :: Member(c, l, n, k) && g(rows[k]) == v
                                && forall j :: Member(c, l, n, j) && j < k ==> g(rows[j]) == "")
  }

  ghost predicate LeastFirstSeen(rows: seq<Row>, c: seq<int>, l: nat, n: nat, v: string) {
    && |rows| == |c|
    && (forall k :: Member(c, l, n, k) && rows[k].firstSeen != "" ==> v != "" && AtMost(v, rows[k].firstSeen))
    && (exists k :: Member(c, l, n, k) && rows[k].firstSeen == v)
  }

  ghost predicate Greatest(g: Row -> string, rows: seq<Row>, c: seq<int>, l: nat, n: nat, v: string) {
    && |rows| == |c|
    && (forall k :: Member(c, l, n, k) ==> AtMost(g(rows[k]), v))
    && (exists k :: Member(c, l, n, k) && g(rows[k]) == v)
  }

  ghost predicate MostApplicants(rows: seq<Row>, c: seq<int>, l: nat, n: nat, v: Option<int>) {
    && |rows| == |c|
    && (forall k :: Member(c, l, n, k) && rows[k].applicants.Some? ==>
          v.Some? && rows[k].applicants.value <= v.value)
    && (exists k :: Member(c, l, n, k) && rows[k].applicants == v)
  }

  lemma FirstFilledStep(g: Row -> string, rows: seq<Row>, c: seq<int>, l: nat, n: nat, v: string)
    requires n < |c| && c[n] == l && FirstFilled(g, rows, c, l, n, v)
    ensures FirstFilled(g, rows, c, l, n + 1, Fill(v, g(rows[n])))
  {
    if v == "" {
      assert Member(c, l, n + 1, n);
    } else {
      var k :| Member(c, l, n, k) && g(rows[k]) == v
               && forall j :: Member(c, l, n, j) && j < k ==> g(rows[j]) == "";
      assert Member(c, l, n + 1, k);
    }
  }

  lemma GreatestStep(g: Row -> string, rows: seq<Row>, c: seq<int>, l: nat, n: nat, v: string)
    requires n < |c| && c[n] == l && Greatest(g, rows, c, l, n, v)
    ensures Greatest(g, rows, c, l, n + 1, if Less(v, g(rows[n])) then g(rows[n]) else v)
  {
    var w := if Less(v, g(rows[n])) then g(rows[n]) else v;
    forall k | Member(c, l, n + 1, k) ensures AtMost(g(rows[k]), w) {
      if k == n {
        Irreflexive(g(rows[n]));
      } else {
        assert Member(c, l, n, k);
        if w != v {
          Asymmetric(v, w);
          AtMostTransitive(g(rows[k]), v, w);
        }
      }
    }
    var k :| Member(c, l, n, k) && g(rows[k]) == v;
    assert Member(c, l, n + 1, k) && Member(c, l, n + 1, n);
  }

  lemma LeastFirstSeenStep(rows: seq<Row>, c: seq<int>, l: nat, n: nat, v: string)
    requires n < |c| && c[n] == l && LeastFirstSeen(rows, c, l, n, v)
    ensures var s := rows[n].firstSeen;
            LeastFirstSeen(rows, c, l, n + 1, if s != "" && (v == "" || Less(s, v)) then s else v)
  {
    var s := rows[n].firstSeen;
    var w := if s != "" && (v == "" || Less(s, v)) then s else v;
    forall k | Member(c, l, n + 1, k) && rows[k].firstSeen != ""
      ensures w != "" && AtMost(w, rows[k].firstSeen)
    {
      if k == n {
        Irreflexive(s);
      } else {
        assert Member(c, l, n, k);
        if w != v {
          Asymmetric(w, v);
          AtMostTransitive(w, v, rows[k].firstSeen);
        }
      }
    }
    var k :| Member(c, l, n, k) && rows[k].firstSeen == v;
    assert Member(c, l, n + 1, k) && Member(c, l, n + 1, n);
  }

  lemma MostApplicantsStep(rows: seq<Row>, c: seq<int>, l: nat, n: nat, v: Option<int>)
    requires n < |c| && c[n] == l && MostApplicants(rows, c, l, n, v)
    ensures var s := rows[n].applicants;
            MostApplicants(rows, c, l, n + 1, if s.Some? && (v.None? || s.value > v.value) then s else v)
  {
    var k :| Member(c, l, n, k) && rows[k].applicants == v;
    assert Member(c, l, n + 1, k) && Member(c, l, n + 1, n);
    assert forall j :: Member(c, l, n + 1, j) && j != n ==> Member(c, l, n, j);
  }

  lemma SameMembers(c: seq<int>, l: nat, n: nat)
    requires 0 < n <= |c|
    ensures forall k :: Member(c, l, n, k) <==> Member(c, l, n - 1, k) || (k == n - 1 && c[n - 1] == l)
  {
  }

  /** First and last sightings of a collapsed row. */
  lemma {:induction false} GroupSightings(rows: seq<Row>, c: seq<int>, l: nat, n: nat)
    requires |rows| == |c| && l < n <= |c| && LeastNamed(c) && c[l] == l
    ensures var r := Fold(rows, c, l, n);
            LeastFirstSeen(rows, c, l, n, r.firstSeen) && Greatest(LAST_SEEN, rows, c, l, n, r.lastSeen)
  {
    SameMembers(c, l, n);
    if n == l + 1 {
      assert forall k :: Member(c, l, n, k) <==> k == l;
      Irreflexive(rows[l].firstSeen);
      Irreflexive(rows[l].lastSeen);
      assert LAST_SEEN(rows[l]) == rows[l].lastSeen;
    } else {
      GroupSightings(rows, c, l, n - 1);
      var v := Fold(rows, c, l, n - 1);
      if c[n - 1] == l {
        LeastFirstSeenStep(rows, c, l, n - 1, v.firstSeen);
        GreatestStep(LAST_SEEN, rows, c, l, n - 1, v.lastSeen);
      } else {
        assert Greatest(LAST_SEEN, rows, c, l, n, v.lastSeen);
      }
    }
  }

  lemma {:induction false} GroupApplicants(rows: seq<Row>, c: seq<int>, l: nat, n: nat)
    requires |rows| == |c| && l < n <= |c| && LeastNamed(c) && c[l] == l
    ensures MostApplicants(rows, c, l, n, Fold(rows, c, l, n).applicants)
  {
    SameMembers(c, l, n);
    if n == l + 1 {
      assert forall k :: Member(c, l, n, k) <==> k == l;
    } else {
      GroupApplicants(rows, c, l, n - 1);
      if c[n - 1] == l {
        MostApplicantsStep(rows, c, l, n - 1, Fold(rows, c, l, n - 1).applicants);
      }
    }
  }

  lemma {:induction false} GroupClosed(rows: seq<Row>, c: seq<int>, l: nat, n: nat)
    requires |rows| == |c| && l < n <= |c| && LeastNamed(c) && c[l] == l
    ensures var r := Fold(rows, c, l, n);
            && (r.closedAt.Some? <==> forall k :: Member(c, l, n, k) ==> rows[k].closedAt.Some?)
            && (r.closedAt.Some? ==> r.closedAt == rows[l].closedAt)
  {
    SameMembers(c, l, n);
    if n == l + 1 {
      assert forall k :: Member(c, l, n, k) <==> k == l;
    } else {
      GroupClosed(rows, c, l, n - 1);
    }
  }

  lemma {:induction false} GroupReposted(rows: seq<Row>, c: seq<int>, l: nat, n: nat)
    requires |rows| == |c| && l < n <= |c| && LeastNamed(c) && c[l] == l
    ensures Fold(rows, c, l, n).reposted <==> exists k :: Member(c, l, n, k) && rows[k].reposted
  {
    SameMembers(c, l, n);
    if n == l + 1 {
      assert forall k :: Member(c, l, n, k) <==> k == l;
    } else {
      GroupReposted(rows, c, l, n - 1);
    }
  }

  /** Applicants and listing state of a collapsed row: the greatest figure any copy
      has, closed only if every copy is, reposted if some copy is. */
  lemma {:induction false} GroupListing(rows: seq<Row>, c: seq<int>, l: nat, n: nat)
    requires |rows| == |c| && l < n <= |c| && LeastNamed(c) && c[l] == l
    ensures var r := Fold(rows, c, l, n);
            && MostApplicants(rows, c, l, n, r.applicants)
            && (r.closedAt.Some? <==> forall k :: Member(c, l, n, k) ==> rows[k].closedAt.Some?)
            && (r.closedAt.Some? ==> r.closedAt == rows[l].closedAt)
            && (r.reposted <==> exists k :: Member(c, l, n, k) && rows[k].reposted)
  {
    GroupApplicants(rows, c, l, n);
    GroupClosed(rows, c, l, n);
    GroupReposted(rows, c, l, n);
  }

  /** Some member other than the one that names the class. */
  ghost predicate HasCopy(c: seq<int>, l: nat, n: nat) {
    exists k :: Member(c, l, n, k) && k != l
  }

  /** What the newest first sighting of a merged row v says of the members below n. */
  ghost predicate LatestOf(rows: seq<Row>, c: seq<int>, l: nat, n: nat, v: Row) {
    && l < |rows| == |c|
    && if HasCopy(c, l, n) then Greatest(FIRST_SEEN, rows, c, l, n, v.latestFirstSeen)
       else v.latestFirstSeen == "" && v == rows[l]
  }

  lemma LatestSkips(rows: seq<Row>, c: seq<int>, l: nat, n: nat, v: Row)
    requires n < |c| && c[n] != l && LatestOf(rows, c, l, n, v)
    ensures LatestOf(rows, c, l, n + 1, v)
  {
    SameMembers(c, l, n + 1);
    if HasCopy(c, l, n) {
      var k :| Member(c, l, n, k) && k != l;
      assert Member(c, l, n + 1, k);
      var m :| Member(c, l, n, m) && FIRST_SEEN(rows[m]) == v.latestFirstSeen;
      assert Member(c, l, n + 1, m);
    }
  }

  lemma LatestTakes(rows: seq<Row>, c: seq<int>, l: nat, n: nat, v: Row)
    requires l < n < |c| == |rows| && LeastNamed(c) && c[l] == l && c[n] == l
    requires v == Fold(rows, c, l, n) && LatestOf(rows, c, l, n, v)
    ensures LatestOf(rows, c, l, n + 1, Merged(v, rows[n]))
  {
    assert Member(c, l, n + 1, n) && Member(c, l, n, l);
    if HasCopy(c, l, n) {
      if v.latestFirstSeen == "" {
        AllBlank(rows, c, l, n, v);
      }
    } else {
      Irreflexive(rows[l].firstSeen);
      assert Greatest(FIRST_SEEN, rows, c, l, n, rows[l].firstSeen);
    }
    GreatestStep(FIRST_SEEN, rows, c, l, n, Fill(v.latestFirstSeen, v.firstSeen));
  }

  /** The newest first sighting among two or more copies ("" marks a row never merged). */
  lemma {:induction false} GroupLatest(rows: seq<Row>, c: seq<int>, l: nat, n: nat)
    requires |rows| == |c| && l < n <= |c| && LeastNamed(c) && c[l] == l
    requires rows[l].latestFirstSeen == ""
    ensures var r := Fold(rows, c, l, n);
            if HasCopy(c, l, n)
            then Greatest(FIRST_SEEN, rows, c, l, n, r.latestFirstSeen)
            else r.latestFirstSeen == "" && Fold(rows, c, l, n) == rows[l]
  {
    if n > l + 1 {
      GroupLatest(rows, c, l, n - 1);
      var v := Fold(rows, c, l, n - 1);
      if c[n - 1] == l {
        LatestTakes(rows, c, l, n - 1, v);
      } else {
        LatestSkips(rows, c, l, n - 1, v);
      }
    }
  }

  lemma AllBlank(rows: seq<Row>, c: seq<int>, l: nat, n: nat, v: Row)
    requires |rows| == |c| && l < n <= |c| && LeastNamed(c) && c[l] == l && v == Fold(rows, c, l, n)
    requires Greatest(FIRST_SEEN, rows, c, l, n, "")
    ensures v.firstSeen == ""
  {
    GroupSightings(rows, c, l, n);
    var k :| Member(c, l, n, k) && rows[k].firstSeen == v.firstSeen;
    assert AtMost(FIRST_SEEN(rows[k]), "");
  }

  /** Merging fills attribute g when it is empty and otherwise leaves it alone. */
  ghost predicate FilledByMerge(g: Row -> string) {
    forall a, b {:trigger Merged(a, b)} :: g(Merged(a, b)) == Fill(g(a), g(b))
  }

  lemma FirstFilledSkip(g: Row -> string, rows: seq<Row>, c: seq<int>, l: nat, n: nat, v: string)
    requires n < |c| && c[n] != l && FirstFilled(g, rows, c, l, n, v)
    ensures FirstFilled(g, rows, c, l, n + 1, v)
  {
    SameMembers(c, l, n + 1);
  }

  lemma FirstFilledAlone(g: Row -> string, rows: seq<Row>, c: seq<int>, l: nat)
    requires l < |c| == |rows| && LeastNamed(c) && c[l] == l
    ensures FirstFilled(g, rows, c, l, l + 1, g(rows[l]))
  {
    var n := l + 1;
    assert forall k :: Member(c, l, n, k) <==> k == l;
  }

  lemma {:induction false} GroupText(g: Row -> string, rows: seq<Row>, c: seq<int>, l: nat, n: nat)
    requires |rows| == |c| && l < n <= |c| && LeastNamed(c) && c[l] == l && FilledByMerge(g)
    ensures FirstFilled(g, rows, c, l, n, g(Fold(rows, c, l, n)))
  {
    if n == l + 1 {
      FirstFilledAlone(g, rows, c, l);
    } else {
      GroupText(g, rows, c, l, n - 1);
      var v := Fold(rows, c, l, n - 1);
      if c[n - 1] == l {
        FirstFilledStep(g, rows, c, l, n - 1, g(v));
        assert g(Merged(v, rows[n - 1])) == Fill(g(v), g(rows[n - 1]));
      } else {
        FirstFilledSkip(g, rows, c, l, n - 1, g(v));
      }
    }
  }

  /** The text fields: the group shows the first non-empty value its copies have. */
  lemma {:induction false} GroupTexts(rows: seq<Row>, c: seq<int>, l: nat, n: nat)
    requires |rows| == |c| && l < n <= |c| && LeastNamed(c) && c[l] == l
    ensures var r := Fold(rows, c, l, n);
            && FirstFilled(DEADLINE, rows, c, l, n, r.deadline) && FirstFilled(ORG, rows, c, l, n, r.org)
            && FirstFilled(LOCATION, rows, c, l, n, r.location) && FirstFilled(SALARY, rows, c, l, n, r.salary)
            && FirstFilled(WHY, rows, c, l, n, r.why)
  {
    GroupText(DEADLINE, rows, c, l, n);
    GroupText(ORG, rows, c, l, n);
    GroupText(LOCATION, rows, c, l, n);
    GroupText(SALARY, rows, c, l, n);
    GroupText(WHY, rows, c, l, n);
  }

  /** What identifies a group comes from its least-index copy. */
  lemma {:induction false} GroupIdentity(rows: seq<Row>, c: seq<int>, l: nat, n: nat)
    requires |rows| == |c| && l < n <= |c| && LeastNamed(c) && c[l] == l
    ensures var r := Fold(rows, c, l, n);
            && r.id == rows[l].id && r.url == rows[l].url && r.title == rows[l].title
            && r.source == rows[l].source
  {
    if n > l + 1 {
      GroupIdentity(rows, c, l, n - 1);
    }
  }

  /** v is the first value that attribute g has among the members, in index order. */
  ghost predicate FirstKnown<T>(g: Row -> Option<T>, rows: seq<Row>, c: seq<int>, l: nat, n: nat, v: Option<T>) {
    && |rows| == |c|
    && (v.None? ==> forall k :: Member(c, l, n, k) ==> g(rows[k]).None?)
    && (v.Some? ==> exists k :: Member(c, l, n, k) && g(rows[k]) == v
                                && forall j :: Member(c, l, n, j) && j < k ==> g(rows[j]).None?)
  }

  lemma FirstKnownStep<T>(g: Row -> Option<T>, rows: seq<Row>, c: seq<int>, l: nat, n: nat, v: Option<T>)
    requires n < |c| && FirstKnown(g, rows, c, l, n, v)
    ensures FirstKnown(g, rows, c, l, n + 1, if c[n] == l && v.None? then g(rows[n]) else v)
  {
    SameMembers(c, l, n + 1);
    if v.None? {
      assert c[n] == l ==> Member(c, l, n + 1, n);
    } else {
      var k :| Member(c, l, n, k) && g(rows[k]) == v
               && forall j :: Member(c, l, n, j) && j < k ==> g(rows[j]).None?;
      assert Member(c, l, n + 1, k);
    }
  }

  lemma FirstKnownAlone<T>(g: Row -> Option<T>, rows: seq<Row>, c: seq<int>, l: nat)
    requires l < |c| == |rows| && LeastNamed(c) && c[l] == l
    ensures FirstKnown(g, rows, c, l, l + 1, g(rows[l]))
  {
    var n := l + 1;
    assert forall k :: Member(c, l, n, k) <==> k == l;
  }

  ghost const REPORTED_AT: Row -> Option<string> := (r: Row) => r.reportedAt
  ghost const SCORE: Row -> Option<int> := (r: Row) => r.score

  /** Merging keeps attribute g if it is known and otherwise takes the other row's. */
  ghost predicate KeptByMerge<T>(g: Row -> Option<T>) {
    forall a, b {:trigger Merged(a, b)} :: g(Merged(a, b)) == if g(a).None? then g(b) else g(a)
  }

  lemma {:induction false} GroupFirst<T>(g: Row -> Option<T>, rows: seq<Row>, c: seq<int>, l: nat, n: nat)
    requires |rows| == |c| && l < n <= |c| && LeastNamed(c) && c[l] == l && KeptByMerge(g)
    ensures FirstKnown(g, rows, c, l, n, g(Fold(rows, c, l, n)))
  {
    if n == l + 1 {
      FirstKnownAlone(g, rows, c, l);
    } else {
      GroupFirst(g, rows, c, l, n - 1);
      var v := Fold(rows, c, l, n - 1);
      FirstKnownStep(g, rows, c, l, n - 1, g(v));
      assert g(Merged(v, rows[n - 1])) == if g(v).None? then g(rows[n - 1]) else g(v);
    }
  }

  /** Score and report date of a group are the first ones its copies have. */
  lemma {:induction false} GroupFirsts(rows: seq<Row>, c: seq<int>, l: nat, n: nat)
    requires |rows| == |c| && l < n <= |c| && LeastNamed(c) && c[l] == l
    ensures var r := Fold(rows, c, l, n);
            FirstKnown(SCORE, rows, c, l, n, r.score) && FirstKnown(REPORTED_AT, rows, c, l, n, r.reportedAt)
  {
    GroupFirst(SCORE, rows, c, l, n);
    GroupFirst(REPORTED_AT, rows, c, l, n);
  }

  /** The events of the members below n, one member after the other. */
  function EventsOf(rows: seq<Row>, c: seq<int>, l: nat, n: nat): seq<Change>
    requires n <= |c| == |rows|
  {
    if n == 0 then [] else EventsOf(rows, c, l, n - 1) + if c[n - 1] == l then rows[n - 1].events else []
  }

  lemma {:induction false} NoneBefore(rows: seq<Row>, c: seq<int>, l: nat, n: nat)
    requires n <= l < |c| == |rows| && LeastNamed(c)
    ensures EventsOf(rows, c, l, n) == []
  {
    if n > 0 {
      NoneBefore(rows, c, l, n - 1);
    }
  }

  /** A group lists the events of all its copies, in index order. */
  lemma {:induction false} GroupEvents(rows: seq<Row>, c: seq<int>, l: nat, n: nat)
    requires |rows| == |c| && l < n <= |c| && LeastNamed(c) && c[l] == l
    ensures Fold(rows, c, l, n).events == EventsOf(rows, c, l, n)
  {
    if n == l + 1 {
      NoneBefore(rows, c, l, l);
    } else {
      GroupEvents(rows, c, l, n - 1);
    }
  }

  /** The members behind the one that names the class. */
  function Further(c: seq<int>, l: nat, n: nat): set<int>
    requires n <= |c|
  {
    set k | l < k < n && c[k] == l
  }

  lemma FurtherStep(c: seq<int>, l: nat, n: nat)
    requires l < n < |c|
    ensures |Further(c, l, n + 1)| == |Further(c, l, n)| + if c[n] == l then 1 else 0
  {
    assert Further(c, l, n + 1) == Further(c, l, n) + if c[n] == l then {n} else {};
  }

  /** Dupes counts the further copies. */
  lemma {:induction false} GroupDupes(rows: seq<Row>, c: seq<int>, l: nat, n: nat)
    requires |rows| == |c| && l < n <= |c|
    ensures Fold(rows, c, l, n).dupes == rows[l].dupes + |Further(c, l, n)|
  {
    if n == l + 1 {
      assert Further(c, l, n) == {};
    } else {
      GroupDupes(rows, c, l, n - 1);
      FurtherStep(c, l, n - 1);
    }
  }

  // ----- score order -------------------------------------------------------------------

  /** Best score first, unranked rows last, as List and Unreported order them. */
  ghost predicate ByScore(rows: seq<Row>) {
    && (forall i, j :: 0 <= i < j < |rows| ==> rows[i].ScoreVal() >= rows[j].ScoreVal())
    && (forall i :: 0 <= i < |rows| ==> rows[i].score.Some? ==> rows[i].score.value >= 0)
  }

  lemma {:induction false} FoldKeepsScore(rows: seq<Row>, c: seq<int>, l: nat, n: nat)
    requires |rows| == |c| && l < n <= |c| && ByScore(rows)
    ensures Fold(rows, c, l, n).score == rows[l].score
  {
    if n > l + 1 {
      FoldKeepsScore(rows, c, l, n - 1);
      assert rows[l].ScoreVal() >= rows[n - 1].ScoreVal();
    }
  }

  lemma GroupScore(f: Lens, rows: seq<Row>, g: nat)
    requires ByScore(rows) && g < |Heads(Partition(f, rows), |rows|)|
    ensures Collapse(f, rows)[g].score == rows[Heads(Partition(f, rows), |rows|)[g]].score
  {
    FoldKeepsScore(rows, Partition(f, rows), Heads(Partition(f, rows), |rows|)[g], |rows|);
  }

  lemma ScoresInOrder(rows: seq<Row>, c: seq<int>, out: seq<Row>)
    requires ByScore(rows) && |rows| == |c| && LeastNamed(c) && |out| == |Heads(c, |rows|)|
    requires forall g :: 0 <= g < |out| ==> out[g].score == rows[Heads(c, |rows|)[g]].score
    ensures ByScore(out)
    ensures forall g, k :: 0 <= g < |out| && Member(c, Heads(c, |rows|)[g], |rows|, k) ==>
              out[g].ScoreVal() >= rows[k].ScoreVal()
  {
    forall g, m | 0 <= g < m < |out| ensures out[g].ScoreVal() >= out[m].ScoreVal() {
      HeadsIncrease(c, |rows|, g, m);
    }
  }

  /** On rows ordered by score, collapsing keeps that order and every group carries
      the greatest score among its copies. */
  lemma CollapseKeepsScoreOrder(f: Lens, rows: seq<Row>)
    requires ByScore(rows)
    ensures ByScore(Collapse(f, rows))
    ensures var c, h := Partition(f, rows), Heads(Partition(f, rows), |rows|);
            forall g, k :: 0 <= g < |h| && Member(c, h[g], |rows|, k) ==>
              Collapse(f, rows)[g].ScoreVal() >= rows[k].ScoreVal()
  {
    var out := Collapse(f, rows);
    forall g | 0 <= g < |out| ensures out[g].score == rows[Heads(Partition(f, rows), |rows|)[g]].score {
      GroupScore(f, rows, g);
    }
    ScoresInOrder(rows, Partition(f, rows), out);
  }
}
