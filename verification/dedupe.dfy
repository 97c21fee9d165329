/** Duplicate collapsing (srv/jobs/dedupe.go).  The text normalisations (canonical
    URL, org|title key, org bucket, title tokens) are parameters: nothing below
    depends on what they compute. */
module Postings {
  import opened Basics

  datatype Change = Change(at: string, kind: string, was: string, becomes: string)

  datatype Row = Row(
    id: int, url: string, source: string, title: string, org: string, location: string,
    deadline: string, firstSeen: string, lastSeen: string, score: Option<int>, why: string,
    reportedAt: Option<string>, salary: string, applicants: Option<int>,
    closedAt: Option<string>, reposted: bool, events: seq<Change>,
    latestFirstSeen: string, dupes: nat)
  {
    function ScoreVal(): int {
      if score.None? then -1 else score.value
    }
  }

  /** The four text-derived attributes two rows are compared by. */
  datatype Lens = Lens(
    canonicalUrl: string -> string,
    key: (string, string) -> string,
    bucket: (string, string) -> string,
    tokens: string -> set<string>)
  {
    function Url(r: Row): string { canonicalUrl(r.url) }
    function Key(r: Row): string { key(r.org, r.title) }
    function Bucket(r: Row): string { bucket(r.org, r.source) }
    function Tokens(r: Row): set<string> { tokens(r.title) }

    ghost function UrlOf(): Row -> string { r => Url(r) }
    ghost function KeyOf(): Row -> string { r => Key(r) }
  }
}

module Dedupe {
  import opened Basics
  import opened Closure
  import opened Postings
  import opened TextOrder
  import opened UnionFind

  /** Jaccard overlap of two token sets, in exact integers: at least 3/4 when either
      title has at most three tokens, else at least 3/5; never for tiny titles. */
  predicate Similar(a: set<string>, b: set<string>) {
    && |a| >= 2 && |b| >= 2
    && if |a| <= 3 || |b| <= 3 then 4 * |a * b| >= 3 * |a + b| else 5 * |a * b| >= 3 * |a + b|
  }

  /** When dedupe.go calls two rows directly the same job. */
  predicate SameJob(f: Lens, r: Row, s: Row) {
    || (f.Url(r) != "" && f.Url(r) == f.Url(s))
    || f.Key(r) == f.Key(s)
    || (f.Bucket(r) == f.Bucket(s) && Similar(f.Tokens(r), f.Tokens(s)))
  }

  ghost function Edges(f: Lens, rows: seq<Row>): Relation {
    (i, j) => 0 <= i < |rows| && 0 <= j < |rows| && SameJob(f, rows[i], rows[j])
  }

  lemma EdgesSymmetric(f: Lens, rows: seq<Row>)
    ensures Symmetric(Edges(f, rows), |rows|)
  {
    forall a: set<string>, b: set<string> ensures Similar(a, b) == Similar(b, a) {
      assert a * b == b * a && a + b == b + a;
    }
  }

  /** Counting the common tokens of a and b one token of a at a time. */
  lemma CommonStep(a: set<string>, b: set<string>, todo: set<string>, w: string)
    requires w in todo && todo <= a
    ensures |(a - (todo - {w})) * b| == |(a - todo) * b| + if w in b then 1 else 0
  {
    assert (a - (todo - {w})) * b == (a - todo) * b + (if w in b then {w} else {});
  }

  lemma UnionSize(a: set<string>, b: set<string>)
    ensures |a + b| == |a| + |b| - |a * b|
  {
  }

  method ComputeSimilar(a: set<string>, b: set<string>) returns (r: bool)
    ensures r == Similar(a, b)
  {
    if |a| < 2 || |b| < 2 {
      return false;
    }
    var inter := 0;
    var todo := a;
    while todo != {}
      invariant todo <= a
      invariant inter == |(a - todo) * b|
      decreases todo
    {
      var w :| w in todo;
      CommonStep(a, b, todo, w);
      todo := todo - {w};
      if w in b {
        inter := inter + 1;
      }
    }
    assert (a - todo) * b == a * b;
    UnionSize(a, b);
    var union := |a| + |b| - inter;
    if |a| <= 3 || |b| <= 3 {
      return 4 * inter >= 3 * union;
    }
    return 5 * inter >= 3 * union;
  }

  // ----- merging -----------------------------------------------------------------

  function Fill(v: string, other: string): string {
    if v == "" then other else v
  }

  /** A row after one copy is folded into it. */
  function Merged(dst: Row, src: Row): Row {
    var latest := Fill(dst.latestFirstSeen, dst.firstSeen);
    dst.(dupes := dst.dupes + 1,
         latestFirstSeen := if Less(latest, src.firstSeen) then src.firstSeen else latest,
         firstSeen := if src.firstSeen != "" && (dst.firstSeen == "" || Less(src.firstSeen, dst.firstSeen))
                      then src.firstSeen else dst.firstSeen,
         closedAt := if src.closedAt.None? then None else dst.closedAt,
         applicants := if src.applicants.Some?
                          && (dst.applicants.None? || src.applicants.value > dst.applicants.value)
                       then src.applicants else dst.applicants,
         salary := Fill(dst.salary, src.salary),
         reposted := dst.reposted || src.reposted,
         events := dst.events + src.events,
         lastSeen := if Less(dst.lastSeen, src.lastSeen) then src.lastSeen else dst.lastSeen,
         deadline := Fill(dst.deadline, src.deadline),
         org := Fill(dst.org, src.org),
         location := Fill(dst.location, src.location),
         reportedAt := if dst.reportedAt.None? then src.reportedAt else dst.reportedAt,
         why := Fill(dst.why, src.why),
         score := if dst.score.None? then src.score else dst.score)
  }

  method Merge(out: array<Row>, p: nat, src: Row)
    requires p < out.Length
    modifies out
    ensures out[..] == old(out[..])[p := Merged(old(out[p]), src)]
  {
    var m := MergeRow(out[p], src);
    out[p] := m;
  }

  /** The three dates of a merge. */
  method MergeSightings(dst: Row, src: Row) returns (latest: string, firstSeen: string, lastSeen: string)
    ensures var m := Merged(dst, src);
            latest == m.latestFirstSeen && firstSeen == m.firstSeen && lastSeen == m.lastSeen
  {
    latest := dst.latestFirstSeen;
    if latest == "" {
      latest := dst.firstSeen;
    }
    if Less(latest, src.firstSeen) {
      latest := src.firstSeen;
    }
    firstSeen, lastSeen := dst.firstSeen, dst.lastSeen;
    if src.firstSeen != "" && (firstSeen == "" || Less(src.firstSeen, firstSeen)) {
      firstSeen := src.firstSeen;
    }
    if Less(lastSeen, src.lastSeen) {
      lastSeen := src.lastSeen;
    }
  }

  method MergeRow(dst: Row, src: Row) returns (m: Row)
    ensures m == Merged(dst, src)
  {
    var latest, firstSeen, lastSeen := MergeSightings(dst, src);
    var closedAt, applicants := dst.closedAt, dst.applicants;
    if src.closedAt.None? {
      closedAt := None;
    }
    if src.applicants.Some? && (applicants.None? || src.applicants.value > applicants.value) {
      applicants := src.applicants;
    }
    var salary, deadline, org, location, why := dst.salary, dst.deadline, dst.org, dst.location, dst.why;
    if salary == "" {
      salary := src.salary;
    }
    if deadline == "" {
      deadline := src.deadline;
    }
    if org == "" {
      org := src.org;
    }
    if location == "" {
      location := src.location;
    }
    var reportedAt, score := dst.reportedAt, dst.score;
    if reportedAt.None? {
      reportedAt := src.reportedAt;
    }
    if why == "" {
      why := src.why;
    }
    if score.None? {
      score := src.score;
    }
    m := dst.(dupes := dst.dupes + 1, latestFirstSeen := latest, firstSeen := firstSeen,
                   closedAt := closedAt, applicants := applicants, salary := salary,
                   reposted := dst.reposted || src.reposted, events := dst.events + src.events,
                   lastSeen := lastSeen, deadline := deadline, org := org, location := location,
                   reportedAt := reportedAt, why := why, score := score);
  }

  // ----- groups ------------------------------------------------------------------

  /** The indices below n that name their class, in increasing order. */
  ghost function Heads(c: seq<int>, n: nat): (h: seq<int>)
    requires n <= |c|
    ensures |h| <= n
    ensures forall k :: 0 <= k < |h| ==> 0 <= h[k] < n
  {
    if n == 0 then [] else
      Heads(c, n - 1) + if c[n - 1] == n - 1 then [n - 1] else []
  }

  lemma {:induction false} HeadsIncrease(c: seq<int>, n: nat, k: nat, m: nat)
    requires n <= |c| && k < m < |Heads(c, n)|
    ensures Heads(c, n)[k] < Heads(c, n)[m]
  {
    if m < |Heads(c, n - 1)| {
      HeadsIncrease(c, n - 1, k, m);
    }
  }

  lemma {:induction false} HeadsComplete(c: seq<int>, n: nat, i: nat)
    requires i < n <= |c| && c[i] == i
    ensures i in Heads(c, n)
  {
    if i == n - 1 {
      assert Heads(c, n)[|Heads(c, n - 1)|] == i;
    } else {
      HeadsComplete(c, n - 1, i);
    }
  }

  lemma {:induction false} HeadsAreHeads(c: seq<int>, n: nat, k: nat)
    requires n <= |c| && k < |Heads(c, n)|
    ensures c[Heads(c, n)[k]] == Heads(c, n)[k]
  {
    if k < |Heads(c, n - 1)| {
      HeadsAreHeads(c, n - 1, k);
    }
  }

  /** Row l with every later member of its class below n merged in, in index order. */
  ghost function Fold(rows: seq<Row>, c: seq<int>, l: nat, n: nat): Row
    requires |rows| == |c| && l < n <= |c|
  {
    if n == l + 1 then rows[l]
    else if c[n - 1] == l then Merged(Fold(rows, c, l, n - 1), rows[n - 1])
    else Fold(rows, c, l, n - 1)
  }

  /** One row per class of the first n rows, ordered by least index. */
  ghost function Groups(rows: seq<Row>, c: seq<int>, n: nat): (g: seq<Row>)
    requires |rows| == |c| && n <= |c|
    ensures |g| == |Heads(c, n)|
  {
    seq(|Heads(c, n)|, k requires 0 <= k < |Heads(c, n)| => Fold(rows, c, Heads(c, n)[k], n))
  }

  /** The collapsed rows as a function of the input alone. */
  ghost function Collapse(f: Lens, rows: seq<Row>): seq<Row> {
    Groups(rows, Partition(f, rows), |rows|)
  }

  ghost function Partition(f: Lens, rows: seq<Row>): (c: seq<int>)
    ensures |c| == |rows| && LeastNamed(c)
  {
    var e := Edges(f, rows);
    EdgesSymmetric(f, rows);
    var c := LeaderSeq(e, |rows|);
    assert LeastNamed(c) by {
      forall i | 0 <= i < |rows| ensures 0 <= c[i] <= i && c[c[i]] == c[i] {
        SameLeaderIffLinked(e, |rows|, i, c[i]);
      }
    }
    c
  }

  /** Two input rows are collapsed together exactly when a chain of direct matches
      connects them. */
  lemma CollapsedIffLinked(f: Lens, rows: seq<Row>, i: int, j: int)
    requires 0 <= i < |rows| && 0 <= j < |rows|
    ensures Partition(f, rows)[i] == Partition(f, rows)[j] <==> Linked(Edges(f, rows), |rows|, i, j)
  {
    EdgesSymmetric(f, rows);
    SameLeaderIffLinked(Edges(f, rows), |rows|, i, j);
  }

  lemma GroupsStep(rows: seq<Row>, c: seq<int>, n: nat, at: nat)
    requires LeastNamed(c) && |rows| == |c| && 0 < n <= |c|
    requires c[n - 1] < n - 1 ==> at < |Heads(c, n - 1)| && Heads(c, n - 1)[at] == c[n - 1]
    ensures c[n - 1] == n - 1 ==> Groups(rows, c, n) == Groups(rows, c, n - 1) + [rows[n - 1]]
    ensures c[n - 1] < n - 1 ==>
              Groups(rows, c, n) == Groups(rows, c, n - 1)[at := Merged(Groups(rows, c, n - 1)[at], rows[n - 1])]
  {
    var h := Heads(c, n - 1);
    forall k | 0 <= k < |h| && !(c[n - 1] < n - 1 && k == at)
      ensures Fold(rows, c, h[k], n) == Fold(rows, c, h[k], n - 1)
    {
      if k < at < |h| {
        HeadsIncrease(c, n - 1, k, at);
      } else if at < k {
        HeadsIncrease(c, n - 1, at, k);
      }
    }
  }

  // ----- the in-place algorithm ---------------------------------------------------

  /** What one union of directly matching rows does to the partition held. */
  lemma UnionStep(e: Relation, n: nat, c: seq<int>, a: int, b: int)
    requires Symmetric(e, n) && Sound(e, n, c) && LeastNamed(c)
    requires 0 <= a < n && 0 <= b < n && e(a, b)
    ensures Sound(e, n, Joined(c, a, b))
    ensures Joined(c, a, b)[a] == Joined(c, a, b)[b]
    ensures Coarser(c, Joined(c, a, b))
  {
    var d := Joined(c, a, b);
    EdgeIsLink(e, n, a, b);
    LinkSymmetric(e, n, a, b);
    forall i | 0 <= i < n ensures Linked(e, n, i, d[i]) {
      if c[i] == c[a] {
        LinkSymmetric(e, n, a, c[a]);
        LinkTransitive(e, n, i, c[a], a);
        LinkTransitive(e, n, i, a, b);
        LinkTransitive(e, n, i, b, c[b]);
      } else if c[i] == c[b] {
        LinkSymmetric(e, n, b, c[b]);
        LinkTransitive(e, n, i, c[b], b);
        LinkTransitive(e, n, i, b, a);
        LinkTransitive(e, n, i, a, c[a]);
      }
    }
  }

  ghost predicate Coarser(c: seq<int>, d: seq<int>) {
    |c| == |d| && forall i, j :: 0 <= i < |c| && 0 <= j < |c| && c[i] == c[j] ==> d[i] == d[j]
  }

  /** Rows that agree on attribute g are together; "" counts only if `blank` says so. */
  ghost predicate AttrJoined(g: Row -> string, blank: bool, rows: seq<Row>, c: seq<int>) {
    && |c| == |rows|
    && (forall i, j :: 0 <= i < |rows| && 0 <= j < |rows| && g(rows[i]) == g(rows[j]) && (blank || g(rows[i]) != "")
          ==> c[i] == c[j])
  }

  /** `first` maps the attribute values of the first n rows to their first holders,
      and every such row is together with its holder. */
  ghost predicate Held(g: Row -> string, blank: bool, rows: seq<Row>, n: nat, c: seq<int>, first: map<string, int>) {
    && n <= |rows| == |c|
    && (forall u :: u in first ==> 0 <= first[u] < n && g(rows[first[u]]) == u && (blank || u != ""))
    && (forall j :: 0 <= j < n && (blank || g(rows[j]) != "") ==>
          g(rows[j]) in first && c[j] == c[first[g(rows[j])]])
  }

  lemma HeldCoarser(g: Row -> string, blank: bool, rows: seq<Row>, n: nat, c: seq<int>, d: seq<int>,
                    first: map<string, int>)
    requires Held(g, blank, rows, n, c, first) && Coarser(c, d)
    ensures Held(g, blank, rows, n, d, first)
  {
  }

  lemma HeldAll(g: Row -> string, blank: bool, rows: seq<Row>, c: seq<int>, first: map<string, int>)
    requires Held(g, blank, rows, |rows|, c, first)
    ensures AttrJoined(g, blank, rows, c)
  {
  }

  /** A row without a holder becomes the holder of its own value. */
  lemma HeldNew(g: Row -> string, blank: bool, rows: seq<Row>, i: nat, c: seq<int>, first: map<string, int>)
    requires i < |rows| && Held(g, blank, rows, i, c, first)
    requires g(rows[i]) !in first && (blank || g(rows[i]) != "")
    ensures Held(g, blank, rows, i + 1, c, first[g(rows[i]) := i])
  {
  }

  /** A row together with the holder of its value needs no entry. */
  lemma HeldOld(g: Row -> string, blank: bool, rows: seq<Row>, i: nat, c: seq<int>, first: map<string, int>)
    requires i < |rows| && Held(g, blank, rows, i, c, first)
    requires g(rows[i]) in first && c[i] == c[first[g(rows[i])]]
    ensures Held(g, blank, rows, i + 1, c, first)
  {
  }

  /** Joins row i to the first holder of its attribute, or makes it that holder. */
  method LinkToFirst(ghost f: Lens, ghost rows: seq<Row>, uf: Uf, ghost g: Row -> string, ghost blank: bool,
                     i: nat, u: string, first: map<string, int>) returns (now: map<string, int>)
    requires uf.Valid() && uf.p.Length == |rows| && i < |rows| && u == g(rows[i]) && (blank || u != "")
    requires Sound(Edges(f, rows), |rows|, uf.Classes())
    requires Held(g, blank, rows, i, uf.Classes(), first)
    requires forall j :: 0 <= j < i && g(rows[j]) == u ==> SameJob(f, rows[i], rows[j])
    modifies uf.p
    ensures uf.Valid() && Sound(Edges(f, rows), |rows|, uf.Classes())
    ensures Coarser(old(uf.Classes()), uf.Classes())
    ensures Held(g, blank, rows, i + 1, uf.Classes(), now)
  {
    if u in first {
      var j := first[u];
      assert g(rows[j]) == u;
      JoinSame(f, rows, uf, i, j);
      HeldCoarser(g, blank, rows, i, old(uf.Classes()), uf.Classes(), first);
      HeldOld(g, blank, rows, i, uf.Classes(), first);
      now := first;
    } else {
      HeldNew(g, blank, rows, i, uf.Classes(), first);
      now := first[u := i];
    }
  }

  /** Joins two rows that match directly. */
  method JoinSame(ghost f: Lens, ghost rows: seq<Row>, uf: Uf, i: int, j: int)
    requires uf.Valid() && uf.p.Length == |rows| && 0 <= i < |rows| && 0 <= j < |rows|
    requires Sound(Edges(f, rows), |rows|, uf.Classes()) && SameJob(f, rows[i], rows[j])
    modifies uf.p
    ensures uf.Valid() && Sound(Edges(f, rows), |rows|, uf.Classes())
    ensures Coarser(old(uf.Classes()), uf.Classes()) && uf.Classes()[i] == uf.Classes()[j]
  {
    EdgesSymmetric(f, rows);
    UnionStep(Edges(f, rows), |rows|, uf.Classes(), i, j);
    uf.Union(i, j);
  }

  /** `buckets` lists, per bucket, exactly the first n indices with that bucket. */
  ghost predicate Bucketed(f: Lens, rows: seq<Row>, n: nat, buckets: map<string, seq<int>>) {
    && n <= |rows|
    && (forall b, x :: b in buckets && 0 <= x < |buckets[b]| ==>
          0 <= buckets[b][x] < n && f.Bucket(rows[buckets[b][x]]) == b)
    && (forall i :: 0 <= i < n ==> f.Bucket(rows[i]) in buckets && i in buckets[f.Bucket(rows[i])])
  }

  ghost predicate TokensOf(f: Lens, rows: seq<Row>, n: nat, toks: seq<set<string>>) {
    |toks| == n <= |rows| && forall j :: 0 <= j < n ==> toks[j] == f.Tokens(rows[j])
  }

  /** The first n rows are together with the first holders of their URL and key. */
  ghost predicate HeldBoth(f: Lens, rows: seq<Row>, n: nat, c: seq<int>,
                           byUrl: map<string, int>, byKey: map<string, int>) {
    Held(f.UrlOf(), false, rows, n, c, byUrl) && Held(f.KeyOf(), true, rows, n, c, byKey)
  }

  ghost predicate KeysJoined(f: Lens, rows: seq<Row>, c: seq<int>) {
    AttrJoined(f.UrlOf(), false, rows, c) && AttrJoined(f.KeyOf(), true, rows, c)
  }

  lemma HeldBothAll(f: Lens, rows: seq<Row>, c: seq<int>, byUrl: map<string, int>, byKey: map<string, int>)
    requires HeldBoth(f, rows, |rows|, c, byUrl, byKey)
    ensures KeysJoined(f, rows, c)
  {
    HeldAll(f.UrlOf(), false, rows, c, byUrl);
    HeldAll(f.KeyOf(), true, rows, c, byKey);
  }

  lemma NoneFiled(f: Lens, rows: seq<Row>, c: seq<int>)
    requires |c| == |rows|
    ensures HeldBoth(f, rows, 0, c, map[], map[]) && Bucketed(f, rows, 0, map[]) && TokensOf(f, rows, 0, [])
  {
  }

  /** First pass: link each row to the first holder of its URL and of its key. */
  method LinkUrlsAndKeys(f: Lens, rows: seq<Row>, uf: Uf)
    returns (buckets: map<string, seq<int>>, toks: seq<set<string>>)
    requires uf.Valid() && uf.p.Length == |rows|
    requires Sound(Edges(f, rows), |rows|, uf.Classes())
    modifies uf.p
    ensures uf.Valid() && Sound(Edges(f, rows), |rows|, uf.Classes())
    ensures KeysJoined(f, rows, uf.Classes())
    ensures Bucketed(f, rows, |rows|, buckets) && TokensOf(f, rows, |rows|, toks)
  {
    var byUrl: map<string, int>, byKey: map<string, int> := map[], map[];
    buckets, toks := map[], [];
    NoneFiled(f, rows, uf.Classes());
    for i := 0 to |rows|
      invariant uf.Valid() && Sound(Edges(f, rows), |rows|, uf.Classes())
      invariant HeldBoth(f, rows, i, uf.Classes(), byUrl, byKey)
      invariant Bucketed(f, rows, i, buckets) && TokensOf(f, rows, i, toks)
    {
      byUrl, byKey := LinkRow(f, rows, uf, i, byUrl, byKey);
      toks := AddTokens(f, rows, i, toks);
      buckets := FileRow(f, rows, i, buckets);
    }
    HeldBothAll(f, rows, uf.Classes(), byUrl, byKey);
  }

  method AddTokens(f: Lens, rows: seq<Row>, i: nat, toks: seq<set<string>>) returns (now: seq<set<string>>)
    requires i < |rows| && TokensOf(f, rows, i, toks)
    ensures TokensOf(f, rows, i + 1, now)
  {
    now := toks + [f.Tokens(rows[i])];
  }

  /** The URL part of the first pass for one row; an empty URL links nothing. */
  method LinkUrl(f: Lens, rows: seq<Row>, uf: Uf, i: nat, byUrl: map<string, int>) returns (now: map<string, int>)
    requires uf.Valid() && uf.p.Length == |rows| && i < |rows|
    requires Sound(Edges(f, rows), |rows|, uf.Classes())
    requires Held(f.UrlOf(), false, rows, i, uf.Classes(), byUrl)
    modifies uf.p
    ensures uf.Valid() && Sound(Edges(f, rows), |rows|, uf.Classes())
    ensures Coarser(old(uf.Classes()), uf.Classes())
    ensures Held(f.UrlOf(), false, rows, i + 1, uf.Classes(), now)
  {
    now := byUrl;
    var u := f.Url(rows[i]);
    if u != "" {
      now := LinkToFirst(f, rows, uf, f.UrlOf(), false, i, u, byUrl);
    }
  }

  /** The URL and key part of the first pass for one row. */
  method LinkRow(f: Lens, rows: seq<Row>, uf: Uf, i: nat,
                 byUrl: map<string, int>, byKey: map<string, int>)
    returns (byUrl': map<string, int>, byKey': map<string, int>)
    requires uf.Valid() && uf.p.Length == |rows| && i < |rows|
    requires Sound(Edges(f, rows), |rows|, uf.Classes())
    requires HeldBoth(f, rows, i, uf.Classes(), byUrl, byKey)
    modifies uf.p
    ensures uf.Valid() && Sound(Edges(f, rows), |rows|, uf.Classes())
    ensures HeldBoth(f, rows, i + 1, uf.Classes(), byUrl', byKey')
  {
    byUrl' := LinkUrl(f, rows, uf, i, byUrl);
    ghost var c := uf.Classes();
    HeldCoarser(f.KeyOf(), true, rows, i, old(uf.Classes()), c, byKey);
    var k := f.Key(rows[i]);
    byKey' := LinkToFirst(f, rows, uf, f.KeyOf(), true, i, k, byKey);
    HeldCoarser(f.UrlOf(), false, rows, i + 1, c, uf.Classes(), byUrl');
  }

  method FileRow(f: Lens, rows: seq<Row>, i: nat, buckets: map<string, seq<int>>) returns (now: map<string, seq<int>>)
    requires i < |rows| && Bucketed(f, rows, i, buckets)
    ensures Bucketed(f, rows, i + 1, now)
  {
    var b := f.Bucket(rows[i]);
    ghost var had := if b in buckets then buckets[b] else [];
    now := buckets[b := (if b in buckets then buckets[b] else []) + [i]];
    forall j | 0 <= j < i + 1 ensures f.Bucket(rows[j]) in now && j in now[f.Bucket(rows[j])] {
      if j == i {
        assert now[b][|had|] == i;
      } else if f.Bucket(rows[j]) == b {
        var x :| 0 <= x < |had| && had[x] == j;
        assert now[b][x] == j;
      }
    }
  }

  /** Every similar pair of positions x < y of idx that comes before (a, b) in the
      nested loop's order is together. */
  ghost predicate PairsDone(toks: seq<set<string>>, c: seq<int>, idx: seq<int>, a: nat, b: nat) {
    && |toks| == |c|
    && (forall x :: 0 <= x < |idx| ==> 0 <= idx[x] < |c|)
    && forall x, y :: 0 <= x < y < |idx| && (x < a || (x == a && y < b)) && Similar(toks[idx[x]], toks[idx[y]])
                      ==> c[idx[x]] == c[idx[y]]
  }

  ghost predicate BucketDone(toks: seq<set<string>>, c: seq<int>, idx: seq<int>) {
    PairsDone(toks, c, idx, |idx|, 0)
  }

  lemma PairsCoarser(toks: seq<set<string>>, c: seq<int>, d: seq<int>, idx: seq<int>, a: nat, b: nat)
    requires PairsDone(toks, c, idx, a, b) && Coarser(c, d)
    ensures PairsDone(toks, d, idx, a, b)
  {
  }

  lemma CoarserTransitive(c: seq<int>, d: seq<int>, e: seq<int>)
    requires Coarser(c, d) && Coarser(d, e)
    ensures Coarser(c, e)
  {
  }

  /** The pair (a, b) is settled when its rows are together or not similar. */
  lemma PairsStep(toks: seq<set<string>>, c: seq<int>, idx: seq<int>, a: nat, b: nat)
    requires PairsDone(toks, c, idx, a, b) && a < b < |idx|
    requires Similar(toks[idx[a]], toks[idx[b]]) ==> c[idx[a]] == c[idx[b]]
    ensures PairsDone(toks, c, idx, a, b + 1)
  {
  }

  /** The rows listed in idx exist and share one bucket. */
  ghost predicate OneBucket(f: Lens, rows: seq<Row>, idx: seq<int>) {
    && (forall x :: 0 <= x < |idx| ==> 0 <= idx[x] < |rows|)
    && (forall x, y :: 0 <= x < y < |idx| ==> f.Bucket(rows[idx[x]]) == f.Bucket(rows[idx[y]]))
  }

  /** Joins the similar rows of one bucket, skipping pairs already together. */
  method LinkBucket(f: Lens, rows: seq<Row>, uf: Uf, idx: seq<int>, toks: seq<set<string>>)
    requires uf.Valid() && uf.p.Length == |rows| && TokensOf(f, rows, |rows|, toks)
    requires Sound(Edges(f, rows), |rows|, uf.Classes())
    requires OneBucket(f, rows, idx)
    modifies uf.p
    ensures uf.Valid() && Sound(Edges(f, rows), |rows|, uf.Classes())
    ensures Coarser(old(uf.Classes()), uf.Classes())
    ensures BucketDone(toks, uf.Classes(), idx)
  {
    for a := 0 to |idx|
      invariant uf.Valid() && Sound(Edges(f, rows), |rows|, uf.Classes())
      invariant Coarser(old(uf.Classes()), uf.Classes()) && PairsDone(toks, uf.Classes(), idx, a, 0)
    {
      LinkFrom(f, rows, uf, idx, a, toks);
    }
  }

  /** The inner loop: row idx[a] against every later row of its bucket. */
  method LinkFrom(f: Lens, rows: seq<Row>, uf: Uf, idx: seq<int>, a: nat, toks: seq<set<string>>)
    requires uf.Valid() && uf.p.Length == |rows| && TokensOf(f, rows, |rows|, toks) && a < |idx|
    requires Sound(Edges(f, rows), |rows|, uf.Classes()) && PairsDone(toks, uf.Classes(), idx, a, 0)
    requires OneBucket(f, rows, idx)
    modifies uf.p
    ensures uf.Valid() && Sound(Edges(f, rows), |rows|, uf.Classes())
    ensures Coarser(old(uf.Classes()), uf.Classes()) && PairsDone(toks, uf.Classes(), idx, a + 1, 0)
  {
    ghost var start := uf.Classes();
    for b := a + 1 to |idx|
      invariant uf.Valid() && Sound(Edges(f, rows), |rows|, uf.Classes())
      invariant Coarser(start, uf.Classes()) && PairsDone(toks, uf.Classes(), idx, a, b)
    {
      ghost var c := uf.Classes();
      LinkPair(f, rows, uf, idx[a], idx[b], toks);
      CoarserTransitive(start, c, uf.Classes());
      PairsCoarser(toks, c, uf.Classes(), idx, a, b);
      PairsStep(toks, uf.Classes(), idx, a, b);
    }
  }

  /** The body of the pair loop. */
  method LinkPair(f: Lens, rows: seq<Row>, uf: Uf, i: int, j: int, toks: seq<set<string>>)
    requires uf.Valid() && uf.p.Length == |rows| == |toks| && 0 <= i < |rows| && 0 <= j < |rows|
    requires Sound(Edges(f, rows), |rows|, uf.Classes())
    requires toks[i] == f.Tokens(rows[i]) && toks[j] == f.Tokens(rows[j])
    requires f.Bucket(rows[i]) == f.Bucket(rows[j])
    modifies uf.p
    ensures uf.Valid() && Sound(Edges(f, rows), |rows|, uf.Classes())
    ensures Coarser(old(uf.Classes()), uf.Classes())
    ensures Similar(toks[i], toks[j]) ==> uf.Classes()[i] == uf.Classes()[j]
  {
    ghost var c := uf.Classes();
    var ri := uf.Find(i);
    var rj := uf.Find(j);
    if ri == rj {
      return;
    }
    var alike := ComputeSimilar(toks[i], toks[j]);
    if alike {
      JoinSame(f, rows, uf, i, j);
    }
  }

  /** Second pass.  The buckets are visited in an arbitrary order, as Go's map
      iteration does. */
  method LinkSimilar(f: Lens, rows: seq<Row>, uf: Uf, buckets: map<string, seq<int>>, toks: seq<set<string>>)
    requires uf.Valid() && uf.p.Length == |rows|
    requires Sound(Edges(f, rows), |rows|, uf.Classes())
    requires Bucketed(f, rows, |rows|, buckets) && TokensOf(f, rows, |rows|, toks)
    modifies uf.p
    ensures uf.Valid() && Sound(Edges(f, rows), |rows|, uf.Classes())
    ensures Coarser(old(uf.Classes()), uf.Classes())
    ensures forall b :: b in buckets ==> BucketDone(toks, uf.Classes(), buckets[b])
  {
    ghost var start := uf.Classes();
    var todo := buckets.Keys;
    while todo != {}
      invariant todo <= buckets.Keys
      invariant uf.Valid() && Sound(Edges(f, rows), |rows|, uf.Classes())
      invariant Coarser(start, uf.Classes())
      invariant forall b :: b in buckets.Keys - todo ==> BucketDone(toks, uf.Classes(), buckets[b])
      decreases todo
    {
      var b :| b in todo;
      ghost var before := uf.Classes();
      LinkBucket(f, rows, uf, buckets[b], toks);
      forall x | x in buckets.Keys - todo && x != b ensures BucketDone(toks, uf.Classes(), buckets[x]) {
        PairsCoarser(toks, before, uf.Classes(), buckets[x], |buckets[x]|, 0);
      }
      todo := todo - {b};
    }
  }

  lemma LinkedEverything(f: Lens, rows: seq<Row>, c: seq<int>, buckets: map<string, seq<int>>, toks: seq<set<string>>)
    requires KeysJoined(f, rows, c)
    requires Bucketed(f, rows, |rows|, buckets) && TokensOf(f, rows, |rows|, toks)
    requires forall b :: b in buckets ==> BucketDone(toks, c, buckets[b])
    ensures Respects(Edges(f, rows), |rows|, c)
  {
    forall i, j | 0 <= i < |rows| && 0 <= j < |rows| && Edges(f, rows)(i, j) ensures c[i] == c[j] {
      var b := f.Bucket(rows[i]);
      if i != j && b == f.Bucket(rows[j]) && Similar(toks[i], toks[j]) {
        var idx := buckets[b];
        var x :| 0 <= x < |idx| && idx[x] == i;
        var y :| 0 <= y < |idx| && idx[y] == j;
        EdgesSymmetric(f, rows);
        assert BucketDone(toks, c, idx);
        assert toks[i] * toks[j] == toks[j] * toks[i] && toks[i] + toks[j] == toks[j] + toks[i];
        assert Similar(toks[idx[y]], toks[idx[x]]);
      }
    }
  }

  /** `rep` maps each class name met so far to its position among the output rows. */
  ghost predicate Placed(c: seq<int>, i: nat, rep: map<int, nat>)
    requires i <= |c|
  {
    && (forall h :: h in rep ==> rep[h] < |Heads(c, i)| && Heads(c, i)[rep[h]] == h)
    && (forall k :: 0 <= k < |Heads(c, i)| ==> Heads(c, i)[k] in rep)
  }

  lemma PlacedStep(c: seq<int>, i: nat, rep: map<int, nat>)
    requires LeastNamed(c) && i < |c| && Placed(c, i, rep)
    ensures c[i] in rep <==> c[i] < i
    ensures c[i] in rep ==> Placed(c, i + 1, rep)
    ensures c[i] !in rep ==> Placed(c, i + 1, rep[c[i] := |Heads(c, i)|])
  {
    assert c[c[i]] == c[i];
    if c[i] < i {
      HeadsComplete(c, i, c[i]);
    }
  }

  /** The output rows so far are the groups of the first i rows. */
  ghost predicate GroupsOut(rows: seq<Row>, c: seq<int>, i: nat, out: seq<Row>, rep: map<int, nat>) {
    |rows| == |c| && i <= |c| && Placed(c, i, rep) && out == Groups(rows, c, i)
  }

  lemma NoGroups(rows: seq<Row>, c: seq<int>, out: seq<Row>)
    requires |rows| == |c| && |out| == 0
    ensures GroupsOut(rows, c, 0, out, map[])
  {
  }

  /** Third pass: one output row per class, later members merged into it in place. */
  method FoldGroups(rows: seq<Row>, uf: Uf, out: array<Row>) returns (count: nat)
    requires uf.Valid() && uf.p.Length == |rows| == out.Length
    modifies uf.p, out
    ensures count <= out.Length
    ensures uf.Valid() && uf.Classes() == old(uf.Classes())
    ensures out[..count] == Groups(rows, uf.Classes(), |rows|)
  {
    ghost var c := uf.Classes();
    count := 0;
    var rep: map<int, nat> := map[];
    NoGroups(rows, c, out[..count]);
    for i := 0 to |rows|
      invariant count <= i
      invariant uf.Valid() && uf.Classes() == c
      invariant GroupsOut(rows, c, i, out[..count], rep)
    {
      count, rep := PlaceNext(rows, c, uf, i, out, count, rep);
    }
  }

  /** The loop body: looks up row i's class and places the row. */
  method PlaceNext(rows: seq<Row>, ghost c: seq<int>, uf: Uf, i: nat, out: array<Row>, count: nat, rep: map<int, nat>)
    returns (count': nat, rep': map<int, nat>)
    requires uf.Valid() && c == uf.Classes() && i < |rows| == |c| == out.Length
    requires count <= i && GroupsOut(rows, c, i, out[..count], rep)
    modifies uf.p, out
    ensures uf.Valid() && uf.Classes() == c
    ensures count' <= i + 1 && GroupsOut(rows, c, i + 1, out[..count'], rep')
  {
    ghost var was := out[..count];
    var root := uf.Find(i);
    assert out[..count] == was;
    count', rep' := PlaceRow(rows, c, i, root, out, count, rep);
  }

  lemma GroupAgain(rows: seq<Row>, c: seq<int>, i: nat, out: seq<Row>, p: nat)
    requires LeastNamed(c) && |rows| == |c| && i < |c| && c[i] < i && out == Groups(rows, c, i)
    requires p < |Heads(c, i)| && Heads(c, i)[p] == c[i]
    ensures p < |out| && Groups(rows, c, i + 1) == out[p := Merged(out[p], rows[i])]
  {
    GroupsStep(rows, c, i + 1, p);
  }

  lemma PlacedAgain(rows: seq<Row>, c: seq<int>, i: nat, out: seq<Row>, rep: map<int, nat>)
    requires LeastNamed(c) && i < |c| && GroupsOut(rows, c, i, out, rep) && c[i] in rep
    ensures var p := rep[c[i]]; p < |out| && GroupsOut(rows, c, i + 1, out[p := Merged(out[p], rows[i])], rep)
  {
    PlacedStep(c, i, rep);
    GroupAgain(rows, c, i, out, rep[c[i]]);
  }

  lemma PlacedNew(rows: seq<Row>, c: seq<int>, i: nat, out: seq<Row>, rep: map<int, nat>)
    requires LeastNamed(c) && i < |c| && GroupsOut(rows, c, i, out, rep) && c[i] !in rep
    ensures GroupsOut(rows, c, i + 1, out + [rows[i]], rep[c[i] := |out|])
  {
    PlacedStep(c, i, rep);
    GroupsStep(rows, c, i + 1, 0);
  }

  /** Merges row i into its group's output row, or appends it as a new one. */
  method PlaceRow(rows: seq<Row>, ghost c: seq<int>, i: nat, root: int, out: array<Row>, count: nat, rep: map<int, nat>)
    returns (count': nat, rep': map<int, nat>)
    requires LeastNamed(c) && i < |rows| == |c| == out.Length && root == c[i]
    requires count <= i && GroupsOut(rows, c, i, out[..count], rep)
    modifies out
    ensures count' <= i + 1 && GroupsOut(rows, c, i + 1, out[..count'], rep')
  {
    ghost var was := out[..count];
    if root in rep {
      var p := rep[root];
      PlacedAgain(rows, c, i, was, rep);
      Merge(out, p, rows[i]);
      assert out[..count] == was[p := Merged(was[p], rows[i])];
      return count, rep;
    }
    PlacedNew(rows, c, i, was, rep);
    out[count] := rows[i];
    assert out[..count + 1] == was + [rows[i]];
    return count + 1, rep[root := count];
  }

  method Dedupe(f: Lens, rows: seq<Row>) returns (out: seq<Row>)
    ensures out == Collapse(f, rows)
  {
    if |rows| == 0 {
      return rows;
    }
    var uf := new Uf(|rows|);
    forall i | 0 <= i < |rows| ensures Linked(Edges(f, rows), |rows|, i, uf.Classes()[i]) {
      LinkReflexive(Edges(f, rows), |rows|, i);
    }
    var buckets, toks := LinkUrlsAndKeys(f, rows, uf);
    LinkSimilar(f, rows, uf, buckets, toks);
    LinkedEverything(f, rows, uf.Classes(), buckets, toks);
    EdgesSymmetric(f, rows);
    LabellingIsUnique(Edges(f, rows), |rows|, uf.Classes());
    var groups := new Row[|rows|](_ => rows[0]);
    var count := FoldGroups(rows, uf, groups);
    return groups[..count];
  }
}
