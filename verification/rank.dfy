/** The LLM ranking worklist of srv/jobs/rank.go.  Money is in units of 1e-8 USD. */
module Ranking {
  import opened Basics

  /** The two fields of a posting the worklist looks at. */
  datatype Row = Row(id: int, retried: bool)

  datatype Reply = Reply(id: int, score: int)

  /** One completion as the worklist meets it: a transport or gateway error, or the
      objects decoded from the reply; the tokens billed either way; and whether the
      context had been cancelled by the time it returned. */
  datatype Call = Call(failed: bool, entries: seq<Reply>, inTokens: nat, outTokens: nat, cancelled: bool)

  datatype Outcome = Error | Results(entries: seq<Reply>)

  const MAX_BATCH := 12

  function CostUnits(inTokens: nat, outTokens: nat): nat {
    35 * inTokens + 150 * outTokens
  }

  function CallCost(c: Call): nat {
    CostUnits(c.inTokens, c.outTokens)
  }

  function Clamp(score: int): int {
    if score < 0 then 0 else if score > 100 then 100 else score
  }

  // ----- one batch -------------------------------------------------------------------

  predicate HasId(rows: seq<Row>, id: int) {
    exists i :: 0 <= i < |rows| && rows[i].id == id
  }

  /** The entries whose id was sent, in reply order. */
  function OnlySent(rows: seq<Row>, entries: seq<Reply>): (r: seq<Reply>)
    ensures forall e :: e in r <==> e in entries && HasId(rows, e.id)
  {
    if entries == [] then [] else
      var front, last := entries[..|entries| - 1], entries[|entries| - 1];
      assert entries == front + [last];
      if HasId(rows, last.id) then OnlySent(rows, front) + [last] else OnlySent(rows, front)
  }

  function BatchOutcome(rows: seq<Row>, c: Call): Outcome {
    if c.failed || c.entries == [] then Error else Results(OnlySent(rows, c.entries))
  }

  method RankBatch(rows: seq<Row>, c: Call) returns (o: Outcome)
    ensures o == BatchOutcome(rows, c)
  {
    if c.failed || c.entries == [] {
      return Error;
    }
    var valid: set<int> := {};
    for i := 0 to |rows|
      invariant forall id :: id in valid <==> exists k :: 0 <= k < i && rows[k].id == id
    {
      valid := valid + {rows[i].id};
    }
    var out: seq<Reply> := [];
    for i := 0 to |c.entries|
      invariant out == OnlySent(rows, c.entries[..i])
    {
      assert c.entries[..i + 1][..i] == c.entries[..i];
      if c.entries[i].id in valid {
        out := out + [c.entries[i]];
      }
    }
    assert c.entries[..|c.entries|] == c.entries;
    return Results(out);
  }

  // ----- the worklist as a state machine ------------------------------------------------

  function Ids(rows: seq<Row>): (ids: seq<int>)
    ensures |ids| == |rows| && forall i :: 0 <= i < |rows| ==> ids[i] == rows[i].id
  {
    seq(|rows|, i requires 0 <= i < |rows| => rows[i].id)
  }

  /** `scores` is the posting table's score column (absent = NULL); the last three
      fields record what became of rows that left the worklist. */
  datatype State = State(
    pending: seq<Row>, batch: nat, inTokens: nat, outTokens: nat, cost: nat, ranked: nat,
    scores: map<int, int>, scored: seq<int>, failed: seq<int>, gaveUp: seq<int>)
  {
    ghost predicate Valid() { 1 <= batch <= MAX_BATCH }

    /** Every row the state accounts for. */
    ghost function Everything(): multiset<int> {
      multiset(Ids(pending)) + multiset(scored) + multiset(failed) + multiset(gaveUp)
    }
  }

  predicate Answered(res: seq<Reply>, id: int) {
    exists i :: 0 <= i < |res| && res[i].id == id
  }

  /** The score column after the reply entries are written, in order, `AND score IS NULL`. */
  function Record(scores: map<int, int>, res: seq<Reply>): map<int, int> {
    if res == [] then scores else
      var t, r := Record(scores, res[..|res| - 1]), res[|res| - 1];
      if r.id in t then t else t[r.id := Clamp(r.score)]
  }

  /** The rows of a batch that the reply dropped for the first time, now marked. */
  function Missed(cur: seq<Row>, res: seq<Reply>): seq<Row> {
    if cur == [] then [] else
      var m, r := Missed(cur[..|cur| - 1], res), cur[|cur| - 1];
      if !Answered(res, r.id) && !r.retried then m + [r.(retried := true)] else m
  }

  /** The ids of a batch that the reply answers. */
  function AnsweredIds(cur: seq<Row>, res: seq<Reply>): seq<int> {
    if cur == [] then [] else
      var a, r := AnsweredIds(cur[..|cur| - 1], res), cur[|cur| - 1];
      if Answered(res, r.id) then a + [r.id] else a
  }

  /** The ids of a batch that the reply dropped for the second time. */
  function DroppedAgain(cur: seq<Row>, res: seq<Reply>): seq<int> {
    if cur == [] then [] else
      var d, r := DroppedAgain(cur[..|cur| - 1], res), cur[|cur| - 1];
      if !Answered(res, r.id) && r.retried then d + [r.id] else d
  }

  function Step(s: State, c: Call): (t: State)
    requires s.Valid() && s.pending != []
    ensures t.Valid()
  {
    var n := Min(s.batch, |s.pending|);
    var cur, rest := s.pending[..n], s.pending[n..];
    var paid := s.(inTokens := s.inTokens + c.inTokens, outTokens := s.outTokens + c.outTokens,
                   cost := s.cost + CallCost(c));
    match BatchOutcome(cur, c)
    case Error =>
      if n > 1 && !c.cancelled then paid.(batch := n / 2, pending := cur + rest)
      else paid.(pending := rest, failed := s.failed + Ids(cur))
    case Results(res) =>
      paid.(pending := Missed(cur, res) + rest,
            batch := Min(MAX_BATCH, s.batch * 2),
            ranked := s.ranked + |res|,
            scores := Record(s.scores, res),
            scored := s.scored + AnsweredIds(cur, res),
            gaveUp := s.gaveUp + DroppedAgain(cur, res))
  }

  // ----- termination ---------------------------------------------------------------------

  /** Two for a row that may still be requeued, one for a row that may not. */
  function Weight(rows: seq<Row>): nat {
    if rows == [] then 0 else
      Weight(rows[..|rows| - 1]) + if rows[|rows| - 1].retried then 1 else 2
  }

  lemma {:induction false} WeightConcat(a: seq<Row>, b: seq<Row>)
    ensures Weight(a + b) == Weight(a) + Weight(b)
  {
    if b == [] {
      assert a + b == a;
    } else {
      assert (a + b)[..|a + b| - 1] == a + b[..|b| - 1];
      WeightConcat(a, b[..|b| - 1]);
    }
  }

  lemma {:induction false} WeightBounds(rows: seq<Row>)
    ensures |rows| <= Weight(rows) <= 2 * |rows|
  {
    if rows != [] {
      WeightBounds(rows[..|rows| - 1]);
    }
  }

  lemma {:induction false} MissedIsLighter(cur: seq<Row>, res: seq<Reply>)
    ensures Weight(Missed(cur, res)) + |cur| <= Weight(cur)
  {
    if cur != [] {
      MissedIsLighter(cur[..|cur| - 1], res);
      var m := Missed(cur[..|cur| - 1], res);
      var marked := cur[|cur| - 1].(retried := true);
      assert (m + [marked])[..|m|] == m;
    }
  }

  /** A batch's rows leave, at most some of them come back, marked. */
  lemma BatchIsLighter(cur: seq<Row>, rest: seq<Row>, res: seq<Reply>)
    requires cur != []
    ensures Weight(rest) < Weight(cur + rest) && Weight(Missed(cur, res) + rest) < Weight(cur + rest)
  {
    WeightConcat(cur, rest);
    WeightBounds(cur);
    MissedIsLighter(cur, res);
    WeightConcat(Missed(cur, res), rest);
  }

  /** A call either lightens the worklist, or leaves it as it was and shrinks the batch
      to at most half. */
  lemma StepProgress(s: State, c: Call)
    requires s.Valid() && s.pending != []
    ensures var t := Step(s, c);
            || (Weight(t.pending) < Weight(s.pending) && t.batch <= 2 * s.batch)
            || (t.pending == s.pending && 1 <= t.batch <= s.batch / 2)
  {
    var n := Min(s.batch, |s.pending|);
    var cur, rest := s.pending[..n], s.pending[n..];
    assert cur + rest == s.pending;
    match BatchOutcome(cur, c)
    case Error => BatchIsLighter(cur, rest, []);
    case Results(res) => BatchIsLighter(cur, rest, res);
  }

  /** The whole run: final state and number of calls, against the k-th and later
      answers of `model`.  That this recursion is accepted is the termination result. */
  function Run(s: State, model: nat -> Call, k: nat, charged: nat, budget: nat): (State, nat)
    requires s.Valid()
    decreases Weight(s.pending), s.batch
  {
    if s.pending == [] || charged + s.cost >= budget then (s, k)
    else
      StepProgress(s, model(k));
      Run(Step(s, model(k)), model, k + 1, charged, budget)
  }

  /** Number of halvings a batch size (at most 12) has left before it is 1. */
  function Halvings(b: nat): nat {
    if b < 2 then 0 else if b < 4 then 1 else if b < 8 then 2 else 3
  }

  /** Weight left, counted twice, plus halvings left. */
  function Potential(s: State): nat {
    2 * Weight(s.pending) + Halvings(s.batch)
  }

  /** Every call lowers the potential: a halving pays for itself, and each regrowth is
      paid for by the weight a successful call removes. */
  lemma StepPays(s: State, c: Call)
    requires s.Valid() && s.pending != []
    ensures Potential(Step(s, c)) < Potential(s)
  {
    StepProgress(s, c);
  }

  lemma {:induction false} CallBound(s: State, model: nat -> Call, k: nat, charged: nat, budget: nat)
    requires s.Valid()
    ensures Run(s, model, k, charged, budget).1 <= k + Potential(s)
    decreases Weight(s.pending), s.batch
  {
    if s.pending != [] && charged + s.cost < budget {
      StepProgress(s, model(k));
      StepPays(s, model(k));
      CallBound(Step(s, model(k)), model, k + 1, charged, budget);
    }
  }

  // ----- conservation -----------------------------------------------------------------------

  /** Every row of a batch is requeued, answered or given up on. */
  ghost predicate Splits(cur: seq<int>, missed: seq<int>, answered: seq<int>, again: seq<int>) {
    multiset(cur) == multiset(missed) + multiset(answered) + multiset(again)
  }

  lemma SplitsMore(cur: seq<int>, missed: seq<int>, answered: seq<int>, again: seq<int>, id: int)
    requires Splits(cur, missed, answered, again)
    ensures Splits(cur + [id], missed + [id], answered, again)
    ensures Splits(cur + [id], missed, answered + [id], again)
    ensures Splits(cur + [id], missed, answered, again + [id])
  {
  }

  lemma IdsMore(rows: seq<Row>, r: Row)
    ensures Ids(rows + [r]) == Ids(rows) + [r.id]
  {
  }

  lemma {:induction false} BatchSplits(cur: seq<Row>, res: seq<Reply>)
    ensures Splits(Ids(cur), Ids(Missed(cur, res)), AnsweredIds(cur, res), DroppedAgain(cur, res))
  {
    if cur != [] {
      var front, r := cur[..|cur| - 1], cur[|cur| - 1];
      var m := Missed(front, res);
      BatchSplits(front, res);
      assert cur == front + [r];
      IdsMore(front, r);
      IdsMore(m, r.(retried := true));
      SplitsMore(Ids(front), Ids(m), AnsweredIds(front, res), DroppedAgain(front, res), r.id);
    }
  }

  lemma MoveBatch(cur: seq<int>, rest: seq<int>, missed: seq<int>, w: seq<int>, g: seq<int>,
                  scored: seq<int>, failed: seq<int>, gaveUp: seq<int>)
    requires multiset(cur) == multiset(missed) + multiset(w) + multiset(g)
    ensures multiset(missed + rest) + multiset(scored + w) + multiset(failed) + multiset(gaveUp + g)
            == multiset(cur + rest) + multiset(scored) + multiset(failed) + multiset(gaveUp)
  {
  }

  lemma IdsConcat(a: seq<Row>, b: seq<Row>)
    ensures Ids(a + b) == Ids(a) + Ids(b)
  {
  }

  /** No call loses or duplicates a row. */
  lemma StepConserves(s: State, c: Call)
    requires s.Valid() && s.pending != []
    ensures Step(s, c).Everything() == s.Everything()
  {
    var n := Min(s.batch, |s.pending|);
    var cur, rest := s.pending[..n], s.pending[n..];
    assert cur + rest == s.pending;
    IdsConcat(cur, rest);
    match BatchOutcome(cur, c)
    case Error =>
      assert multiset(s.failed + Ids(cur)) == multiset(s.failed) + multiset(Ids(cur));
    case Results(res) =>
      BatchSplits(cur, res);
      IdsConcat(Missed(cur, res), rest);
      MoveBatch(Ids(cur), Ids(rest), Ids(Missed(cur, res)),
                AnsweredIds(cur, res), DroppedAgain(cur, res), s.scored, s.failed, s.gaveUp);
  }

  // ----- the score column ----------------------------------------------------------------------

  /** v is the answer moved into 0..100. */
  predicate InRange(v: int, score: int) {
    0 <= v <= 100 && (v < score ==> v == 100) && (v > score ==> v == 0)
  }

  lemma {:induction false} RecordFacts(scores: map<int, int>, res: seq<Reply>)
    ensures var t := Record(scores, res);
            && (forall id :: id in scores ==> id in t && t[id] == scores[id])
            && (forall id :: id in t <==> id in scores || Answered(res, id))
            && (forall id :: id in t && id !in scores ==>
                  exists i :: 0 <= i < |res| && res[i].id == id && InRange(t[id], res[i].score)
                              && forall j :: 0 <= j < i ==> res[j].id != id)
  {
    if res != [] {
      var front := res[..|res| - 1];
      RecordFacts(scores, front);
      assert forall i :: 0 <= i < |front| ==> front[i] == res[i];
      assert forall id :: Answered(res, id) <==> Answered(front, id) || id == res[|front|].id;
    }
  }

  lemma {:induction false} AnsweredExactly(cur: seq<Row>, res: seq<Reply>, id: int)
    ensures id in AnsweredIds(cur, res) <==> HasId(cur, id) && Answered(res, id)
  {
    if cur != [] {
      var front := cur[..|cur| - 1];
      AnsweredExactly(front, res, id);
      HasIdMore(cur, id);
    }
  }

  lemma HasIdMore(rows: seq<Row>, id: int)
    requires rows != []
    ensures HasId(rows, id) <==> HasId(rows[..|rows| - 1], id) || rows[|rows| - 1].id == id
  {
    var front := rows[..|rows| - 1];
    assert forall i :: 0 <= i < |front| ==> front[i] == rows[i];
  }

  /** The score column of t differs from that of s only by first-time scores, one for
      each newly scored row, all between 0 and 100. */
  ghost predicate OnlyNewScores(s: State, t: State) {
    && (forall id :: id in s.scores ==> id in t.scores && t.scores[id] == s.scores[id])
    && (forall id :: id in t.scores && id !in s.scores ==> 0 <= t.scores[id] <= 100 && id in t.scored)
    && (forall id :: id in t.scored ==> id in s.scored || id in t.scores)
    && s.scored <= t.scored
  }

  lemma StepScores(s: State, c: Call)
    requires s.Valid() && s.pending != []
    ensures OnlyNewScores(s, Step(s, c))
  {
    var n := Min(s.batch, |s.pending|);
    var cur := s.pending[..n];
    match BatchOutcome(cur, c)
    case Error =>
    case Results(res) =>
      var t := Step(s, c);
      RecordFacts(s.scores, res);
      forall id ensures id in t.scored <==> id in s.scored || Answered(res, id) {
        AnsweredExactly(cur, res, id);
        if Answered(res, id) {
          var i :| 0 <= i < |res| && res[i].id == id;
          assert res[i] in res;
          assert HasId(cur, id);
        }
      }
  }

  /** No row lost or duplicated from s to t, and only first-time scores written. */
  ghost predicate Kept(s: State, t: State) {
    t.Everything() == s.Everything() && OnlyNewScores(s, t)
  }

  lemma KeptSelf(s: State)
    ensures Kept(s, s)
  {
  }

  lemma KeptTransitive(s: State, t: State, u: State)
    requires Kept(s, t) && Kept(t, u)
    ensures Kept(s, u)
  {
  }

  lemma StepKept(s: State, c: Call)
    requires s.Valid() && s.pending != []
    ensures Kept(s, Step(s, c))
  {
    StepConserves(s, c);
    StepScores(s, c);
  }

  lemma {:induction false} RunKeeps(s: State, model: nat -> Call, k: nat, charged: nat, budget: nat)
    requires s.Valid()
    ensures var (t, calls) := Run(s, model, k, charged, budget);
            Kept(s, t) && (t.pending == [] || charged + t.cost >= budget)
    decreases Weight(s.pending), s.batch
  {
    if s.pending != [] && charged + s.cost < budget {
      StepProgress(s, model(k));
      StepKept(s, model(k));
      RunKeeps(Step(s, model(k)), model, k + 1, charged, budget);
      KeptTransitive(s, Step(s, model(k)), Run(s, model, k, charged, budget).0);
    }
  }

  // ----- money ------------------------------------------------------------------------------------

  /** Cost of the answers lo..hi of `model`. */
  function Spend(model: nat -> Call, lo: nat, hi: nat): nat
    requires lo <= hi
    decreases hi
  {
    if lo == hi then 0 else Spend(model, lo, hi - 1) + CallCost(model(hi - 1))
  }

  /** Every one of the calls lo..hi was made while the charged usage plus what this
      run had spent before it was below the budget. */
  ghost predicate Gated(model: nat -> Call, lo: nat, hi: nat, usage: nat, budget: nat) {
    lo <= hi && forall j :: lo <= j < hi ==> usage + Spend(model, lo, j) < budget
  }

  lemma StepCharges(s: State, c: Call)
    requires s.Valid() && s.pending != []
    ensures Step(s, c).cost == s.cost + CallCost(c)
    ensures Step(s, c).inTokens == s.inTokens + c.inTokens && Step(s, c).outTokens == s.outTokens + c.outTokens
  {
  }

  /** The state after one call of a run, known by what it costs only. */
  lemma OneCall(s: State, model: nat -> Call, k: nat, charged: nat, budget: nat) returns (t: State)
    requires s.Valid() && s.pending != [] && charged + s.cost < budget
    ensures t.Valid() && t.cost == s.cost + CallCost(model(k))
    ensures Run(s, model, k, charged, budget) == Run(t, model, k + 1, charged, budget)
    ensures Weight(t.pending) < Weight(s.pending) || (t.pending == s.pending && t.batch < s.batch)
  {
    t := Step(s, model(k));
    RunUnfolds(s, model, k, charged, budget);
    StepCharges(s, model(k));
  }

  /** What holds of the cost and passes from each gated call to the next. */
  ghost predicate Passes(model: nat -> Call, charged: nat, budget: nat, inv: (int, nat) -> bool) {
    forall x: int, j: nat, y: int, i: nat ::
      inv(x, j) && charged + x < budget && y == x + CallCost(model(j)) && i == j + 1 ==> inv(y, i)
  }

  lemma PassesOnce(model: nat -> Call, charged: nat, budget: nat, inv: (int, nat) -> bool, x: int, j: nat)
    requires Passes(model, charged, budget, inv) && inv(x, j) && charged + x < budget
    ensures inv(x + CallCost(model(j)), j + 1)
  {
  }

  lemma {:induction false} CostsOfRun(s: State, model: nat -> Call, k: nat, charged: nat, budget: nat, r: (State, nat),
                                      inv: (int, nat) -> bool)
    requires s.Valid() && r == Run(s, model, k, charged, budget)
    requires Passes(model, charged, budget, inv) && inv(s.cost, k)
    ensures inv(r.0.cost, r.1)
    decreases Weight(s.pending), s.batch
  {
    if s.pending != [] && charged + s.cost < budget {
      var t := OneCall(s, model, k, charged, budget);
      PassesOnce(model, charged, budget, inv, s.cost, k);
      CostsOfRun(t, model, k + 1, charged, budget, r, inv);
    }
  }

  lemma GatedNext(model: nat -> Call, lo: nat, hi: nat, usage: nat, budget: nat)
    requires Gated(model, lo, hi, usage, budget) && usage + Spend(model, lo, hi) < budget
    ensures Gated(model, lo, hi + 1, usage, budget)
    ensures Spend(model, lo, hi + 1) == Spend(model, lo, hi) + CallCost(model(hi))
  {
  }

  /** The calls k..j were gated and brought the cost from `cost` to x. */
  ghost predicate GatedTo(model: nat -> Call, k: nat, j: nat, charged: nat, cost: int, budget: nat, x: int) {
    cost >= 0 && Gated(model, k, j, charged + cost, budget) && x == cost + Spend(model, k, j)
  }

  lemma OneMoreGated(model: nat -> Call, k: nat, j: nat, charged: nat, cost: nat, budget: nat, x: int)
    requires GatedTo(model, k, j, charged, cost, budget, x) && charged + x < budget
    ensures GatedTo(model, k, j + 1, charged, cost, budget, x + CallCost(model(j)))
  {
    GatedNext(model, k, j, charged + cost, budget);
  }

  ghost function Gating(model: nat -> Call, k: nat, charged: nat, cost: nat, budget: nat): (int, nat) -> bool {
    (x: int, j: nat) => GatedTo(model, k, j, charged, cost, budget, x)
  }

  lemma GatingPasses(model: nat -> Call, k: nat, charged: nat, cost: nat, budget: nat)
    ensures Passes(model, charged, budget, Gating(model, k, charged, cost, budget))
    ensures Gating(model, k, charged, cost, budget)(cost, k)
  {
    var inv := Gating(model, k, charged, cost, budget);
    forall x: int, j: nat, y: int, i: nat
      | inv(x, j) && charged + x < budget && y == x + CallCost(model(j)) && i == j + 1
      ensures inv(y, i)
    {
      OneMoreGated(model, k, j, charged, cost, budget, x);
    }
  }

  lemma RunIsGated(s: State, model: nat -> Call, k: nat, charged: nat, budget: nat, r: (State, nat))
    requires s.Valid() && r == Run(s, model, k, charged, budget)
    ensures Gated(model, k, r.1, charged + s.cost, budget) && r.0.cost == s.cost + Spend(model, k, r.1)
  {
    GatingPasses(model, k, charged, s.cost, budget);
    CostsOfRun(s, model, k, charged, budget, r, Gating(model, k, charged, s.cost, budget));
  }

  /** What is booked as cost is the price of the tokens booked: $0.35 and $1.50 a million. */
  lemma {:induction false} RunPricesTokens(s: State, model: nat -> Call, k: nat, charged: nat, budget: nat,
                                           r: (State, nat))
    requires s.Valid() && r == Run(s, model, k, charged, budget) && s.cost == 35 * s.inTokens + 150 * s.outTokens
    ensures r.0.cost == 35 * r.0.inTokens + 150 * r.0.outTokens
    decreases Weight(s.pending), s.batch
  {
    if s.pending != [] && charged + s.cost < budget {
      RunUnfolds(s, model, k, charged, budget);
      StepCharges(s, model(k));
      RunPricesTokens(Step(s, model(k)), model, k + 1, charged, budget, r);
    }
  }

  // ----- the run as a whole ---------------------------------------------------------------------------

  function Start(rows: seq<Row>, scores: map<int, int>): (s: State)
    ensures s.Valid()
  {
    State(rows, MAX_BATCH, 0, 0, 0, 0, scores, [], [], [])
  }

  predicate DistinctIds(rows: seq<Row>) {
    forall i, j :: 0 <= i < j < |rows| ==> rows[i].id != rows[j].id
  }

  /** How often id occurs in the state's four places together. */
  ghost function Places(t: State, id: int): nat {
    multiset(Ids(t.pending))[id] + multiset(t.scored)[id] + multiset(t.failed)[id] + multiset(t.gaveUp)[id]
  }

  lemma PlacesCountEverything(t: State, id: int)
    ensures Places(t, id) == t.Everything()[id]
  {
  }

  /** For every sequence of answers, errors and drops the run ends after at most
      4n + 3 calls. */
  lemma RankingEnds(rows: seq<Row>, scores: map<int, int>, model: nat -> Call, charged: nat, budget: nat)
    ensures Run(Start(rows, scores), model, 0, charged, budget).1 <= 4 * |rows| + 3
  {
    CallBound(Start(rows, scores), model, 0, charged, budget);
    WeightBounds(rows);
  }

  /** For every sequence of answers, errors and drops the run ends with every row in
      exactly one of: still pending (only when the budget stopped the run), scored,
      failed, or given up on after its one requeue. */
  lemma RankingConserves(rows: seq<Row>, scores: map<int, int>, model: nat -> Call, charged: nat, budget: nat, id: int)
    requires DistinctIds(rows)
    ensures var t := Run(Start(rows, scores), model, 0, charged, budget).0;
            && Places(t, id) == (if HasId(rows, id) then 1 else 0)
            && (t.pending == [] || charged + t.cost >= budget)
            && OnlyNewScores(Start(rows, scores), t)
  {
    var s := Start(rows, scores);
    RunKeeps(s, model, 0, charged, budget);
    StartHoldsOnce(rows, scores, id);
    PlacesCountEverything(Run(s, model, 0, charged, budget).0, id);
  }

  lemma StartHoldsOnce(rows: seq<Row>, scores: map<int, int>, id: int)
    requires DistinctIds(rows)
    ensures Start(rows, scores).Everything()[id] == if HasId(rows, id) then 1 else 0
  {
    DistinctOnce(rows, id);
    assert Start(rows, scores).Everything() == multiset(Ids(rows));
  }

  lemma {:induction false} DistinctOnce(rows: seq<Row>, id: int)
    requires DistinctIds(rows)
    ensures multiset(Ids(rows))[id] == if HasId(rows, id) then 1 else 0
  {
    if rows != [] {
      var front, r := rows[..|rows| - 1], rows[|rows| - 1];
      DistinctOnce(front, id);
      assert Ids(rows) == Ids(front) + [r.id];
      assert forall i :: 0 <= i < |front| ==> front[i] == rows[i];
      assert HasId(rows, id) <==> HasId(front, id) || r.id == id;
    }
  }

  /** One iteration, budget aside. */
  function Next(t: State, c: Call): (u: State)
    requires t.Valid()
    ensures u.Valid()
  {
    if t.pending == [] then t else Step(t, c)
  }

  /** The worklist after k iterations. */
  function Iterated(s: State, model: nat -> Call, k: nat): (t: State)
    requires s.Valid()
    ensures t.Valid()
  {
    if k == 0 then s else Next(Iterated(s, model, k - 1), model(k - 1))
  }

  /** A run stops after some number of iterations; t is the state after k of them, and r
      how the run ends from there. */
  lemma {:induction false} RunIterates(s: State, t: State, model: nat -> Call, k: nat, charged: nat, budget: nat,
                                       r: (State, nat))
    requires s.Valid() && t == Iterated(s, model, k) && r == Run(t, model, k, charged, budget)
    ensures r.0 == Iterated(s, model, r.1)
    decreases Weight(t.pending), t.batch
  {
    if t.pending != [] && charged + t.cost < budget {
      RunUnfolds(t, model, k, charged, budget);
      RunIterates(s, Step(t, model(k)), model, k + 1, charged, budget, r);
    }
  }

  lemma NextKept(s: State, t: State, c: Call)
    requires t.Valid() && Kept(s, t)
    ensures Kept(s, Next(t, c))
  {
    if t.pending != [] {
      StepKept(t, c);
      KeptTransitive(s, t, Step(t, c));
    }
  }

  lemma IteratedOnce(s: State, t: State, u: State, model: nat -> Call, i: nat)
    requires s.Valid() && t == Iterated(s, model, i) && u == Iterated(s, model, i + 1)
    ensures u == Next(t, model(i))
  {
  }

  lemma IteratedKeeps(s: State, model: nat -> Call, k: nat)
    requires s.Valid()
    ensures Kept(s, Iterated(s, model, k))
  {
    var holds := (j: nat) => Kept(s, Iterated(s, model, j));
    KeptSelf(s);
    forall i: nat, j: nat | j == i + 1 && holds(i) ensures holds(j) {
      var t, u := Iterated(s, model, i), Iterated(s, model, j);
      IteratedOnce(s, t, u, model, i);
      NextKept(s, t, model(i));
    }
    FromEachToNext(holds, k);
  }

  lemma InOnePlace(t: State, id: int)
    requires Places(t, id) == 1 && id in Ids(t.pending)
    ensures id !in t.scored && id !in t.failed && id !in t.gaveUp
  {
    assert multiset(Ids(t.pending))[id] > 0;
  }

  /** At every iteration every initial row is in exactly one place, and a row still
      pending has not been scored by this run. */
  lemma EveryIteration(rows: seq<Row>, scores: map<int, int>, model: nat -> Call, k: nat, id: int)
    requires DistinctIds(rows)
    ensures var t := Iterated(Start(rows, scores), model, k);
            && Places(t, id) == (if HasId(rows, id) then 1 else 0)
            && (id in Ids(t.pending) ==> id !in t.scored && (id in t.scores <==> id in scores))
  {
    var s := Start(rows, scores);
    var t := Iterated(s, model, k);
    IteratedKeeps(s, model, k);
    StartHoldsOnce(rows, scores, id);
    PlacesCountEverything(t, id);
    if id in Ids(t.pending) {
      assert multiset(Ids(t.pending))[id] > 0;
      InOnePlace(t, id);
    }
  }

  // ----- requeued once ------------------------------------------------------------------------------------

  /** The rows of the next batch. */
  function Batch(t: State): seq<Row> {
    t.pending[..Min(t.batch, |t.pending|)]
  }

  /** The next call's reply comes without row id, which was sent. */
  predicate DropsNow(t: State, c: Call, id: int) {
    t.pending != [] && BatchOutcome(Batch(t), c).Results? && HasId(Batch(t), id)
    && !Answered(BatchOutcome(Batch(t), c).entries, id)
  }

  /** The next call puts row id back in the queue. */
  predicate RequeuesNow(t: State, c: Call, id: int) {
    t.pending != [] && BatchOutcome(Batch(t), c).Results?
    && HasId(Missed(Batch(t), BatchOutcome(Batch(t), c).entries), id)
  }

  /** The worklist, and how many replies so far dropped row id and requeued it. */
  datatype Watch = Watch(t: State, drops: nat, requeues: nat)

  function Watched(w: Watch, c: Call, id: int): Watch
    requires w.t.Valid()
  {
    Watch(Next(w.t, c), w.drops + (if DropsNow(w.t, c, id) then 1 else 0),
          w.requeues + if RequeuesNow(w.t, c, id) then 1 else 0)
  }

  function WatchedAfter(s: State, model: nat -> Call, k: nat, id: int): (w: Watch)
    requires s.Valid()
    ensures w.t == Iterated(s, model, k)
  {
    if k == 0 then Watch(s, 0, 0) else Watched(WatchedAfter(s, model, k - 1, id), model(k - 1), id)
  }

  /** Where a row stands by the number of its drops. */
  ghost predicate Standing(t: State, id: int, d: nat, q: nat) {
    && (Row(id, false) in t.pending ==> d == 0) && (Row(id, true) in t.pending ==> d == 1)
    && (id in t.scored + t.failed ==> d <= 1) && (id in t.gaveUp ==> d == 2)
    && q <= d && q <= 1
  }

  lemma {:induction false} MissedExactly(cur: seq<Row>, res: seq<Reply>, id: int, b: bool)
    ensures Row(id, b) in Missed(cur, res) <==> b && Row(id, false) in cur && !Answered(res, id)
  {
    if cur != [] {
      var front, r := cur[..|cur| - 1], cur[|cur| - 1];
      MissedExactly(front, res, id, b);
      assert cur == front + [r];
    }
  }

  lemma {:induction false} AgainExactly(cur: seq<Row>, res: seq<Reply>, id: int)
    ensures id in DroppedAgain(cur, res) <==> Row(id, true) in cur && !Answered(res, id)
  {
    if cur != [] {
      var front, r := cur[..|cur| - 1], cur[|cur| - 1];
      AgainExactly(front, res, id);
      assert cur == front + [r];
    }
  }

  lemma HasIdOr(rows: seq<Row>, id: int)
    ensures HasId(rows, id) <==> Row(id, false) in rows || Row(id, true) in rows
    ensures HasId(rows, id) <==> id in Ids(rows)
  {
    if HasId(rows, id) {
      var i :| 0 <= i < |rows| && rows[i].id == id;
      assert rows[i] in rows && Ids(rows)[i] == id;
    }
  }

  /** A row that occurs once is, if in the batch, nowhere else. */
  lemma OnlyInBatch(t: State, id: int)
    requires t.Everything()[id] <= 1 && HasId(Batch(t), id)
    ensures !HasId(t.pending[|Batch(t)|..], id) && id !in t.scored && id !in t.failed && id !in t.gaveUp
  {
    var cur, rest := Batch(t), t.pending[|Batch(t)|..];
    assert t.pending == cur + rest;
    IdsConcat(cur, rest);
    HasIdOr(cur, id);
    HasIdOr(rest, id);
    assert multiset(Ids(t.pending)) == multiset(Ids(cur)) + multiset(Ids(rest));
    assert multiset(Ids(cur))[id] >= 1;
  }

  lemma ErrorStands(t: State, c: Call, id: int, d: nat, q: nat)
    requires t.Valid() && t.pending != [] && BatchOutcome(Batch(t), c).Error? && Standing(t, id, d, q)
    ensures Standing(Step(t, c), id, d, q)
  {
    var cur, rest := Batch(t), t.pending[|Batch(t)|..];
    assert t.pending == cur + rest;
    HasIdOr(cur, id);
  }

  lemma ResultsStand(t: State, c: Call, id: int, d: nat, q: nat)
    requires t.Valid() && t.pending != [] && BatchOutcome(Batch(t), c).Results? && t.Everything()[id] <= 1
    requires Standing(t, id, d, q)
    ensures Standing(Step(t, c), id,
                     d + (if DropsNow(t, c, id) then 1 else 0), q + if RequeuesNow(t, c, id) then 1 else 0)
  {
    var cur, rest, res := Batch(t), t.pending[|Batch(t)|..], BatchOutcome(Batch(t), c).entries;
    assert t.pending == cur + rest;
    MissedExactly(cur, res, id, false);
    MissedExactly(cur, res, id, true);
    AgainExactly(cur, res, id);
    AnsweredExactly(cur, res, id);
    HasIdOr(cur, id);
    HasIdOr(rest, id);
    HasIdOr(Missed(cur, res), id);
    if HasId(cur, id) {
      OnlyInBatch(t, id);
    }
  }

  ghost function Stands(id: int): Watch -> bool {
    (w: Watch) => w.t.Valid() && w.t.Everything()[id] <= 1 && Standing(w.t, id, w.drops, w.requeues)
  }

  lemma WatchedStands(w: Watch, c: Call, id: int)
    requires Stands(id)(w)
    ensures Stands(id)(Watched(w, c, id))
  {
    NextKept(w.t, w.t, c);
    if w.t.pending != [] {
      if BatchOutcome(Batch(w.t), c).Error? {
        ErrorStands(w.t, c, id, w.drops, w.requeues);
      } else {
        ResultsStand(w.t, c, id, w.drops, w.requeues);
      }
    }
  }

  lemma WatchedOnce(s: State, w: Watch, x: Watch, model: nat -> Call, i: nat, id: int)
    requires s.Valid() && w == WatchedAfter(s, model, i, id) && x == WatchedAfter(s, model, i + 1, id)
    ensures x == Watched(w, model(i), id)
  {
  }

  lemma StandsThroughout(s: State, model: nat -> Call, k: nat, id: int)
    requires s.Valid() && Stands(id)(Watch(s, 0, 0))
    ensures Stands(id)(WatchedAfter(s, model, k, id))
  {
    var stands := Stands(id);
    var holds := (j: nat) => stands(WatchedAfter(s, model, j, id));
    assert WatchedAfter(s, model, 0, id) == Watch(s, 0, 0);
    forall i: nat, j: nat | j == i + 1 && holds(i) ensures holds(j) {
      var w, x := WatchedAfter(s, model, i, id), WatchedAfter(s, model, j, id);
      WatchedOnce(s, w, x, model, i, id);
      WatchedStands(w, model(i), id);
    }
    FromEachToNext(holds, k);
  }

  lemma StandsAtStart(s: State, id: int)
    requires s.Valid() && s.Everything()[id] <= 1 && Row(id, true) !in s.pending
    requires s.scored == s.failed == s.gaveUp == []
    ensures Stands(id)(Watch(s, 0, 0))
  {
  }

  /** Over any run of rows none of which was requeued before: a row is given up on only
      after exactly two replies dropped it, a row still pending was dropped as often as it
      is marked, and no row is requeued twice. */
  lemma {:induction false} GivenUpAfterTwo(rows: seq<Row>, scores: map<int, int>, model: nat -> Call, k: nat, id: int)
    requires DistinctIds(rows) && forall i :: 0 <= i < |rows| ==> !rows[i].retried
    ensures var w := WatchedAfter(Start(rows, scores), model, k, id);
            Standing(Iterated(Start(rows, scores), model, k), id, w.drops, w.requeues)
  {
    var s := Start(rows, scores);
    StartHoldsOnce(rows, scores, id);
    StandsAtStart(s, id);
    StandsThroughout(s, model, k, id);
  }

  // ----- the loop of the source -----------------------------------------------------------------------------

  class ScoreTable {
    var scores: map<int, int>

    constructor (scores: map<int, int>)
      ensures this.scores == scores
    {
      this.scores := scores;
    }

    /** UPDATE ... SET score = ? WHERE id = ? AND score IS NULL */
    method Write(id: int, score: int)
      modifies this
      ensures scores == if id in old(scores) then old(scores) else old(scores)[id := score]
    {
      if id !in scores {
        scores := scores[id := score];
      }
    }
  }

  /** Stores a reply's scores and reports which ids were stored. */
  method StoreScores(db: ScoreTable, res: seq<Reply>) returns (stored: set<int>)
    modifies db
    ensures db.scores == Record(old(db.scores), res)
    ensures forall id :: id in stored <==> Answered(res, id)
  {
    stored := {};
    for i := 0 to |res|
      invariant db.scores == Record(old(db.scores), res[..i])
      invariant forall id :: id in stored <==> Answered(res[..i], id)
    {
      assert res[..i + 1][..i] == res[..i] && res[..i + 1][i] == res[i];
      var score := res[i].score;
      if score < 0 {
        score := 0;
      }
      if score > 100 {
        score := 100;
      }
      db.Write(res[i].id, score);
      ghost var was := stored;
      stored := stored + {res[i].id};
      forall id ensures id in stored <==> Answered(res[..i + 1], id) {
        assert forall j :: 0 <= j < i ==> res[..i + 1][j] == res[..i][j];
      }
    }
    assert res[..|res|] == res;
  }

  /** The rows of a batch to put back in the queue. */
  method CollectMissed(cur: seq<Row>, stored: set<int>, ghost res: seq<Reply>) returns (missed: seq<Row>)
    requires forall id :: id in stored <==> Answered(res, id)
    ensures missed == Missed(cur, res)
  {
    missed := [];
    for i := 0 to |cur|
      invariant missed == Missed(cur[..i], res)
    {
      assert cur[..i + 1][..i] == cur[..i];
      if cur[i].id !in stored && !cur[i].retried {
        missed := missed + [cur[i].(retried := true)];
      }
    }
    assert cur[..|cur|] == cur;
  }

  datatype RunRecord = RunRecord(ranked: nat, inTokens: nat, outTokens: nat, cost: nat)

  /** The part of the loop body that follows the model's answer. */
  method TakeAnswer(db: ScoreTable, pending: seq<Row>, batch: nat, answer: Call, ghost s: State)
    returns (left: seq<Row>, batch': nat, ranked: nat)
    requires s.Valid() && pending == s.pending != [] && batch == s.batch && db.scores == s.scores
    modifies db
    ensures var t := Step(s, answer);
            left == t.pending && batch' == t.batch && db.scores == t.scores && s.ranked + ranked == t.ranked
  {
    var n := Min(batch, |pending|);
    var cur := pending[..n];
    left, batch', ranked := pending[n..], batch, 0;
    var outcome := RankBatch(cur, answer);
    if outcome == Error {
      if |cur| > 1 && !answer.cancelled {
        batch' := if |cur| / 2 > 1 then |cur| / 2 else 1;
        left := cur + left;
      }
      return;
    }
    var stored := StoreScores(db, outcome.entries);
    ranked := |outcome.entries|;
    var missed := CollectMissed(cur, stored, outcome.entries);
    if |missed| > 0 {
      left := missed + left;
    }
    batch' := Min(MAX_BATCH, batch * 2);
    assert [] + pending[n..] == pending[n..];
  }

  lemma RunUnfolds(s: State, model: nat -> Call, k: nat, charged: nat, budget: nat)
    requires s.Valid() && s.pending != [] && charged + s.cost < budget
    ensures var t := Step(s, model(k));
            && Run(s, model, k, charged, budget) == Run(t, model, k + 1, charged, budget)
            && (Weight(t.pending) < Weight(s.pending) || (t.pending == s.pending && t.batch < s.batch))
  {
    StepProgress(s, model(k));
  }

  /** `charged` is the month's usage read at the start, `model` answers the calls. */
  method RankPending(db: ScoreTable, rows: seq<Row>, model: nat -> Call, charged: nat, budget: nat)
    returns (run: RunRecord, left: seq<Row>, calls: nat, ghost end: State)
    modifies db
    ensures (end, calls) == Run(Start(rows, old(db.scores)), model, 0, charged, budget)
    ensures db.scores == end.scores && left == end.pending
    ensures run == RunRecord(end.ranked, end.inTokens, end.outTokens, end.cost)
  {
    end, calls := Start(rows, db.scores), 0;
    ghost var goal := Run(end, model, 0, charged, budget);
    run := RunRecord(0, 0, 0, 0);
    left := rows;
    if charged >= budget || |rows| == 0 {
      return;
    }
    var batch := MAX_BATCH;
    var spent := 0;
    while |left| > 0
      invariant end.Valid() && left == end.pending && batch == end.batch && db.scores == end.scores
      invariant run.ranked == end.ranked && run.inTokens == end.inTokens && run.outTokens == end.outTokens
      invariant run.cost == spent == end.cost
      invariant Run(end, model, calls, charged, budget) == goal
      decreases Weight(left), batch
    {
      if charged + spent >= budget {
        break;
      }
      var answer := model(calls);
      var c := CostUnits(answer.inTokens, answer.outTokens);
      spent := spent + c;
      RunUnfolds(end, model, calls, charged, budget);
      var ranked;
      left, batch, ranked := TakeAnswer(db, left, batch, answer, end);
      run := RunRecord(run.ranked + ranked, run.inTokens + answer.inTokens, run.outTokens + answer.outTokens,
                       run.cost + c);
      calls := calls + 1;
      end := Step(end, answer);
    }
  }
}
