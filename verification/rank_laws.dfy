/** What becomes of a batch that fails, and of the rows in it. */
module RankingLaws {
  import opened Basics
  import opened Ranking

  /** A transport or gateway error, or a reply without a single object. */
  predicate Errs(c: Call) {
    c.failed || c.entries == []
  }

  lemma ErrorIsError(rows: seq<Row>, c: Call)
    ensures BatchOutcome(rows, c).Error? <==> Errs(c)
  {
  }

  /** The state without what the call cost. */
  ghost predicate OnlyPaid(t: State, u: State) {
    u.scores == t.scores && u.scored == t.scored && u.gaveUp == t.gaveUp && u.ranked == t.ranked
  }

  /** The first call sends the first twelve rows. */
  lemma FirstBatch(rows: seq<Row>, scores: map<int, int>)
    ensures Batch(Start(rows, scores)) == rows[..Min(12, |rows|)]
  {
  }

  /** A failed batch of several rows is retried in halves: nothing leaves the worklist, and
      the next batch is the first half of this one. */
  lemma RetriesInHalves(t: State, c: Call)
    requires t.Valid() && |Batch(t)| > 1 && Errs(c) && !c.cancelled
    ensures var u := Next(t, c);
            && u.pending == t.pending && u.failed == t.failed && OnlyPaid(t, u)
            && Batch(u) == t.pending[..|Batch(t)| / 2]
  {
    ErrorIsError(Batch(t), c);
    assert t.pending == Batch(t) + t.pending[|Batch(t)|..];
  }

  /** A failed batch of one row, or one whose context is cancelled, is not retried. */
  lemma FailsAtOnce(t: State, c: Call)
    requires t.Valid() && t.pending != [] && Errs(c) && (c.cancelled || |Batch(t)| == 1)
    ensures var u := Next(t, c);
            u.pending == t.pending[|Batch(t)|..] && u.failed == t.failed + Ids(Batch(t)) && OnlyPaid(t, u)
  {
    ErrorIsError(Batch(t), c);
  }

  /** After an answer the batch may be twice as large again, up to twelve rows. */
  lemma AnswerRegrows(t: State, c: Call)
    requires t.Valid() && t.pending != [] && !Errs(c)
    ensures var u := Next(t, c);
            && u.failed == t.failed && u.batch == Min(12, 2 * t.batch)
            && exists again :: u.pending == again + t.pending[|Batch(t)|..]
                               && forall r :: r in again <==> r.retried && Row(r.id, false) in Batch(t)
                                                              && !Answered(c.entries, r.id)
  {
    var res := OnlySent(Batch(t), c.entries);
    var again := Missed(Batch(t), res);
    forall r ensures r in again <==> r.retried && Row(r.id, false) in Batch(t) && !Answered(c.entries, r.id) {
      MissedExactly(Batch(t), res, r.id, r.retried);
      AnsweredWhenSent(Batch(t), c.entries, r.id);
      HasIdOr(Batch(t), r.id);
      assert r == Row(r.id, r.retried);
    }
    assert Next(t, c).pending == again + t.pending[|Batch(t)|..];
  }

  /** Dropping entries that were not sent drops no answer to a row that was. */
  lemma AnsweredWhenSent(rows: seq<Row>, entries: seq<Reply>, id: int)
    requires entries != []
    ensures HasId(rows, id) ==> (Answered(OnlySent(rows, entries), id) <==> Answered(entries, id))
  {
    var res := OnlySent(rows, entries);
    if HasId(rows, id) {
      if i :| 0 <= i < |entries| && entries[i].id == id {
        assert entries[i] in entries && entries[i] in res;
      }
      if i :| 0 <= i < |res| && res[i].id == id {
        assert res[i] in res && res[i] in entries;
      }
    }
  }

  // ----- which rows fail --------------------------------------------------------------------

  /** The next call fails row id for good: it was sent in a batch that is not retried. */
  predicate FailsNow(t: State, c: Call, id: int) {
    t.pending != [] && Errs(c) && HasId(Batch(t), id) && (c.cancelled || |Batch(t)| == 1)
  }

  lemma FailedStep(t: State, c: Call, id: int)
    requires t.Valid()
    ensures id in Next(t, c).failed <==> id in t.failed || FailsNow(t, c, id)
  {
    if t.pending != [] {
      HasIdOr(Batch(t), id);
      if !Errs(c) {
        AnswerRegrows(t, c);
      } else if c.cancelled || |Batch(t)| == 1 {
        FailsAtOnce(t, c);
      } else {
        RetriesInHalves(t, c);
      }
    }
  }

  /** One of the first k calls failed row id for good. */
  ghost predicate FailedBy(s: State, model: nat -> Call, k: nat, id: int)
    requires s.Valid()
  {
    exists j :: 0 <= j < k && FailsNow(Iterated(s, model, j), model(j), id)
  }

  lemma OneMoreCall(s: State, t: State, model: nat -> Call, k: nat, id: int)
    requires s.Valid() && t == Iterated(s, model, k)
    ensures FailedBy(s, model, k + 1, id) <==> FailedBy(s, model, k, id) || FailsNow(t, model(k), id)
  {
    if FailedBy(s, model, k, id) {
      var j :| 0 <= j < k && FailsNow(Iterated(s, model, j), model(j), id);
      assert j < k + 1;
    }
  }

  lemma FailedNext(s: State, t: State, u: State, model: nat -> Call, k: nat, id: int)
    requires s.Valid() && t == Iterated(s, model, k) && u == Iterated(s, model, k + 1)
    requires id in t.failed <==> FailedBy(s, model, k, id)
    ensures id in u.failed <==> FailedBy(s, model, k + 1, id)
  {
    FailedStep(t, model(k), id);
    IteratedOnce(s, t, u, model, k);
    OneMoreCall(s, t, model, k, id);
  }

  /** At every iteration exactly those rows have failed that were sent in a batch whose call
      erred and was either cancelled or for that row alone. */
  lemma FailedExactly(s: State, model: nat -> Call, k: nat, id: int)
    requires s.Valid() && id !in s.failed
    ensures id in Iterated(s, model, k).failed <==> FailedBy(s, model, k, id)
  {
    var holds := (j: nat) => id in Iterated(s, model, j).failed <==> FailedBy(s, model, j, id);
    forall i: nat, j: nat | j == i + 1 && holds(i) ensures holds(j) {
      FailedNext(s, Iterated(s, model, i), Iterated(s, model, j), model, i, id);
    }
    FromEachToNext(holds, k);
  }

  /** In a run without a cancelled call every failed row was sent alone. */
  lemma FailedAlone(rows: seq<Row>, scores: map<int, int>, model: nat -> Call, charged: nat, budget: nat, id: int)
    requires forall j :: !model(j).cancelled
    ensures var s := Start(rows, scores);
            var r := Run(s, model, 0, charged, budget);
            id in r.0.failed <==>
              exists j :: 0 <= j < r.1 && Errs(model(j)) && Ids(Batch(Iterated(s, model, j))) == [id]
  {
    var s := Start(rows, scores);
    var r := Run(s, model, 0, charged, budget);
    RunIterates(s, s, model, 0, charged, budget, r);
    FailedExactly(s, model, r.1, id);
    forall j | 0 <= j < r.1
      ensures FailsNow(Iterated(s, model, j), model(j), id) <==>
                Errs(model(j)) && Ids(Batch(Iterated(s, model, j))) == [id]
    {
      SentAlone(Iterated(s, model, j), id);
    }
  }

  lemma SentAlone(t: State, id: int)
    ensures t.pending != [] && HasId(Batch(t), id) && |Batch(t)| == 1 <==> Ids(Batch(t)) == [id]
  {
    HasIdOr(Batch(t), id);
    if |Batch(t)| == 1 {
      assert Ids(Batch(t)) == [Batch(t)[0].id];
    }
  }

  // ----- when nothing is lost ----------------------------------------------------------------

  /** The call answers every row sent, or fails a batch that is retried. */
  ghost predicate Helps(t: State, c: Call) {
    if Errs(c) then !c.cancelled && |Batch(t)| > 1
    else forall r :: r in Batch(t) ==> Answered(c.entries, r.id)
  }

  lemma {:induction false} NoneDropped(cur: seq<Row>, res: seq<Reply>)
    requires forall r :: r in cur ==> Answered(res, r.id)
    ensures Missed(cur, res) == [] && DroppedAgain(cur, res) == []
  {
    if cur != [] {
      assert cur[|cur| - 1] in cur && forall r :: r in cur[..|cur| - 1] ==> r in cur;
      NoneDropped(cur[..|cur| - 1], res);
    }
  }

  lemma HelpLosesNothing(t: State, c: Call)
    requires t.Valid() && t.failed == t.gaveUp == [] && (t.pending == [] || Helps(t, c))
    ensures var u := Next(t, c); u.failed == u.gaveUp == []
  {
    if t.pending != [] {
      if Errs(c) {
        RetriesInHalves(t, c);
      } else {
        var cur, res := Batch(t), OnlySent(Batch(t), c.entries);
        forall r | r in cur ensures Answered(res, r.id) {
          AnsweredWhenSent(cur, c.entries, r.id);
          HasIdOr(cur, r.id);
          assert r == Row(r.id, r.retried);
        }
        NoneDropped(cur, res);
      }
    }
  }

  /** Every call helps as long as there is something to do. */
  ghost predicate AllHelp(s: State, model: nat -> Call)
    requires s.Valid()
  {
    forall j: nat :: Iterated(s, model, j).pending == [] || Helps(Iterated(s, model, j), model(j))
  }

  ghost predicate NoneLost(t: State) {
    t.failed == [] && t.gaveUp == []
  }

  lemma HelpedNext(s: State, t: State, u: State, model: nat -> Call, k: nat)
    requires s.Valid() && AllHelp(s, model) && t == Iterated(s, model, k) && u == Iterated(s, model, k + 1)
    requires NoneLost(t)
    ensures NoneLost(u)
  {
    IteratedOnce(s, t, u, model, k);
    HelpLosesNothing(t, model(k));
  }

  ghost function NoneLostAt(s: State, model: nat -> Call): nat -> bool
    requires s.Valid()
  {
    (j: nat) => NoneLost(Iterated(s, model, j))
  }

  lemma NoneLostPasses(s: State, model: nat -> Call, i: nat, j: nat)
    requires s.Valid() && AllHelp(s, model) && j == i + 1 && NoneLostAt(s, model)(i)
    ensures NoneLostAt(s, model)(j)
  {
    HelpedNext(s, Iterated(s, model, i), Iterated(s, model, j), model, i);
  }

  /** As long as every call helps, no row has failed or been given up on. */
  lemma NothingLost(s: State, model: nat -> Call, k: nat)
    requires s.Valid() && NoneLost(s) && AllHelp(s, model)
    ensures NoneLost(Iterated(s, model, k))
  {
    var holds := NoneLostAt(s, model);
    assert holds(0);
    forall i: nat, j: nat | j == i + 1 && holds(i) ensures holds(j) {
      NoneLostPasses(s, model, i, j);
    }
    FromEachToNext(holds, k);
  }

  /** However often batches time out, with the context alive: if every row is answered whenever
      a call answers, and no call for a single row fails, a run that is not stopped by the
      budget scores every row. */
  lemma EveryRowScored(rows: seq<Row>, scores: map<int, int>, model: nat -> Call, charged: nat, budget: nat, id: int)
    requires DistinctIds(rows) && HasId(rows, id)
    requires AllHelp(Start(rows, scores), model)
    ensures var t := Run(Start(rows, scores), model, 0, charged, budget).0;
            t.pending == [] ==> id in t.scored && id in t.scores
  {
    var s := Start(rows, scores);
    var r := Run(s, model, 0, charged, budget);
    RunIterates(s, s, model, 0, charged, budget, r);
    NothingLost(s, model, r.1);
    EveryIteration(rows, scores, model, r.1, id);
    IteratedKeeps(s, model, r.1);
    if r.0.pending == [] {
      OnlyScoredLeft(r.0, id);
    }
  }

  lemma OnlyScoredLeft(t: State, id: int)
    requires Places(t, id) == 1 && t.pending == [] && t.failed == t.gaveUp == []
    ensures id in t.scored
  {
    assert Ids(t.pending) == [];
    assert multiset(t.scored)[id] == 1;
  }

  // ----- where a score comes from --------------------------------------------------------------

  /** Some entry of the reply is for row id, and v is its score, moved into range. */
  ghost predicate ScoredBy(c: Call, id: int, v: int) {
    exists i :: 0 <= i < |c.entries| && c.entries[i].id == id && InRange(v, c.entries[i].score)
  }

  lemma ScoreStep(t: State, c: Call, id: int)
    requires t.Valid() && id in Next(t, c).scores && id !in t.scores
    ensures !Errs(c) && HasId(Batch(t), id) && ScoredBy(c, id, Next(t, c).scores[id])
  {
    ErrorIsError(Batch(t), c);
    var res := OnlySent(Batch(t), c.entries);
    RecordFacts(t.scores, res);
    var i :| 0 <= i < |res| && res[i].id == id && InRange(Next(t, c).scores[id], res[i].score);
    assert res[i] in res && res[i] in c.entries;
  }
}
