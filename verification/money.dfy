/** The monthly LLM budget (srv/jobs/store.go GetCost and ApplyVoucher, and the three
    callers of the model).  All amounts are in units of 1e-8 USD within one month. */
module Budget {
  import opened Ranking

  /** Raw spend of the month and the voucher credited against it. */
  datatype Ledger = Ledger(spent: nat, credit: nat) {
    function Charged(): nat {
      if spent <= credit then 0 else spent - credit
    }
  }

  /** `r` is `s` printed with six decimals of a dollar: a nearest multiple of 100 units.
      At a tie either neighbour is allowed. */
  predicate Rounded(s: nat, r: nat) {
    r % 100 == 0 && s <= r + 50 && r <= s + 50
  }

  /** What can happen to the ledger: a rank, brief or summary run that made the first
      `calls` calls answered by `model`, or a voucher. */
  datatype Op = Calls(model: nat -> Call, calls: nat) | Voucher(credit: nat)

  ghost predicate Allowed(l: Ledger, op: Op, budget: nat, cap: nat) {
    match op
    case Calls(model, calls) =>
      && Gated(model, 0, calls, l.Charged(), budget)
      && forall j :: 0 <= j < calls ==> CallCost(model(j)) <= cap
    case Voucher(credit) => Rounded(l.spent, credit)
  }

  function Apply(l: Ledger, op: Op): Ledger {
    match op
    case Calls(model, calls) => l.(spent := l.spent + Spend(model, 0, calls))
    case Voucher(credit) => l.(credit := credit)
  }

  ghost predicate History(ops: seq<Op>, budget: nat, cap: nat) {
    ops == [] || (History(ops[..|ops| - 1], budget, cap)
                  && Allowed(After(ops[..|ops| - 1]), ops[|ops| - 1], budget, cap))
  }

  function After(ops: seq<Op>): Ledger {
    if ops == [] then Ledger(0, 0) else Apply(After(ops[..|ops| - 1]), ops[|ops| - 1])
  }

  function Vouchers(ops: seq<Op>): nat {
    if ops == [] then 0 else Vouchers(ops[..|ops| - 1]) + if ops[|ops| - 1].Voucher? then 1 else 0
  }

  /** One gated run takes the charged usage past the budget by less than one call. */
  lemma RunStaysBelow(model: nat -> Call, calls: nat, usage: nat, budget: nat, cap: nat)
    requires Gated(model, 0, calls, usage, budget) && calls > 0
    requires forall j :: 0 <= j < calls ==> CallCost(model(j)) <= cap
    ensures usage + Spend(model, 0, calls) < budget + cap
  {
    assert usage + Spend(model, 0, calls - 1) < budget;
    assert CallCost(model(calls - 1)) <= cap;
  }

  /** Credits never exceed what v vouchers can cover; and below half a micro-dollar of
      headroom no voucher credits anything. */
  ghost predicate Sound(l: Ledger, v: nat, limit: nat) {
    && l.spent < l.credit + limit
    && l.credit <= v * (limit + 50)
    && (limit <= 50 ==> l.credit == 0)
  }

  lemma OpKeepsSound(l: Ledger, op: Op, v: nat, budget: nat, cap: nat)
    requires budget > 0 && Sound(l, v, budget + cap) && Allowed(l, op, budget, cap)
    ensures Sound(Apply(l, op), if op.Voucher? then v + 1 else v, budget + cap)
  {
    match op
    case Calls(model, calls) =>
      if calls > 0 {
        RunStaysBelow(model, calls, l.Charged(), budget, cap);
      }
    case Voucher(credit) =>
      var limit := budget + cap;
      assert (v + 1) * (limit + 50) == v * (limit + 50) + limit + 50;
  }

  lemma {:induction false} HistoryIsSound(ops: seq<Op>, budget: nat, cap: nat)
    requires budget > 0 && History(ops, budget, cap)
    ensures Sound(After(ops), Vouchers(ops), budget + cap)
  {
    if ops != [] {
      HistoryIsSound(ops[..|ops| - 1], budget, cap);
      OpKeepsSound(After(ops[..|ops| - 1]), ops[|ops| - 1], Vouchers(ops[..|ops| - 1]), budget, cap);
    }
  }

  /** Over any sequence of runs and vouchers in a month, with no call costing more than
      `cap`: the charged usage stays below budget + cap, and v vouchers let the raw
      spend grow to at most (v + 1) such limits plus v half-micro-dollar roundings. */
  lemma BudgetHolds(ops: seq<Op>, budget: nat, cap: nat)
    requires budget > 0 && History(ops, budget, cap)
    ensures After(ops).Charged() < budget + cap
    ensures After(ops).spent < (Vouchers(ops) + 1) * (budget + cap) + 50 * Vouchers(ops)
  {
    HistoryIsSound(ops, budget, cap);
    VoucherSum(Vouchers(ops), budget + cap);
  }

  lemma VoucherSum(v: nat, limit: nat)
    ensures v * (limit + 50) + limit == (v + 1) * limit + 50 * v
  {
  }

  /** Once the charged usage has reached the budget, runs change nothing: only a
      voucher lets the model be called again. */
  lemma ExhaustedMeansNoCalls(l: Ledger, op: Op, budget: nat, cap: nat)
    requires l.Charged() >= budget && Allowed(l, op, budget, cap) && op.Calls?
    ensures op.calls == 0 && Apply(l, op) == l
  {
    assert Spend(op.model, 0, 0) == 0;
  }

  // ----- what a voucher gives ----------------------------------------------------------------

  /** What the runs among ops cost. */
  function RunCosts(ops: seq<Op>): nat {
    if ops == [] then 0 else
      RunCosts(ops[..|ops| - 1]) +
      match ops[|ops| - 1] case Calls(model, calls) => Spend(model, 0, calls) case Voucher(_) => 0
  }

  lemma OneMoreOp(front: seq<Op>, op: Op)
    ensures After(front + [op]) == Apply(After(front), op)
    ensures RunCosts(front + [op]) ==
            RunCosts(front) + match op case Calls(model, calls) => Spend(model, 0, calls) case Voucher(_) => 0
  {
    assert (front + [op])[..|front|] == front;
  }

  /** Runs leave the credit alone. */
  lemma {:induction false} RunsKeepCredit(front: seq<Op>, runs: seq<Op>)
    requires forall i :: 0 <= i < |runs| ==> runs[i].Calls?
    ensures After(front + runs).credit == After(front).credit
    ensures After(front + runs).spent == After(front).spent + RunCosts(runs)
  {
    if runs == [] {
      assert front + runs == front;
    } else {
      var some, op := runs[..|runs| - 1], runs[|runs| - 1];
      RunsKeepCredit(front, some);
      OneMoreOp(front + some, op);
      assert front + runs == (front + some) + [op];
    }
  }

  lemma {:induction false} HistoryPrefix(front: seq<Op>, more: seq<Op>, budget: nat, cap: nat)
    requires History(front + more, budget, cap)
    ensures History(front, budget, cap)
  {
    if more == [] {
      assert front + more == front;
    } else {
      assert (front + more)[..|front + more| - 1] == front + more[..|more| - 1];
      HistoryPrefix(front, more[..|more| - 1], budget, cap);
    }
  }

  /** Without a voucher everything is charged. */
  lemma NoVoucherChargesAll(ops: seq<Op>)
    requires forall i :: 0 <= i < |ops| ==> ops[i].Calls?
    ensures After(ops).Charged() == RunCosts(ops)
  {
    RunsKeepCredit([], ops);
    assert [] + ops == ops;
  }

  /** After a voucher only what was spent since is charged, up to the rounding of the
      credit; right after it at most half a micro-dollar. */
  lemma VoucherGivesRelief(front: seq<Op>, credit: nat, runs: seq<Op>, budget: nat, cap: nat)
    requires History(front + [Voucher(credit)] + runs, budget, cap)
    requires forall i :: 0 <= i < |runs| ==> runs[i].Calls?
    ensures var charged := After(front + [Voucher(credit)] + runs).Charged();
            RunCosts(runs) <= charged + 50 && charged <= RunCosts(runs) + 50
  {
    var ops := front + [Voucher(credit)];
    HistoryPrefix(ops, runs, budget, cap);
    OneMoreOp(front, Voucher(credit));
    assert ops[..|ops| - 1] == front && Allowed(After(front), Voucher(credit), budget, cap);
    RunsKeepCredit(ops, runs);
  }

  /** So with a budget above that the next ranking run makes its first call, and stops only
      when all rows are dealt with or what it spent itself comes within the rounding of the
      budget. */
  lemma VoucherLetsRank(front: seq<Op>, credit: nat, budget: nat, cap: nat, rows: seq<Row>, scores: map<int, int>,
                        model: nat -> Call)
    requires History(front + [Voucher(credit)], budget, cap) && budget > 50 && rows != []
    ensures var r := Run(Start(rows, scores), model, 0, After(front + [Voucher(credit)]).Charged(), budget);
            r.1 >= 1 && (r.0.pending == [] || r.0.cost + 50 >= budget)
  {
    var ops := front + [Voucher(credit)];
    assert ops + [] == ops;
    VoucherGivesRelief(front, credit, [], budget, cap);
    var s, charged := Start(rows, scores), After(ops).Charged();
    RunUnfolds(s, model, 0, charged, budget);
    RunIsGated(Step(s, model(0)), model, 1, charged, budget, Run(s, model, 0, charged, budget));
    RunKeeps(s, model, 0, charged, budget);
  }

  // ----- the stored records ------------------------------------------------------------

  function TotalCost(runs: seq<RunRecord>): nat {
    if runs == [] then 0 else TotalCost(runs[..|runs| - 1]) + runs[|runs| - 1].cost
  }

  lemma RankRunIsAllowed(rows: seq<Row>, scores: map<int, int>, model: nat -> Call, charged: nat, budget: nat)
    ensures var r := Run(Start(rows, scores), model, 0, charged, budget);
            && Gated(model, 0, r.1, charged, budget)
            && r.0.cost == Spend(model, 0, r.1)
            && r.1 <= 4 * |rows| + 3
  {
    RunIsGated(Start(rows, scores), model, 0, charged, budget, Run(Start(rows, scores), model, 0, charged, budget));
    RankingEnds(rows, scores, model, charged, budget);
  }

  /** The context is not cancelled before any of the first n calls. */
  predicate Alive(cancelled: nat -> bool, n: nat) {
    n == 0 || (Alive(cancelled, n - 1) && !cancelled(n - 1))
  }

  /** The amount with six decimals of a dollar. */
  function SixDecimals(amount: nat, up: bool): (r: nat)
    ensures Rounded(amount, r)
  {
    var n, rest := amount / 100, amount % 100;
    assert amount == 100 * n + rest;
    if rest < 50 || (rest == 50 && !up) then 100 * n else 100 * (n + 1)
  }

  /** This month's rows of job_runs and its llm_credit setting. */
  class Books {
    var runs: seq<RunRecord>
    var credit: nat

    ghost function State(): Ledger
      reads this
    {
      Ledger(TotalCost(runs), credit)
    }

    constructor ()
      ensures State() == After([])
    {
      runs, credit := [], 0;
    }

    method GetCost() returns (spent: nat, charged: nat)
      ensures spent == State().spent && charged == State().Charged()
    {
      spent := 0;
      for i := 0 to |runs|
        invariant spent == TotalCost(runs[..i])
      {
        assert runs[..i + 1][..i] == runs[..i];
        spent := spent + runs[i].cost;
      }
      assert runs[..|runs|] == runs;
      charged := if spent <= credit then 0 else spent - credit;
    }

    method InsertRun(r: RunRecord)
      modifies this
      ensures State() == old(State()).(spent := old(State()).spent + r.cost)
    {
      runs := runs + [r];
      assert runs[..|runs| - 1] == old(runs);
    }

    /** Credits the spend so far, printed to six decimals; `up` resolves a tie. */
    method ApplyVoucher(up: bool) returns (amount: nat)
      modifies this
      ensures amount == old(State()).spent
      ensures Rounded(amount, credit) && State() == Apply(old(State()), Voucher(credit))
    {
      var charged;
      amount, charged := GetCost();
      credit := SixDecimals(amount, up);
    }

    method Rank(db: ScoreTable, rows: seq<Row>, model: nat -> Call, budget: nat) returns (ghost calls: nat)
      modifies this, db
      ensures Gated(model, 0, calls, old(State()).Charged(), budget)
      ensures State() == Apply(old(State()), Calls(model, calls))
      ensures calls <= 4 * |rows| + 3
    {
      var spent, charged := GetCost();
      RankRunIsAllowed(rows, db.scores, model, charged, budget);
      var run, left, made, end := RankPending(db, rows, model, charged, budget);
      calls := made;
      InsertRun(run);
    }

    /** One gated call per unbriefed row, until the budget or the context ends it. */
    method Brief(rows: seq<int>, model: nat -> Call, cancelled: nat -> bool, budget: nat)
      returns (briefed: seq<int>, ghost calls: nat)
      modifies this
      ensures Gated(model, 0, calls, old(State()).Charged(), budget) && calls <= |rows|
      ensures State() == Apply(old(State()), Calls(model, calls))
      ensures calls < |rows| ==> cancelled(calls) || old(State()).Charged() + Spend(model, 0, calls) >= budget
      ensures Alive(cancelled, calls)
      ensures forall id :: id in briefed <==> exists j :: 0 <= j < calls && rows[j] == id && !model(j).failed
    {
      var spent, charged := GetCost();
      briefed, calls := [], 0;
      var run := RunRecord(0, 0, 0, 0);
      if |rows| == 0 {
        InsertRun(run);
        return;
      }
      for i := 0 to |rows|
        invariant calls == i && run.cost == Spend(model, 0, i)
        invariant Gated(model, 0, i, charged, budget) && Alive(cancelled, i)
        invariant forall id :: id in briefed <==> exists j :: 0 <= j < i && rows[j] == id && !model(j).failed
      {
        if cancelled(i) {
          break;
        }
        if charged + run.cost >= budget {
          break;
        }
        var answer := model(i);
        var c := CostUnits(answer.inTokens, answer.outTokens);
        run := run.(inTokens := run.inTokens + answer.inTokens, outTokens := run.outTokens + answer.outTokens,
                    cost := run.cost + c);
        calls := calls + 1;
        if answer.failed {
          continue;
        }
        ghost var was := briefed;
        briefed := briefed + [rows[i]];
        assert forall id :: id in briefed <==> id in was || id == rows[i];
        run := run.(ranked := run.ranked + 1);
      }
      InsertRun(run);
    }

    /** The digest intro: at most one call, booked whether or not it succeeds. */
    method Summarize(nothingToSay: bool, model: nat -> Call, budget: nat) returns (text: bool, ghost calls: nat)
      modifies this
      ensures Gated(model, 0, calls, old(State()).Charged(), budget)
      ensures State() == Apply(old(State()), Calls(model, calls))
      ensures calls == (if nothingToSay || old(State()).Charged() >= budget then 0 else 1)
      ensures text <==> calls == 1 && !model(0).failed && model(0).entries != []
    {
      calls := 0;
      if nothingToSay {
        return false, 0;
      }
      var spent, charged := GetCost();
      if charged >= budget {
        return false, 0;
      }
      var answer := model(0);
      calls := 1;
      assert Spend(model, 0, 1) == Spend(model, 0, 0) + CallCost(answer);
      InsertRun(RunRecord(0, answer.inTokens, answer.outTokens, CostUnits(answer.inTokens, answer.outTokens)));
      text := !answer.failed && answer.entries != [];
    }
  }
}
