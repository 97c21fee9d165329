/** The proxy race of srv/jobs/proxy.go as a state machine: the coordinator of
    getViaProxy, one worker per probe, the 25-place semaphore channel, the one-place
    result channel, the wait group and the goroutine that closes the channel. */
module ProxyRace {
  import opened Basics

  const SLOTS := 25

  /** A worker: not started; fetching; about to offer its body; about to mark its proxy
      bad; about to release its semaphore place; about to sign off the wait group; over. */
  datatype Worker = Waiting | Probing | Offering | Blaming | Releasing | Leaving | Over

  /** The coordinator: at the first select of iteration i, at its second select, waiting
      for the workers after a hit, receiving after the loop, or returned with the index
      of the proxy whose body it returns, if any. */
  datatype Coordinator = Launch(i: nat) | Look(i: nat) | Drain(hit: nat) | Receive | Returned(r: Option<nat>)

  datatype Closer = NotSpawned | AwaitingGroup | Closed

  /** `places` and `group` are the semaphore's tokens and the wait group's counter;
      `passed` collects the probes whose body satisfied ok, `bad` the proxies marked bad. */
  datatype State = State(workers: seq<Worker>, co: Coordinator, closer: Closer, buffer: Option<nat>,
                         places: int, group: int, expired: bool, passed: set<nat>, bad: set<nat>)

  datatype Step =
    | Spawn | Skip | TakeHit | LookOn
    | DrainDone | TakeLate | SeeClosed
    | CloseResults | Expire
    | ProbePasses(w: nat) | ProbeFails(w: nat) | Offer(w: nat) | Blame(w: nat) | Release(w: nat) | SignOff(w: nat)

  predicate At(s: State, w: nat, p: Worker) {
    w < |s.workers| && s.workers[w] == p
  }

  predicate Enabled(s: State, a: Step) {
    match a
    case Spawn => s.co.Launch? && s.places < SLOTS
    case Skip => s.co.Launch? && s.expired
    case TakeHit => s.co.Look? && s.buffer.Some?
    case LookOn => s.co.Look? && s.buffer.None?
    case DrainDone => s.co.Drain? && s.group == 0
    case TakeLate => s.co.Receive? && s.buffer.Some?
    case SeeClosed => s.co.Receive? && s.buffer.None? && s.closer.Closed?
    case CloseResults => s.closer.AwaitingGroup? && s.group == 0
    case Expire => !s.expired
    case ProbePasses(w) => At(s, w, Probing)
    case ProbeFails(w) => At(s, w, Probing)
    case Offer(w) => At(s, w, Offering)
    case Blame(w) => At(s, w, Blaming)
    case Release(w) => At(s, w, Releasing)
    case SignOff(w) => At(s, w, Leaving)
  }

  function Advance(s: State, w: nat, p: Worker): State
    requires w < |s.workers|
  {
    s.(workers := s.workers[w := p])
  }

  function Next(s: State, a: Step): State
    requires Enabled(s, a)
    requires s.co.Launch? || s.co.Look? ==> s.co.i < |s.workers|
  {
    match a
    case Spawn =>
      Advance(s, s.co.i, Probing).(places := s.places + 1, group := s.group + 1, co := Look(s.co.i))
    case Skip => s.(co := Look(s.co.i))
    case TakeHit => s.(buffer := None, expired := true, co := Drain(s.buffer.value))
    case LookOn =>
      if s.co.i + 1 < |s.workers| then s.(co := Launch(s.co.i + 1)) else s.(co := Receive, closer := AwaitingGroup)
    case DrainDone => s.(co := Returned(Some(s.co.hit)))
    case TakeLate => s.(co := Returned(s.buffer), buffer := None)
    case SeeClosed => s.(co := Returned(None))
    case CloseResults => s.(closer := Closed)
    case Expire => s.(expired := true)
    case ProbePasses(w) => Advance(s, w, Offering).(passed := s.passed + {w})
    case ProbeFails(w) => Advance(s, w, Blaming)
    case Offer(w) => Advance(s, w, Releasing).(buffer := if s.buffer.None? then Some(w) else s.buffer)
    case Blame(w) => Advance(s, w, Releasing).(bad := s.bad + {w})
    case Release(w) => Advance(s, w, Leaving).(places := s.places - 1)
    case SignOff(w) => Advance(s, w, Over).(group := s.group - 1)
  }

  // ----- invariant -------------------------------------------------------------------------

  predicate InFlight(p: Worker) {
    p == Probing || p == Offering || p == Blaming || p == Releasing
  }

  predicate Signed(p: Worker) {
    InFlight(p) || p == Leaving
  }

  function Flying(ws: seq<Worker>): set<nat> {
    set w: nat | w < |ws| && InFlight(ws[w])
  }

  function Group(ws: seq<Worker>): set<nat> {
    set w: nat | w < |ws| && Signed(ws[w])
  }

  /** How far the launching loop has come. */
  function Launched(s: State): nat {
    match s.co
    case Launch(i) => i
    case Look(i) => i + 1
    case _ => |s.workers|
  }

  /** The counters count what they should. */
  ghost predicate Counted(s: State) {
    s.places == |Flying(s.workers)| && s.group == |Group(s.workers)| && s.places <= SLOTS
  }

  /** Where the coordinator and the closer can be. */
  ghost predicate Controlled(s: State) {
    && |s.workers| > 0
    && (s.co.Launch? || s.co.Look? ==> s.co.i < |s.workers|)
    && (forall w: nat :: Launched(s) <= w < |s.workers| ==> s.workers[w] == Waiting)
    && (s.co.Launch? || s.co.Look? || s.co.Drain? ==> s.closer.NotSpawned?)
    && (s.co.Receive? ==> !s.closer.NotSpawned?)
    && (s.closer.Closed? ==> s.group == 0)
    && (s.co == Returned(None) ==> s.closer.Closed? && s.buffer.None?)
  }

  /** Only bodies that passed travel, and if one passed, one is on its way to the caller
      or has reached it. */
  ghost predicate Delivering(s: State) {
    && (s.buffer.Some? ==> s.buffer.value in s.passed)
    && (s.co.Drain? ==> s.co.hit in s.passed)
    && (s.co.Returned? && s.co.r.Some? ==> s.co.r.value in s.passed)
    && (forall w: nat :: At(s, w, Offering) ==> w in s.passed)
    && (s.passed != {} ==> s.buffer.Some? || s.co.Drain? || (s.co.Returned? && s.co.r.Some?) || SomeOffer(s))
  }

  ghost predicate SomeOffer(s: State) {
    exists w: nat :: At(s, w, Offering)
  }

  ghost predicate Inv(s: State) {
    Counted(s) && Controlled(s) && Delivering(s)
  }

  /** Changing one worker changes the two counts by what that worker contributes. */
  lemma Recount(ws: seq<Worker>, w: nat, p: Worker)
    requires w < |ws|
    ensures |Flying(ws[w := p])| == |Flying(ws)| + (if InFlight(p) then 1 else 0) - (if InFlight(ws[w]) then 1 else 0)
    ensures |Group(ws[w := p])| == |Group(ws)| + (if Signed(p) then 1 else 0) - (if Signed(ws[w]) then 1 else 0)
  {
    SameBut(Flying(ws), Flying(ws[w := p]), w);
    SameBut(Group(ws), Group(ws[w := p]), w);
  }

  lemma SameBut(a: set<nat>, b: set<nat>, w: nat)
    requires forall v: nat :: v != w ==> (v in a <==> v in b)
    ensures |b| == |a| + (if w in b then 1 else 0) - (if w in a then 1 else 0)
  {
    Without(a, w);
    Without(b, w);
    assert a - {w} == b - {w};
  }

  lemma Without(s: set<nat>, w: nat)
    ensures |s - {w}| == |s| - if w in s then 1 else 0
  {
    if w !in s {
      assert s - {w} == s;
    }
  }

  /** A worker that still has to sign off keeps the wait group above zero. */
  lemma GroupPositive(s: State, w: nat)
    requires Counted(s) && w < |s.workers| && Signed(s.workers[w])
    ensures s.group > 0
  {
    assert w in Group(s.workers);
  }

  lemma StepCounts(s: State, a: Step)
    requires Counted(s) && Controlled(s) && Enabled(s, a)
    ensures Counted(Next(s, a))
  {
    match a
    case Spawn => Recount(s.workers, s.co.i, Probing);
    case ProbePasses(w) => Recount(s.workers, w, Offering);
    case ProbeFails(w) => Recount(s.workers, w, Blaming);
    case Offer(w) => Recount(s.workers, w, Releasing);
    case Blame(w) => Recount(s.workers, w, Releasing);
    case Release(w) => Recount(s.workers, w, Leaving);
    case SignOff(w) => Recount(s.workers, w, Over);
    case _ =>
  }

  lemma StepControls(s: State, a: Step)
    requires Inv(s) && Enabled(s, a)
    ensures Controlled(Next(s, a))
  {
    match a
    case ProbePasses(w) => GroupPositive(s, w);
    case ProbeFails(w) => GroupPositive(s, w);
    case Offer(w) => GroupPositive(s, w);
    case Blame(w) => GroupPositive(s, w);
    case Release(w) => GroupPositive(s, w);
    case SignOff(w) => GroupPositive(s, w);
    case _ =>
  }

  /** Only the offer itself ends a pending offer. */
  lemma OfferSurvives(s: State, a: Step)
    requires Inv(s) && Enabled(s, a) && !a.Offer? && SomeOffer(s)
    ensures SomeOffer(Next(s, a))
  {
    var v: nat :| At(s, v, Offering);
    assert At(Next(s, a), v, Offering);
  }

  /** A worker that is about to offer a body passed: it was about to already, or the
      step is its pass. */
  lemma OffersPassed(s: State, a: Step)
    requires Inv(s) && Enabled(s, a)
    ensures forall v: nat :: At(Next(s, a), v, Offering) ==> v in Next(s, a).passed
  {
    var t := Next(s, a);
    forall v: nat | At(t, v, Offering) ensures v in t.passed {
      if a != ProbePasses(v) {
        assert At(s, v, Offering);
      }
    }
  }

  /** A body that passed is still on its way after the step. */
  lemma StillOnItsWay(s: State, a: Step)
    requires Inv(s) && Enabled(s, a) && Next(s, a).passed != {}
    ensures var t := Next(s, a);
            t.buffer.Some? || t.co.Drain? || (t.co.Returned? && t.co.r.Some?) || SomeOffer(t)
  {
    if a.ProbePasses? {
      assert At(Next(s, a), a.w, Offering);
    } else if !a.Offer? && SomeOffer(s) {
      OfferSurvives(s, a);
    }
  }

  lemma StepDelivers(s: State, a: Step)
    requires Inv(s) && Enabled(s, a)
    ensures Delivering(Next(s, a))
  {
    OffersPassed(s, a);
    if Next(s, a).passed != {} {
      StillOnItsWay(s, a);
    }
  }

  /** Every step of every participant keeps the invariant. */
  lemma StepKeepsInv(s: State, a: Step)
    requires Inv(s) && Enabled(s, a)
    ensures Inv(Next(s, a))
  {
    StepCounts(s, a);
    StepControls(s, a);
    StepDelivers(s, a);
  }

  // ----- termination and progress ---------------------------------------------------------------

  function WorkerRank(p: Worker): nat {
    match p
    case Waiting => 5 case Probing => 4 case Offering => 3 case Blaming => 3
    case Releasing => 2 case Leaving => 1 case Over => 0
  }

  function WorkersRank(ws: seq<Worker>): nat {
    if ws == [] then 0 else WorkersRank(ws[..|ws| - 1]) + WorkerRank(ws[|ws| - 1])
  }

  lemma {:induction false} RankMoves(ws: seq<Worker>, w: nat, p: Worker)
    requires w < |ws|
    ensures WorkersRank(ws[w := p]) + WorkerRank(ws[w]) == WorkersRank(ws) + WorkerRank(p)
  {
    var last := |ws| - 1;
    if w == last {
      assert ws[w := p][..last] == ws[..last];
    } else {
      assert ws[w := p][..last] == ws[..last][w := p];
      RankMoves(ws[..last], w, p);
    }
  }

  function CoRank(s: State): int {
    match s.co
    case Launch(i) => 2 * (|s.workers| - i) + 4
    case Look(i) => 2 * (|s.workers| - i) + 3
    case Receive => 2
    case Drain(_) => 1
    case Returned(_) => 0
  }

  function CloserRank(c: Closer): nat {
    match c case NotSpawned => 2 case AwaitingGroup => 1 case Closed => 0
  }

  /** An upper bound on the number of steps a state has left, whoever takes them. */
  function StepsLeft(s: State): int {
    WorkersRank(s.workers) + CoRank(s) + CloserRank(s.closer) + if s.expired then 0 else 1
  }

  /** A worker taking one step down costs exactly its drop in rank. */
  lemma WorkerStepCosts(s: State, w: nat, p: Worker)
    requires w < |s.workers| && WorkerRank(p) < WorkerRank(s.workers[w])
    ensures WorkersRank(Advance(s, w, p).workers) < WorkersRank(s.workers)
  {
    RankMoves(s.workers, w, p);
  }

  /** A step no worker takes part in. */
  predicate Quiet(a: Step) {
    match a
    case Skip => true case TakeHit => true case LookOn => true case DrainDone => true
    case TakeLate => true case SeeClosed => true case CloseResults => true case Expire => true
    case _ => false
  }

  lemma WorkersCost(s: State, a: Step)
    requires Inv(s) && Enabled(s, a)
    ensures if Next(s, a).workers == s.workers
            then Quiet(a)
            else WorkersRank(Next(s, a).workers) < WorkersRank(s.workers)
  {
    match a
    case Spawn => WorkerStepCosts(s, s.co.i, Probing);
    case ProbePasses(w) => WorkerStepCosts(s, w, Offering);
    case ProbeFails(w) => WorkerStepCosts(s, w, Blaming);
    case Offer(w) => WorkerStepCosts(s, w, Releasing);
    case Blame(w) => WorkerStepCosts(s, w, Releasing);
    case Release(w) => WorkerStepCosts(s, w, Leaving);
    case SignOff(w) => WorkerStepCosts(s, w, Over);
    case _ =>
  }

  /** Every step of any participant uses up at least one. */
  lemma StepCostsOne(s: State, a: Step)
    requires Inv(s) && Enabled(s, a)
    ensures 0 <= StepsLeft(Next(s, a)) < StepsLeft(s)
  {
    WorkersCost(s, a);
  }

  /** As long as the call has not returned some participant can move, even if the
      deadline never fires: nothing deadlocks. */
  lemma NoDeadlock(s: State) returns (a: Step)
    requires Inv(s) && !s.co.Returned?
    ensures a != Expire && Enabled(s, a)
  {
    if w: nat :| w < |s.workers| && Signed(s.workers[w]) {
      match s.workers[w]
      case Probing => a := ProbeFails(w);
      case Offering => a := Offer(w);
      case Blaming => a := Blame(w);
      case Releasing => a := Release(w);
      case Leaving => a := SignOff(w);
    } else {
      assert Group(s.workers) == {} && Flying(s.workers) == {};
      match s.co
      case Launch(_) => a := Spawn;
      case Look(_) => a := if s.buffer.Some? then TakeHit else LookOn;
      case Drain(_) => a := DrainDone;
      case Receive => a := if s.buffer.Some? then TakeLate else if s.closer.Closed? then SeeClosed else CloseResults;
    }
  }

  // ----- whole runs ------------------------------------------------------------------------------

  function Initial(n: nat): State {
    State(seq(n, _ => Waiting), Launch(0), NotSpawned, None, 0, 0, false, {}, {})
  }

  ghost predicate IsRun(n: nat, run: seq<Step>)
    requires n > 0
    decreases |run|, 0
  {
    run == [] || (IsRun(n, run[..|run| - 1]) && Enabled(After(n, run[..|run| - 1]), run[|run| - 1]))
  }

  ghost function After(n: nat, run: seq<Step>): (s: State)
    requires n > 0 && IsRun(n, run)
    ensures Inv(s) && |s.workers| == n
    decreases |run|, 1
  {
    if run == [] then InitialInv(n); Initial(n)
    else
      var s := After(n, run[..|run| - 1]);
      StepKeepsInv(s, run[|run| - 1]);
      Next(s, run[|run| - 1])
  }

  lemma InitialInv(n: nat)
    requires n > 0
    ensures Inv(Initial(n))
  {
    assert Flying(Initial(n).workers) == {} && Group(Initial(n).workers) == {};
  }

  lemma {:induction false} InitialRank(n: nat)
    ensures WorkersRank(seq(n, _ => Waiting)) == 5 * n
  {
    if n > 0 {
      InitialRank(n - 1);
      assert seq(n, _ => Waiting)[..n - 1] == seq(n - 1, _ => Waiting);
    }
  }

  /** Over n candidates every interleaving is over after at most 7n + 7 steps. */
  lemma {:induction false} RunsAreShort(n: nat, run: seq<Step>)
    requires n > 0 && IsRun(n, run)
    ensures |run| + StepsLeft(After(n, run)) <= 7 * n + 7 && StepsLeft(After(n, run)) >= 0
  {
    if run == [] {
      InitialRank(n);
    } else {
      var front := run[..|run| - 1];
      RunsAreShort(n, front);
      StepCostsOne(After(n, front), run[|run| - 1]);
    }
  }

  /** In every reachable state: at most 25 probes are in flight; no one can offer a
      result once the channel is closed; a returned body passed ok; and "no working
      proxy" is returned only if no probe passed. */
  lemma RaceIsSafe(n: nat, run: seq<Step>, w: nat)
    requires n > 0 && IsRun(n, run)
    ensures var s := After(n, run);
            && |Flying(s.workers)| <= 25
            && (Enabled(s, Offer(w)) ==> !s.closer.Closed?)
            && (s.co.Returned? && s.co.r.Some? ==> s.co.r.value in s.passed)
            && (s.co == Returned(None) ==> s.passed == {})
  {
    var s := After(n, run);
    if Enabled(s, Offer(w)) {
      GroupPositive(s, w);
    }
    if s.co == Returned(None) && SomeOffer(s) {
      var v: nat :| At(s, v, Offering);
      GroupPositive(s, v);
    }
  }

  /** A run that cannot go on has returned, with a body if any probe passed. */
  lemma RaceReturns(n: nat, run: seq<Step>)
    requires n > 0 && IsRun(n, run) && forall a :: Enabled(After(n, run), a) ==> a == Expire
    ensures After(n, run).co.Returned?
    ensures After(n, run).co.r.Some? <==> After(n, run).passed != {}
  {
    var s := After(n, run);
    if !s.co.Returned? {
      var a := NoDeadlock(s);
      assert false;
    }
    RaceIsSafe(n, run, 0);
  }

  // ----- who was tried -------------------------------------------------------------------------------

  /** What is known of a probe by where its worker is. */
  ghost predicate Judged(p: Worker, inPassed: bool, inBad: bool) {
    match p
    case Waiting => !inPassed && !inBad
    case Probing => !inPassed && !inBad
    case Offering => inPassed && !inBad
    case Blaming => !inPassed && !inBad
    case Releasing => inPassed != inBad
    case Leaving => inPassed != inBad
    case Over => inPassed != inBad
  }

  ghost predicate AllJudged(s: State) {
    forall w: nat :: w < |s.workers| ==> Judged(s.workers[w], w in s.passed, w in s.bad)
  }

  /** Before the deadline no candidate is passed over. */
  ghost predicate NoneSkipped(s: State) {
    !s.expired ==> forall w: nat :: w < Launched(s) && w < |s.workers| ==> s.workers[w] != Waiting
  }

  /** A hit during the launching ends the race: the others are cancelled and waited for. */
  ghost predicate HitEnds(s: State) {
    && (s.co.Drain? ==> s.expired)
    && (s.co.Returned? && s.closer.NotSpawned? ==> s.expired && s.group == 0)
  }

  lemma StepJudges(s: State, a: Step)
    requires Inv(s) && AllJudged(s) && Enabled(s, a)
    ensures AllJudged(Next(s, a))
  {
  }

  lemma StepSkipsNone(s: State, a: Step)
    requires Inv(s) && NoneSkipped(s) && Enabled(s, a)
    ensures NoneSkipped(Next(s, a))
  {
  }

  lemma StepEnds(s: State, a: Step)
    requires Inv(s) && HitEnds(s) && Enabled(s, a)
    ensures HitEnds(Next(s, a))
  {
    if w: nat :| w < |s.workers| && Signed(s.workers[w]) {
      GroupPositive(s, w);
    }
  }

  lemma {:induction false} RunTries(n: nat, run: seq<Step>)
    requires n > 0 && IsRun(n, run)
    ensures var s := After(n, run); AllJudged(s) && NoneSkipped(s) && HitEnds(s)
  {
    if run != [] {
      var front, a := run[..|run| - 1], run[|run| - 1];
      RunTries(n, front);
      StepJudges(After(n, front), a);
      StepSkipsNone(After(n, front), a);
      StepEnds(After(n, front), a);
    }
  }

  /** In every reachable state: a probe that is over has passed, or its proxy is marked bad, not
      both; and once "no working proxy" is returned with the deadline still ahead, every
      candidate has been probed and marked bad. */
  lemma EveryoneIsTried(n: nat, run: seq<Step>, w: nat)
    requires n > 0 && IsRun(n, run) && w < n
    ensures var s := After(n, run);
            && (s.workers[w] == Over ==> (w in s.passed <==> w !in s.bad))
            && (s.co == Returned(None) && !s.expired ==> s.workers[w] == Over && w in s.bad)
  {
    var s := After(n, run);
    RunTries(n, run);
    RaceIsSafe(n, run, 0);
    if s.co == Returned(None) && Signed(s.workers[w]) {
      GroupPositive(s, w);
    }
  }

  /** The launching waits only while 25 probes are in flight; and a hit found meanwhile is
      returned when all the others were cancelled and are out. */
  lemma RaceIsBusy(n: nat, run: seq<Step>, w: nat)
    requires n > 0 && IsRun(n, run) && w < n
    ensures var s := After(n, run);
            && (s.co.Launch? ==> (Enabled(s, Spawn) <==> |Flying(s.workers)| < 25))
            && (s.co.Returned? && s.closer.NotSpawned? ==> s.expired && !Signed(s.workers[w]))
  {
    var s := After(n, run);
    RunTries(n, run);
    if s.co.Returned? && Signed(s.workers[w]) {
      GroupPositive(s, w);
    }
  }

  // ----- whose body is returned ----------------------------------------------------------------------

  /** The first offer of a run. */
  function FirstOffer(run: seq<Step>): Option<nat> {
    if run == [] then None
    else if FirstOffer(run[..|run| - 1]).Some? then FirstOffer(run[..|run| - 1])
    else if run[|run| - 1].Offer? then Some(run[|run| - 1].w) else None
  }

  /** Where the first offer has got to. */
  ghost predicate Carried(s: State, first: Option<nat>) {
    match s.co
    case Drain(hit) => first == Some(hit)
    case Returned(r) => first == r
    case _ => first == s.buffer
  }

  lemma StepCarries(s: State, a: Step, first: Option<nat>)
    requires Inv(s) && Carried(s, first) && Enabled(s, a)
    ensures Carried(Next(s, a), if first.Some? then first else if a.Offer? then Some(a.w) else None)
  {
    if a.Offer? {
      GroupPositive(s, a.w);
    }
  }

  lemma {:induction false} RunCarries(n: nat, run: seq<Step>)
    requires n > 0 && IsRun(n, run)
    ensures Carried(After(n, run), FirstOffer(run))
  {
    if run != [] {
      var front := run[..|run| - 1];
      RunCarries(n, front);
      StepCarries(After(n, front), run[|run| - 1], FirstOffer(front));
    }
  }

  /** In every interleaving the body returned is the one offered first. */
  lemma FirstIsReturned(n: nat, run: seq<Step>)
    requires n > 0 && IsRun(n, run) && After(n, run).co.Returned?
    ensures After(n, run).co.r == FirstOffer(run)
  {
    RunCarries(n, run);
  }
}
