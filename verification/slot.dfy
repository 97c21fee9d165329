/** The single activity slot (srv/jobs/status.go) and every client of it: background
    requests (srv/jobs_handlers.go), the scheduler (srv/jobs/report.go), status polls. */
module Slot {
  import opened Basics

  /** The fields of Activity; the empty kind means the slot is free. */
  datatype Cell = Cell(kind: string, started: int, done: Option<int>, last: string)

  function Claimed(c: Cell, kind: string, now: int): Cell {
    if c.kind != "" then c else c.(kind := kind, started := now)
  }

  function Relabelled(c: Cell, kind: string, now: int): Cell {
    if c.kind != "" then c.(kind := kind, started := now) else c
  }

  function Released(c: Cell, summary: string, now: int): Cell {
    c.(kind := "", done := Some(now), last := summary)
  }

  datatype View = View(running: string, since: Option<int>, done: Option<int>, last: string)

  class Activity {
    var kind: string
    var started: int
    var done: Option<int>
    var last: string

    ghost function Contents(): Cell
      reads this
    {
      Cell(kind, started, done, last)
    }

    constructor ()
      ensures Contents().kind == "" && Contents().done == None
    {
      kind, started, done, last := "", 0, None, "";
    }

    method Start(kind: string, now: int) returns (ok: bool)
      modifies this
      ensures ok <==> old(Contents()).kind == ""
      ensures Contents() == Claimed(old(Contents()), kind, now)
      ensures Contents() == if ok then Cell(kind, now, old(done), old(last)) else old(Contents())
    {
      if this.kind != "" {
        return false;
      }
      this.kind, started := kind, now;
      return true;
    }

    method Switch(kind: string, now: int)
      modifies this
      ensures Contents() == Relabelled(old(Contents()), kind, now)
      ensures old(Contents()).kind == "" ==> Contents() == old(Contents())
    {
      if this.kind != "" {
        this.kind, started := kind, now;
      }
    }

    method Finish(summary: string, now: int)
      modifies this
      ensures Contents() == Released(old(Contents()), summary, now)
    {
      kind, done, last := "", Some(now), summary;
    }

    method State() returns (v: View)
      ensures v.running == Contents().kind && v.done == Contents().done && v.last == Contents().last
      ensures v.since == if Contents().kind == "" then None else Some(Contents().started)
    {
      v := View(kind, None, None, last);
      if kind != "" {
        v := v.(since := Some(started));
      }
      if done.Some? {
        v := v.(done := done);
      }
    }
  }

  // ----- clients ----------------------------------------------------------------------

  datatype Who = Scheduler | Request(id: nat)

  datatype Job = Fetch | Rank | Email

  function KindOf(j: Job): (k: string)
    ensures k != ""
  {
    match j case Fetch => "fetch" case Rank => "rank" case Email => "email"
  }

  /** The relabellings a job makes on its way, in order. */
  function Plan(j: Job): (p: seq<string>)
    ensures forall i :: 0 <= i < |p| ==> p[i] != ""
  {
    match j case Fetch => ["rank", "brief", "check"] case Rank => ["brief"] case Email => []
  }

  /** Where a client is: not using the slot, working with some relabellings left,
      or panicking on the way to its recover handler. */
  datatype Phase = Idle | Working(job: Job, todo: seq<string>) | Panicked(job: Job)

  /** Calls on the slot as they happened. */
  datatype Entry = Started(who: Who, kind: string, at: int) | Refused(who: Who)
                 | Switched(who: Who, kind: string, at: int) | Finished(who: Who, summary: string, at: int)

  /** `seen` holds the requests that have arrived; `mayMail` is the scheduler between
      its fetch and its Monday email; `halted` is a process killed by a panic in the
      scheduler, which has no recover handler. */
  datatype System = System(cell: Cell, phases: map<Who, Phase>, seen: set<nat>, mayMail: bool, halted: bool,
                           log: seq<Entry>)
  {
    function PhaseOf(w: Who): Phase { Lookup(phases, w) }
  }

  function Lookup(phases: map<Who, Phase>, w: Who): Phase {
    if w in phases then phases[w] else Idle
  }

  /** One atomic step: a call under the slot's mutex, or a panic. */
  datatype Step =
    | Arrive(id: nat, job: Job)
    | Wake
    | Mail
    | Relabel(who: Who)
    | Panic(who: Who)
    | Complete(who: Who, summary: string)
    | Recover(who: Who)
    | Poll

  ghost predicate Enabled(s: System, a: Step) {
    && !s.halted
    && match a
       case Arrive(id, job) => id !in s.seen
       case Wake => s.PhaseOf(Scheduler).Idle?
       case Mail => s.PhaseOf(Scheduler).Idle? && s.mayMail
       case Relabel(w) => s.PhaseOf(w).Working? && s.PhaseOf(w).todo != []
       case Panic(w) => s.PhaseOf(w).Working?
       case Complete(w, _) => s.PhaseOf(w).Working? && s.PhaseOf(w).todo == []
       case Recover(w) => s.PhaseOf(w).Panicked?
       case Poll => true
  }

  /** A client calls Start for a job; on refusal it stays idle. */
  function TryStart(s: System, w: Who, j: Job, now: int): System {
    if s.cell.kind == "" then
      s.(cell := Claimed(s.cell, KindOf(j), now), phases := s.phases[w := Working(j, Plan(j))],
         log := s.log + [Started(w, KindOf(j), now)])
    else s.(log := s.log + [Refused(w)])
  }

  function Leave(s: System, w: Who, summary: string, now: int): System {
    s.(cell := Released(s.cell, summary, now), phases := s.phases[w := Idle],
       log := s.log + [Finished(w, summary, now)])
  }

  function Next(s: System, a: Step, now: int): System
    requires Enabled(s, a)
  {
    match a
    case Arrive(id, job) => TryStart(s.(seen := s.seen + {id}), Request(id), job, now)
    case Wake => TryStart(s.(mayMail := false), Scheduler, Fetch, now)
    case Mail => TryStart(s.(mayMail := false), Scheduler, Email, now)
    case Relabel(w) =>
      var p := s.PhaseOf(w);
      s.(cell := Relabelled(s.cell, p.todo[0], now), phases := s.phases[w := p.(todo := p.todo[1..])],
         log := s.log + [Switched(w, p.todo[0], now)])
    case Panic(w) =>
      if w == Scheduler then s.(halted := true) else s.(phases := s.phases[w := Panicked(s.PhaseOf(w).job)])
    case Complete(w, summary) =>
      Leave(s.(mayMail := if w == Scheduler then s.PhaseOf(w).job == Fetch else s.mayMail), w, summary, now)
    case Recover(w) => Leave(s, w, KindOf(s.PhaseOf(w).job) + " crashed", now)
    case Poll => s
  }

  // ----- the log as a language of sessions -----------------------------------------------

  /** What a log of slot calls amounts to: free, held by one client, or ill-formed.  In a
      well-formed log every successful Start is by a client that finds the slot free,
      only the holder relabels or finishes, and Starts are refused only while held. */
  datatype Verdict = Free | Held(who: Who, kind: string) | Bad

  function Replay(log: seq<Entry>): Verdict {
    if log == [] then Free else
      match (Replay(log[..|log| - 1]), log[|log| - 1])
      case (Free, Started(w, k, _)) => Held(w, k)
      case (Held(v, k), Refused(w)) => Held(v, k)
      case (Held(v, _), Switched(w, k, _)) => if v == w then Held(w, k) else Bad
      case (Held(v, _), Finished(w, _, _)) => if v == w then Free else Bad
      case _ => Bad
  }

  predicate Active(p: Phase) {
    p.Working? || p.Panicked?
  }

  function StartCount(log: seq<Entry>, w: Who): nat {
    if log == [] then 0 else
      StartCount(log[..|log| - 1], w) + if log[|log| - 1].Started? && log[|log| - 1].who == w then 1 else 0
  }

  function FinishCount(log: seq<Entry>, w: Who): nat {
    if log == [] then 0 else
      FinishCount(log[..|log| - 1], w) + if log[|log| - 1].Finished? && log[|log| - 1].who == w then 1 else 0
  }

  /** In a well-formed log every successful Start of a client has had exactly one Finish,
      except the one whose session is still open. */
  lemma {:induction false} StartsMatchFinishes(log: seq<Entry>, w: Who)
    requires Replay(log) != Bad
    ensures StartCount(log, w) == FinishCount(log, w)
                                  + if Replay(log).Held? && Replay(log).who == w then 1 else 0
  {
    if log != [] {
      StartsMatchFinishes(log[..|log| - 1], w);
    }
  }

  // ----- the invariant ---------------------------------------------------------------------

  /** The slot, the log and the clients agree on who holds it: the label of the slot is
      the holder's latest, and no one else is active. */
  ghost predicate Agreed(s: System) {
    && HolderOnly(Replay(s.log), s.cell.kind, s.phases)
    && forall w :: PlanOk(Lookup(s.phases, w))
  }

  ghost predicate HolderOnly(v: Verdict, kind: string, phases: map<Who, Phase>) {
    match v
    case Bad => false
    case Free => kind == "" && forall w :: !Active(Lookup(phases, w))
    case Held(h, k) => kind == k != "" && (forall w :: Active(Lookup(phases, w)) <==> w == h)
  }

  ghost predicate PlanOk(p: Phase) {
    p.Working? ==> forall i :: 0 <= i < |p.todo| ==> p.todo[i] != ""
  }

  lemma LogStep(log: seq<Entry>, e: Entry)
    ensures (log + [e])[..|log|] == log && (log + [e])[|log|] == e
  {
  }

  lemma Moved(before: map<Who, Phase>, after: map<Who, Phase>, w: Who, p: Phase)
    requires after == before[w := p]
    ensures forall v :: Lookup(after, v) == if v == w then p else Lookup(before, v)
  {
    forall v ensures Lookup(after, v) == if v == w then p else Lookup(before, v) {
      if v != w {
        assert v in after <==> v in before;
      }
    }
  }

  lemma TryStartAgreed(s: System, w: Who, j: Job, now: int)
    requires Agreed(s) && !Active(s.PhaseOf(w))
    ensures Agreed(TryStart(s, w, j, now))
  {
    LogStep(s.log, Started(w, KindOf(j), now));
    LogStep(s.log, Refused(w));
    if s.cell.kind == "" {
      Moved(s.phases, TryStart(s, w, j, now).phases, w, Working(j, Plan(j)));
    }
  }

  lemma LeaveAgreed(s: System, w: Who, summary: string, now: int)
    requires Agreed(s) && Active(s.PhaseOf(w))
    ensures Agreed(Leave(s, w, summary, now))
  {
    LogStep(s.log, Finished(w, summary, now));
    Moved(s.phases, Leave(s, w, summary, now).phases, w, Idle);
  }

  lemma RelabelAgreed(s: System, w: Who, now: int)
    requires Agreed(s) && Enabled(s, Relabel(w))
    ensures Agreed(Next(s, Relabel(w), now))
  {
    LogStep(s.log, Switched(w, s.PhaseOf(w).todo[0], now));
    Moved(s.phases, Next(s, Relabel(w), now).phases, w, s.PhaseOf(w).(todo := s.PhaseOf(w).todo[1..]));
  }

  lemma PanicAgreed(s: System, w: Who, now: int)
    requires Agreed(s) && Enabled(s, Panic(w))
    ensures Agreed(Next(s, Panic(w), now))
  {
    if w != Scheduler {
      Moved(s.phases, Next(s, Panic(w), now).phases, w, Panicked(s.PhaseOf(w).job));
    }
  }

  lemma StepAgreed(s: System, a: Step, now: int)
    requires Agreed(s) && Enabled(s, a)
    requires a.Arrive? ==> s.PhaseOf(Request(a.id)).Idle?
    ensures Agreed(Next(s, a, now))
  {
    match a
    case Arrive(id, job) => TryStartAgreed(s.(seen := s.seen + {id}), Request(id), job, now);
    case Wake => TryStartAgreed(s.(mayMail := false), Scheduler, Fetch, now);
    case Mail => TryStartAgreed(s.(mayMail := false), Scheduler, Email, now);
    case Relabel(w) => RelabelAgreed(s, w, now);
    case Panic(w) => PanicAgreed(s, w, now);
    case Complete(w, summary) =>
      LeaveAgreed(s.(mayMail := if w == Scheduler then s.PhaseOf(w).job == Fetch else s.mayMail), w, summary, now);
    case Recover(w) => LeaveAgreed(s, w, KindOf(s.PhaseOf(w).job) + " crashed", now);
    case Poll =>
  }

  /** Only requests that have arrived use the slot, and each arrives once. */
  ghost predicate OnlySeen(s: System) {
    forall id :: Request(id) in s.phases ==> id in s.seen
  }

  // ----- runs ---------------------------------------------------------------------------------

  datatype Timed = Timed(step: Step, now: int)

  const INITIAL := System(Cell("", 0, None, ""), map[], {}, false, false, [])

  ghost predicate IsRun(run: seq<Timed>)
    decreases |run|, 0
  {
    run == [] || (IsRun(run[..|run| - 1]) && Enabled(After(run[..|run| - 1]), run[|run| - 1].step))
  }

  ghost function After(run: seq<Timed>): System
    requires IsRun(run)
    decreases |run|, 1
  {
    if run == [] then INITIAL else Next(After(run[..|run| - 1]), run[|run| - 1].step, run[|run| - 1].now)
  }

  lemma {:induction false} RunAgreed(run: seq<Timed>)
    requires IsRun(run)
    ensures Agreed(After(run)) && OnlySeen(After(run))
  {
    if run != [] {
      var front, t := run[..|run| - 1], run[|run| - 1];
      RunAgreed(front);
      StepAgreed(After(front), t.step, t.now);
    }
  }

  /** In every interleaving: at most one client is active, the slot is labelled exactly
      while one is, and every client's successful Starts are matched by Finishes. */
  lemma MutualExclusion(run: seq<Timed>, v: Who, w: Who)
    requires IsRun(run)
    ensures var s := After(run);
            && (Active(s.PhaseOf(v)) && Active(s.PhaseOf(w)) ==> v == w)
            && (s.cell.kind != "" <==> exists u :: Active(s.PhaseOf(u)))
            && Replay(s.log) != Bad
            && StartCount(s.log, w) == FinishCount(s.log, w) + if Active(s.PhaseOf(w)) then 1 else 0
  {
    RunAgreed(run);
    StartsMatchFinishes(After(run).log, w);
    var s := After(run);
    if Replay(s.log).Held? {
      assert Active(s.PhaseOf(Replay(s.log).who));
    }
  }

  // ----- what a poll sees ---------------------------------------------------------------------

  /** The last entry that labelled the slot. */
  function LastLabel(log: seq<Entry>): Option<Entry> {
    if log == [] then None
    else if log[|log| - 1].Started? || log[|log| - 1].Switched? then Some(log[|log| - 1])
    else LastLabel(log[..|log| - 1])
  }

  function LastFinish(log: seq<Entry>): Option<Entry> {
    if log == [] then None
    else if log[|log| - 1].Finished? then Some(log[|log| - 1])
    else LastFinish(log[..|log| - 1])
  }

  /** The slot shows the label and the time of the last labelling while it is held, and when and
      how the last session ended. */
  ghost predicate Shows(c: Cell, put: Option<Entry>, finish: Option<Entry>) {
    && (c.kind != "" ==> put.Some? && (put.value.Started? || put.value.Switched?)
                         && c.kind == put.value.kind && c.started == put.value.at)
    && (match finish
        case None => c.done == None && c.last == ""
        case Some(e) => e.Finished? && c.done == Some(e.at) && c.last == e.summary)
  }

  ghost predicate Shown(s: System) {
    Shows(s.cell, LastLabel(s.log), LastFinish(s.log))
  }

  lemma OneMoreEntry(log: seq<Entry>, e: Entry)
    ensures LastLabel(log + [e]) == if e.Started? || e.Switched? then Some(e) else LastLabel(log)
    ensures LastFinish(log + [e]) == if e.Finished? then Some(e) else LastFinish(log)
  {
    LogStep(log, e);
  }

  lemma TryStartShown(s: System, w: Who, j: Job, now: int)
    requires Shown(s)
    ensures Shown(TryStart(s, w, j, now))
  {
    OneMoreEntry(s.log, Started(w, KindOf(j), now));
    OneMoreEntry(s.log, Refused(w));
  }

  lemma LeaveShown(s: System, w: Who, summary: string, now: int)
    requires Shown(s)
    ensures Shown(Leave(s, w, summary, now))
  {
    OneMoreEntry(s.log, Finished(w, summary, now));
  }

  lemma RelabelShown(s: System, w: Who, now: int)
    requires Shown(s) && Enabled(s, Relabel(w)) && s.cell.kind != ""
    ensures Shown(Next(s, Relabel(w), now))
  {
    OneMoreEntry(s.log, Switched(w, s.PhaseOf(w).todo[0], now));
  }

  lemma StepShown(s: System, a: Step, now: int)
    requires Shown(s) && Enabled(s, a) && (a.Relabel? ==> s.cell.kind != "")
    ensures Shown(Next(s, a, now))
  {
    match a
    case Arrive(id, job) => TryStartShown(s.(seen := s.seen + {id}), Request(id), job, now);
    case Wake => TryStartShown(s.(mayMail := false), Scheduler, Fetch, now);
    case Mail => TryStartShown(s.(mayMail := false), Scheduler, Email, now);
    case Relabel(w) => RelabelShown(s, w, now);
    case Complete(w, summary) =>
      LeaveShown(s.(mayMail := if w == Scheduler then s.PhaseOf(w).job == Fetch else s.mayMail), w, summary, now);
    case Recover(w) => LeaveShown(s, w, KindOf(s.PhaseOf(w).job) + " crashed", now);
    case _ =>
  }

  /** In every interleaving: while the slot is held it shows the latest label and when that was
      put there, and always the end of the last session. */
  lemma {:induction false} PollIsRight(run: seq<Timed>)
    requires IsRun(run)
    ensures Shown(After(run))
  {
    if run != [] {
      var front, t := run[..|run| - 1], run[|run| - 1];
      PollIsRight(front);
      RunAgreed(front);
      StepShown(After(front), t.step, t.now);
    }
  }

  // ----- what a session shows --------------------------------------------------------------------

  /** The labels put since the slot was last taken. */
  function Labels(log: seq<Entry>): seq<string> {
    if log == [] then [] else LabelsAfter(Labels(log[..|log| - 1]), log[|log| - 1])
  }

  function LabelsAfter(labels: seq<string>, e: Entry): seq<string> {
    if e.Started? then [e.kind] else if e.Switched? then labels + [e.kind] else if e.Refused? then labels else []
  }

  /** What a job shows when nothing goes wrong. */
  function Stages(j: Job): seq<string> {
    match j case Fetch => ["fetch", "rank", "brief", "check"] case Rank => ["rank", "brief"] case Email => ["email"]
  }

  /** A working client has shown its stages up to those it still has to show. */
  ghost predicate OnPlan(p: Phase, labels: seq<string>) {
    p.Working? ==> labels + p.todo == Stages(p.job)
  }

  ghost predicate AllOnPlan(s: System) {
    forall w :: OnPlan(Lookup(s.phases, w), Labels(s.log))
  }

  lemma LabelsGrow(log: seq<Entry>, e: Entry)
    ensures Labels(log + [e]) == LabelsAfter(Labels(log), e)
  {
    LogStep(log, e);
  }

  lemma TryStartOnPlan(s: System, w: Who, j: Job, now: int)
    requires Agreed(s) && AllOnPlan(s) && !Active(s.PhaseOf(w))
    ensures AllOnPlan(TryStart(s, w, j, now))
  {
    LabelsGrow(s.log, Started(w, KindOf(j), now));
    LabelsGrow(s.log, Refused(w));
    if s.cell.kind == "" {
      Moved(s.phases, TryStart(s, w, j, now).phases, w, Working(j, Plan(j)));
    }
  }

  lemma LeaveOnPlan(s: System, w: Who, summary: string, now: int)
    requires Agreed(s) && AllOnPlan(s) && Active(s.PhaseOf(w))
    ensures AllOnPlan(Leave(s, w, summary, now))
  {
    Moved(s.phases, Leave(s, w, summary, now).phases, w, Idle);
  }

  lemma RelabelOnPlan(s: System, w: Who, now: int)
    requires Agreed(s) && AllOnPlan(s) && Enabled(s, Relabel(w))
    ensures AllOnPlan(Next(s, Relabel(w), now))
  {
    var p := s.PhaseOf(w);
    assert OnPlan(p, Labels(s.log));
    LabelsGrow(s.log, Switched(w, p.todo[0], now));
    Moved(s.phases, Next(s, Relabel(w), now).phases, w, p.(todo := p.todo[1..]));
    assert (Labels(s.log) + [p.todo[0]]) + p.todo[1..] == Labels(s.log) + p.todo;
  }

  lemma StepOnPlan(s: System, a: Step, now: int)
    requires Agreed(s) && AllOnPlan(s) && Enabled(s, a) && (a.Arrive? ==> s.PhaseOf(Request(a.id)).Idle?)
    ensures AllOnPlan(Next(s, a, now))
  {
    match a
    case Arrive(id, job) => TryStartOnPlan(s.(seen := s.seen + {id}), Request(id), job, now);
    case Wake => TryStartOnPlan(s.(mayMail := false), Scheduler, Fetch, now);
    case Mail => TryStartOnPlan(s.(mayMail := false), Scheduler, Email, now);
    case Relabel(w) => RelabelOnPlan(s, w, now);
    case Panic(w) =>
      if w != Scheduler {
        Moved(s.phases, Next(s, a, now).phases, w, Panicked(s.PhaseOf(w).job));
      }
    case Complete(w, summary) =>
      LeaveOnPlan(s.(mayMail := if w == Scheduler then s.PhaseOf(w).job == Fetch else s.mayMail), w, summary, now);
    case Recover(w) => LeaveOnPlan(s, w, KindOf(s.PhaseOf(w).job) + " crashed", now);
    case Poll =>
  }

  lemma {:induction false} RunOnPlan(run: seq<Timed>)
    requires IsRun(run)
    ensures AllOnPlan(After(run))
  {
    if run != [] {
      var front, t := run[..|run| - 1], run[|run| - 1];
      RunOnPlan(front);
      RunAgreed(front);
      StepOnPlan(After(front), t.step, t.now);
    }
  }

  /** In every interleaving a job that completes has shown all its stages, in order, since it
      took the slot. */
  lemma StagesAreShown(run: seq<Timed>, w: Who, summary: string)
    requires IsRun(run) && Enabled(After(run), Complete(w, summary))
    ensures Labels(After(run).log) == Stages(After(run).PhaseOf(w).job)
  {
    RunOnPlan(run);
    assert OnPlan(Lookup(After(run).phases, w), Labels(After(run).log));
  }

  // ----- the holder always gets out -------------------------------------------------------------

  function StepsLeft(p: Phase): nat {
    match p case Idle => 0 case Working(_, todo) => |todo| + 1 case Panicked(_) => 1
  }

  /** The holder's own next step: it is never blocked by anyone else. */
  function OwnStep(s: System, w: Who): Step
    requires Active(s.PhaseOf(w))
  {
    match s.PhaseOf(w)
    case Working(_, todo) => if todo == [] then Complete(w, "") else Relabel(w)
    case Panicked(_) => Recover(w)
    case Idle => assert false; Poll
  }

  /** From every reachable state of a live process the holder, normal or panicked, can
      always take its next step, comes closer to its Finish by it, and is out when no
      step is left. */
  lemma HolderGetsOut(run: seq<Timed>, w: Who, now: int)
    requires IsRun(run) && !After(run).halted && Active(After(run).PhaseOf(w))
    ensures var s, a := After(run), OwnStep(After(run), w);
            && Enabled(s, a)
            && StepsLeft(Next(s, a, now).PhaseOf(w)) == StepsLeft(s.PhaseOf(w)) - 1
            && (StepsLeft(s.PhaseOf(w)) == 1 ==> Next(s, a, now).cell.kind == "")
  {
  }

  /** The holder's next step, as a longer run. */
  lemma HolderMoves(run: seq<Timed>, w: Who, now: int) returns (next: seq<Timed>)
    requires IsRun(run) && !After(run).halted && Active(After(run).PhaseOf(w))
    ensures next == run + [Timed(OwnStep(After(run), w), now)] && IsRun(next) && !After(next).halted
    ensures StepsLeft(After(next).PhaseOf(w)) == StepsLeft(After(run).PhaseOf(w)) - 1
    ensures StepsLeft(After(run).PhaseOf(w)) == 1 ==> After(next).cell.kind == ""
  {
    var t := Timed(OwnStep(After(run), w), now);
    next := run + [t];
    assert next[..|run|] == run && next[|run|] == t;
    HolderGetsOut(run, w, now);
  }

  /** So from every reachable state of a live process the slot can be freed, by the
      holder's steps alone. */
  lemma {:induction false} SlotCanBeFreed(run: seq<Timed>, w: Who, now: int) returns (freed: seq<Timed>)
    requires IsRun(run) && !After(run).halted && Active(After(run).PhaseOf(w))
    ensures run <= freed && |freed| == |run| + StepsLeft(After(run).PhaseOf(w))
    ensures IsRun(freed) && After(freed).cell.kind == ""
    decreases StepsLeft(After(run).PhaseOf(w))
  {
    var next := HolderMoves(run, w, now);
    if StepsLeft(After(run).PhaseOf(w)) == 1 {
      freed := next;
    } else {
      freed := SlotCanBeFreed(next, w, now);
    }
  }

  /** No step of another client, and no poll, moves the holder or frees its slot. */
  lemma OthersCannotInterfere(run: seq<Timed>, w: Who, a: Step, now: int)
    requires IsRun(run) && Active(After(run).PhaseOf(w)) && Enabled(After(run), a)
    requires a !in {Relabel(w), Panic(w), Recover(w)} && !(a.Complete? && a.who == w)
    ensures var s, t := After(run), Next(After(run), a, now);
            t.PhaseOf(w) == s.PhaseOf(w) && t.cell == s.cell
  {
    RunAgreed(run);
  }
}
