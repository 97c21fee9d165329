/** What the events of a posting tell of it: every event a change, every change an event. */
module SignalLaws {
  import opened Basics
  import opened History
  import opened HistoryLaws
  import opened Salary
  import opened TextOrder

  // ----- one operation ----------------------------------------------------------------------

  /** A salary text replaced by another one. */
  ghost predicate TellsPay(e: Event, was: string, becomes: string) {
    e.was == Text(was) && e.becomes == Text(becomes) && was != "" && becomes != "" && was != becomes
  }

  /** By more than two per cent: 51 / 50 of the old pay. */
  predicate MorePaid(was: string, becomes: string) {
    50 * MaxCents(becomes) > 51 * MaxCents(was)
  }

  /** e tells how a posting changed from r to q. */
  ghost predicate Tells(e: Event, r: Posting, q: Posting) {
    match e.kind
    case DeadlineExtended =>
      e.was == Text(r.deadline) && e.becomes == Text(q.deadline) && r.deadline != "" && Less(r.deadline, q.deadline)
    case DeadlineShortened =>
      e.was == Text(r.deadline) && e.becomes == Text(q.deadline) && q.deadline != "" && Less(q.deadline, r.deadline)
    case Reposted =>
      e.was == Text(r.posted) && e.becomes == Text(q.posted) && r.posted != "" && Less(r.posted, q.posted)
    case Reappeared =>
      e.was == Day(r.lastSeen / 86400) && e.becomes == Day(q.lastSeen / 86400) && q.lastSeen > r.lastSeen + 864000
    case Reopened =>
      r.closedAt.Some? && q.closedAt.None? && e.was == Day(r.closedAt.value / 86400) && e.becomes == Text("")
    case Closed => r.closedAt.None? && q.closedAt.Some? && e.was == e.becomes == Text("")
    case Applicants =>
      && q.applicants.Some? && r.applicants != q.applicants && e.becomes == Count(q.applicants.value)
      && e.was == (if r.applicants.Some? then Count(r.applicants.value) else Text(""))
    case SalaryUp => TellsPay(e, r.salary, q.salary) && MorePaid(r.salary, q.salary)
    case SalaryChanged => TellsPay(e, r.salary, q.salary) && !MorePaid(r.salary, q.salary)
  }

  /** When an operation records events of a kind. */
  function TimeOf(op: Op, kind: Kind): int
    requires op.See? || op.Check?
  {
    if op.See? then op.now else if kind == Closed then op.late else op.now
  }

  /** `after` is `log` and more events, all of them as `ok` wants. */
  ghost predicate Grows(log: seq<Event>, after: seq<Event>, ok: Event -> bool) {
    log <= after && forall i :: |log| <= i < |after| ==> ok(after[i])
  }

  /** Two events that tell the same of one posting. */
  predicate Same(a: Event, b: Event) {
    a.url == b.url && a.kind == b.kind && a.was == b.was && a.becomes == b.becomes
  }

  /** An event like e was recorded within the day before it, or with it. */
  ghost predicate Logged(log: seq<Event>, e: Event) {
    exists i :: 0 <= i < |log| && Same(log[i], e) && log[i].at > e.at - 86400
  }

  /** Recording e adds at most e, and leaves it logged. */
  lemma AddStage(start: seq<Event>, log: seq<Event>, e: Event, ok: Event -> bool)
    requires Grows(start, log, ok) && ok(e)
    ensures Grows(start, Add(log, e), ok) && log <= Add(log, e) && Logged(Add(log, e), e)
  {
    if Repeats(log, e) {
      var i :| 0 <= i < |log| && SameEvent(log[i], e) && log[i].at > e.at - DAY;
      assert Add(log, e)[i] == log[i];
    } else {
      assert (log + [e])[|log|] == e;
    }
  }

  lemma StaysLogged(log: seq<Event>, more: seq<Event>, e: Event)
    requires log <= more && Logged(log, e)
    ensures Logged(more, e)
  {
    var i :| 0 <= i < |log| && Same(log[i], e) && log[i].at > e.at - 86400;
    assert more[i] == log[i];
  }

  /** The events an operation may record on posting u, which changes from r to q. */
  ghost function Telling(u: string, r: Posting, q: Posting, op: Op): Event -> bool
    requires op.See? || op.Check?
  {
    (e: Event) => e.url == u && e.at == TimeOf(op, e.kind) && Tells(e, r, q)
  }

  lemma DeadlineStage(start: seq<Event>, log: seq<Event>, u: string, was: string, becomes: string, now: int,
                      ok: Event -> bool)
    requires Grows(start, log, ok) && (Moves(was, becomes) ==> ok(Move(u, now, was, becomes)))
    ensures var end := NoteDeadline(log, u, was, becomes, now);
            && Grows(start, end, ok) && log <= end
            && (Moves(was, becomes) ==> Logged(end, Move(u, now, was, becomes)))
  {
    if Moves(was, becomes) {
      AddStage(start, log, Move(u, now, was, becomes), ok);
    }
  }

  lemma RepostStage(start: seq<Event>, log: seq<Event>, u: string, was: string, becomes: string, now: int,
                    ok: Event -> bool)
    requires var e := Event(u, now, Reposted, Text(was), Text(becomes));
             Grows(start, log, ok) && (Later(was, becomes) ==> ok(e))
    ensures var e, end := Event(u, now, Reposted, Text(was), Text(becomes)), NoteRepost(log, u, was, becomes, now);
            Grows(start, end, ok) && log <= end && (Later(was, becomes) ==> Logged(end, e))
  {
    if Later(was, becomes) {
      AddStage(start, log, Event(u, now, Reposted, Text(was), Text(becomes)), ok);
    }
  }

  function Return(u: string, now: int, lastSeen: int): Event {
    Event(u, now, Reappeared, Day(lastSeen / 86400), Day(now / 86400))
  }

  lemma ReturnStage(start: seq<Event>, log: seq<Event>, u: string, lastSeen: int, now: int, ok: Event -> bool)
    requires Grows(start, log, ok) && (now > lastSeen + 864000 ==> ok(Return(u, now, lastSeen)))
    ensures var end := NoteReappeared(log, u, lastSeen, now);
            && Grows(start, end, ok) && log <= end
            && (now > lastSeen + 864000 ==> Logged(end, Return(u, now, lastSeen)))
  {
    if now > lastSeen + 864000 {
      AddStage(start, log, Return(u, now, lastSeen), ok);
    }
  }

  function Reopen(u: string, now: int, closedAt: int): Event {
    Event(u, now, Reopened, Day(closedAt / 86400), Text(""))
  }

  lemma ReopenStage(start: seq<Event>, log: seq<Event>, u: string, closedAt: Option<int>, now: int, ok: Event -> bool)
    requires Grows(start, log, ok) && (closedAt.Some? ==> ok(Reopen(u, now, closedAt.value)))
    ensures var end := NoteReopened(log, u, closedAt, now);
            && Grows(start, end, ok) && log <= end
            && (closedAt.Some? ==> Logged(end, Reopen(u, now, closedAt.value)))
  {
    if closedAt.Some? {
      AddStage(start, log, Reopen(u, now, closedAt.value), ok);
    }
  }

  // ----- a listing --------------------------------------------------------------------------

  lemma MoveTells(u: string, now: int, r: Posting, q: Posting)
    requires Moves(r.deadline, q.deadline)
    ensures Tells(Move(u, now, r.deadline, q.deadline), r, q)
  {
    Total(r.deadline, q.deadline);
  }

  lemma SeeTells(r: Posting, p: Listing, now: int, ok: Event -> bool)
    requires ok == Telling(p.url, r, Refreshed(r, p, now), See(p, now))
    ensures Moves(r.deadline, p.deadline) ==> ok(Move(p.url, now, r.deadline, p.deadline))
    ensures Later(r.posted, p.posted) ==> ok(Event(p.url, now, Reposted, Text(r.posted), Text(p.posted)))
    ensures now > r.lastSeen + 864000 ==> ok(Return(p.url, now, r.lastSeen))
    ensures r.closedAt.Some? ==> ok(Reopen(p.url, now, r.closedAt.value))
  {
    if Moves(r.deadline, p.deadline) {
      MoveTells(p.url, now, r, Refreshed(r, p, now));
    }
  }

  lemma MoveKind(was: string, becomes: string)
    ensures Less(was, becomes) ==> DeadlineKind(was, becomes) == DeadlineExtended && was != becomes
    ensures Less(becomes, was) ==> DeadlineKind(was, becomes) == DeadlineShortened && was != becomes
  {
    Irreflexive(was);
    if Less(was, becomes) {
      Asymmetric(was, becomes);
    }
  }

  /** And no other event tells of it. */
  lemma SeeToldOnlyBy(r: Posting, p: Listing, now: int, e: Event)
    requires Telling(p.url, r, Refreshed(r, p, now), See(p, now))(e)
    ensures || (Moves(r.deadline, p.deadline) && e == Move(p.url, now, r.deadline, p.deadline))
            || (Later(r.posted, p.posted) && e == Event(p.url, now, Reposted, Text(r.posted), Text(p.posted)))
            || (now > r.lastSeen + 864000 && e == Return(p.url, now, r.lastSeen))
            || (r.closedAt.Some? && e == Reopen(p.url, now, r.closedAt.value))
  {
    Irreflexive(r.deadline);
    Irreflexive(r.posted);
    MoveKind(r.deadline, p.deadline);
  }

  lemma LoggedInOne(a: seq<Event>, b: seq<Event>, c: seq<Event>, end: seq<Event>, e: Event)
    requires a <= b <= c <= end && (Logged(a, e) || Logged(b, e) || Logged(c, e) || Logged(end, e))
    ensures Logged(end, e)
  {
    if Logged(a, e) {
      StaysLogged(a, end, e);
    } else if Logged(b, e) {
      StaysLogged(b, end, e);
    } else if Logged(c, e) {
      StaysLogged(c, end, e);
    }
  }

  /** The log after a listing: it has grown by events that tell of the change, and every event
      that does is logged. */
  lemma SeeLogged(log: seq<Event>, r: Posting, p: Listing, now: int, ok: Event -> bool)
    requires ok == Telling(p.url, r, Refreshed(r, p, now), See(p, now))
    ensures var end := ListingLog(log, r, p, now);
            Grows(log, end, ok) && forall e: Event :: ok(e) ==> Logged(end, e)
  {
    var u := p.url;
    SeeTells(r, p, now, ok);
    DeadlineStage(log, log, u, r.deadline, p.deadline, now, ok);
    var a := NoteDeadline(log, u, r.deadline, p.deadline, now);
    RepostStage(log, a, u, r.posted, p.posted, now, ok);
    var b := NoteRepost(a, u, r.posted, p.posted, now);
    ReturnStage(log, b, u, r.lastSeen, now, ok);
    var c := NoteReappeared(b, u, r.lastSeen, now);
    ReopenStage(log, c, u, r.closedAt, now, ok);
    var end := ListingLog(log, r, p, now);
    forall e: Event | ok(e) ensures Logged(end, e) {
      SeeToldOnlyBy(r, p, now, e);
      LoggedInOne(a, b, c, end, e);
    }
  }

  // ----- a page check ------------------------------------------------------------------------

  function Head(u: string, now: int, was: Option<int>, becomes: int): Event {
    Event(u, now, Applicants, if was.Some? then Count(was.value) else Text(""), Count(becomes))
  }

  lemma HeadStage(start: seq<Event>, log: seq<Event>, u: string, was: Option<int>, becomes: Option<int>, now: int,
                  ok: Event -> bool)
    requires Grows(start, log, ok) && (becomes.Some? && was != becomes ==> ok(Head(u, now, was, becomes.value)))
    ensures var end := NoteApplicants(log, u, was, becomes, now);
            && Grows(start, end, ok) && log <= end
            && (becomes.Some? && was != becomes ==> Logged(end, Head(u, now, was, becomes.value)))
  {
    if becomes.Some? && was != becomes {
      AddStage(start, log, Head(u, now, was, becomes.value), ok);
    }
  }

  function Pay(u: string, now: int, was: string, becomes: string): Event {
    Event(u, now, if MorePaid(was, becomes) then SalaryUp else SalaryChanged, Text(was), Text(becomes))
  }

  lemma RaisedIsMore(was: string, becomes: string)
    ensures Raised(was, becomes) <==> MorePaid(was, becomes)
  {
  }

  lemma PayStage(start: seq<Event>, log: seq<Event>, u: string, was: string, becomes: string, now: int,
                 ok: Event -> bool)
    requires Grows(start, log, ok) && (Moves(was, becomes) ==> ok(Pay(u, now, was, becomes)))
    ensures var end := NoteSalary(log, u, was, becomes, now);
            && Grows(start, end, ok) && log <= end
            && (Moves(was, becomes) ==> Logged(end, Pay(u, now, was, becomes)))
  {
    RaisedIsMore(was, becomes);
    if Moves(was, becomes) {
      AddStage(start, log, Pay(u, now, was, becomes), ok);
    }
  }

  lemma HeadTells(u: string, now: int, r: Posting, q: Posting)
    requires q.applicants.Some? && r.applicants != q.applicants
    ensures Tells(Head(u, now, r.applicants, q.applicants.value), r, q)
  {
  }

  lemma PayTells(u: string, now: int, r: Posting, q: Posting)
    requires Moves(r.salary, q.salary)
    ensures Tells(Pay(u, now, r.salary, q.salary), r, q)
  {
  }

  lemma PageHeadTells(u: string, r: Posting, g: Page, now: int, late: int, ok: Event -> bool)
    requires ok == Telling(u, r, PageRow(r, g, now), Check(u, g, now, late))
    requires g.applicants.Some? && r.applicants != g.applicants
    ensures ok(Head(u, now, r.applicants, g.applicants.value))
  {
    HeadTells(u, now, r, PageRow(r, g, now));
  }

  lemma PagePayTells(u: string, r: Posting, g: Page, now: int, late: int, ok: Event -> bool)
    requires ok == Telling(u, r, PageRow(r, g, now), Check(u, g, now, late)) && Moves(r.salary, g.salary)
    ensures ok(Pay(u, now, r.salary, g.salary))
  {
    PayTells(u, now, r, PageRow(r, g, now));
  }

  lemma PageMoveTells(u: string, r: Posting, g: Page, now: int, late: int, ok: Event -> bool)
    requires ok == Telling(u, r, PageRow(r, g, now), Check(u, g, now, late)) && Moves(r.deadline, g.validThru)
    ensures ok(Move(u, now, r.deadline, g.validThru))
  {
    MoveTells(u, now, r, PageRow(r, g, now));
  }

  lemma PageRepostTells(u: string, r: Posting, g: Page, now: int, late: int, ok: Event -> bool)
    requires ok == Telling(u, r, PageRow(r, g, now), Check(u, g, now, late)) && Later(r.posted, g.datePosted)
    ensures ok(Event(u, now, Reposted, Text(r.posted), Text(g.datePosted)))
  {
  }

  lemma PageTells(u: string, r: Posting, g: Page, now: int, late: int, ok: Event -> bool)
    requires ok == Telling(u, r, PageRow(r, g, now), Check(u, g, now, late))
    ensures g.applicants.Some? && r.applicants != g.applicants ==> ok(Head(u, now, r.applicants, g.applicants.value))
    ensures Moves(r.salary, g.salary) ==> ok(Pay(u, now, r.salary, g.salary))
    ensures Moves(r.deadline, g.validThru) ==> ok(Move(u, now, r.deadline, g.validThru))
    ensures Later(r.posted, g.datePosted) ==> ok(Event(u, now, Reposted, Text(r.posted), Text(g.datePosted)))
  {
    if g.applicants.Some? && r.applicants != g.applicants {
      PageHeadTells(u, r, g, now, late, ok);
    }
    if Moves(r.salary, g.salary) {
      PagePayTells(u, r, g, now, late, ok);
    }
    if Moves(r.deadline, g.validThru) {
      PageMoveTells(u, r, g, now, late, ok);
    }
    if Later(r.posted, g.datePosted) {
      PageRepostTells(u, r, g, now, late, ok);
    }
  }

  lemma PageToldOnlyBy(u: string, r: Posting, g: Page, now: int, late: int, e: Event)
    requires Telling(u, r, PageRow(r, g, now), Check(u, g, now, late))(e)
    ensures || (g.applicants.Some? && r.applicants != g.applicants
                && e == Head(u, now, r.applicants, g.applicants.value))
            || (Moves(r.salary, g.salary) && e == Pay(u, now, r.salary, g.salary))
            || (Moves(r.deadline, g.validThru) && e == Move(u, now, r.deadline, g.validThru))
            || (Later(r.posted, g.datePosted) && e == Event(u, now, Reposted, Text(r.posted), Text(g.datePosted)))
  {
    Irreflexive(r.deadline);
    Irreflexive(r.posted);
    MoveKind(r.deadline, g.validThru);
  }

  lemma PageLogged(log: seq<Event>, u: string, r: Posting, g: Page, now: int, late: int, ok: Event -> bool)
    requires ok == Telling(u, r, PageRow(r, g, now), Check(u, g, now, late))
    ensures var end := PageLog(log, u, r, g, now);
            Grows(log, end, ok) && forall e: Event :: ok(e) ==> Logged(end, e)
  {
    PageTells(u, r, g, now, late, ok);
    HeadStage(log, log, u, r.applicants, g.applicants, now, ok);
    var a := NoteApplicants(log, u, r.applicants, g.applicants, now);
    PayStage(log, a, u, r.salary, g.salary, now, ok);
    var b := NoteSalary(a, u, r.salary, g.salary, now);
    DeadlineStage(log, b, u, r.deadline, g.validThru, now, ok);
    var c := NoteDeadline(b, u, r.deadline, g.validThru, now);
    RepostStage(log, c, u, r.posted, g.datePosted, now, ok);
    var end := PageLog(log, u, r, g, now);
    forall e: Event | ok(e) ensures Logged(end, e) {
      PageToldOnlyBy(u, r, g, now, late, e);
      LoggedInOne(a, b, c, end, e);
    }
  }

  /** Rows that differ in nothing an event tells of. */
  predicate Alike(r: Posting, q: Posting) {
    && q.deadline == r.deadline && q.posted == r.posted && q.lastSeen == r.lastSeen && q.closedAt == r.closedAt
    && q.applicants == r.applicants && q.salary == r.salary
  }

  lemma NothingTold(e: Event, r: Posting, q: Posting)
    requires Alike(r, q)
    ensures !Tells(e, r, q)
  {
    Irreflexive(r.deadline);
    Irreflexive(r.posted);
  }

  lemma GoneLogged(log: seq<Event>, u: string, r: Posting, g: Page, now: int, late: int, ok: Event -> bool)
    requires var q := r.(checkedAt := Some(now), closedAt := Some(now));
             r.closedAt.None? && ok == Telling(u, r, q, Check(u, g, now, late))
    ensures var end := Add(log, Closing(u, late));
            Grows(log, end, ok) && forall e: Event :: ok(e) ==> Logged(end, e)
  {
    var q := r.(checkedAt := Some(now), closedAt := Some(now));
    AddStage(log, log, Closing(u, late), ok);
    forall e: Event | ok(e) ensures e == Closing(u, late) {
      Irreflexive(r.deadline);
      Irreflexive(r.posted);
    }
  }

  lemma CheckLogged(db: Db, u: string, g: Page, now: int, late: int, ok: Event -> bool)
    requires u in db.rows && Rested(db.rows[u], now)
    requires ok == Telling(u, db.rows[u], Checked(db, u, g, now, late).rows[u], Check(u, g, now, late))
    ensures var end := Checked(db, u, g, now, late).log;
            Grows(db.log, end, ok) && forall e: Event :: ok(e) ==> Logged(end, e)
  {
    if g.failed {
      forall e: Event ensures !ok(e) {
        NothingTold(e, db.rows[u], db.rows[u].(checkedAt := Some(now)));
      }
    } else if g.gone {
      GoneLogged(db.log, u, db.rows[u], g, now, late, ok);
    } else {
      PageLogged(db.log, u, db.rows[u], g, now, late, ok);
    }
  }

  // ----- any operation -----------------------------------------------------------------------

  lemma OpLogged(db: Db, op: Op, ok: Event -> bool)
    requires (op.See? || op.Check?) && Target(op) in db.rows && Target(op) in Apply(db, op).rows
    requires ok == Telling(Target(op), db.rows[Target(op)], Apply(db, op).rows[Target(op)], op)
    ensures Grows(db.log, Apply(db, op).log, ok) && forall e: Event :: ok(e) ==> Logged(Apply(db, op).log, e)
  {
    match op
    case See(p, now) => SeeLogged(db.log, db.rows[p.url], p, now, ok);
    case Check(u, g, now, late) =>
      if Rested(db.rows[u], now) {
        CheckLogged(db, u, g, now, late, ok);
      } else {
        forall e: Event ensures !ok(e) {
          NothingTold(e, db.rows[u], db.rows[u]);
        }
      }
  }

  /** The log grows by events that tell how the operation's posting changed, and every event
      that does is logged: recorded by the operation, or recorded already within the day. */
  lemma EventsTellChanges(db: Db, op: Op)
    requires (op.See? || op.Check?) && Target(op) in db.rows
    ensures var t, u := Apply(db, op), Target(op);
            && u in t.rows && db.log <= t.log
            && (forall i :: |db.log| <= i < |t.log| ==> Telling(u, db.rows[u], t.rows[u], op)(t.log[i]))
            && (forall e: Event :: Telling(u, db.rows[u], t.rows[u], op)(e) ==> Logged(t.log, e))
  {
    OpLogged(db, op, Telling(Target(op), db.rows[Target(op)], Apply(db, op).rows[Target(op)], op));
  }

  /** The other operations change nothing an event tells of, and record nothing: one stores the
      first score, the other hides or restores. */
  lemma OthersTellNothing(db: Db, op: Op, u: string)
    requires (op.Rate? || op.Hide?) && u in db.rows
    ensures var t := Apply(db, op);
            && t.log == db.log && t.rows.Keys == db.rows.Keys && Alike(db.rows[u], t.rows[u])
            && t.rows[u].score ==
                 (if op.Rate? && u == op.url && db.rows[u].score.None? then Some(op.score) else db.rows[u].score)
            && (t.rows[u].hidden <==> if op.Hide? && u == op.url then op.hidden else db.rows[u].hidden)
  {
  }

  // ----- any run -------------------------------------------------------------------------------

  ghost predicate TwoTexts(e: Event) {
    e.was.Text? && e.becomes.Text? && e.was.s != "" && e.becomes.s != "" && e.was != e.becomes
  }

  /** What an event says by itself. */
  ghost predicate Says(e: Event) {
    match e.kind
    case DeadlineExtended => TwoTexts(e) && Less(e.was.s, e.becomes.s)
    case DeadlineShortened => TwoTexts(e) && Less(e.becomes.s, e.was.s)
    case Reposted => TwoTexts(e) && Less(e.was.s, e.becomes.s)
    case Reappeared => e.was.Day? && e.becomes == Day(e.at / 86400) && e.was.n + 10 <= e.becomes.n
    case Reopened => e.was.Day? && e.becomes == Text("")
    case Closed => e.was == e.becomes == Text("")
    case Applicants => e.becomes.Count? && e.was != e.becomes && (e.was.Count? || e.was == Text(""))
    case SalaryUp => TwoTexts(e) && MorePaid(e.was.s, e.becomes.s)
    case SalaryChanged => TwoTexts(e) && !MorePaid(e.was.s, e.becomes.s)
  }

  lemma TellsSays(e: Event, r: Posting, q: Posting)
    requires Tells(e, r, q) && (e.kind == Reappeared ==> q.lastSeen == e.at)
    ensures Says(e)
  {
    Irreflexive(r.deadline);
    Irreflexive(r.posted);
  }

  lemma SeenIsNow(db: Db, op: Op, e: Event)
    requires (op.See? || op.Check?) && Target(op) in db.rows && Target(op) in Apply(db, op).rows
    requires Telling(Target(op), db.rows[Target(op)], Apply(db, op).rows[Target(op)], op)(e)
    ensures Says(e)
  {
    TellsSays(e, db.rows[Target(op)], Apply(db, op).rows[Target(op)]);
  }

  ghost predicate AllSay(log: seq<Event>) {
    forall i :: 0 <= i < |log| ==> Says(log[i])
  }

  lemma OpSays(db: Db, op: Op)
    requires AllSay(db.log)
    ensures AllSay(Apply(db, op).log)
  {
    var t := Apply(db, op);
    if op.Purge? {
      CascadeOnly(db.log, t.rows.Keys);
      forall i | 0 <= i < |t.log| ensures Says(t.log[i]) {
        assert t.log[i] in t.log;
      }
    } else if (op.See? || op.Check?) && Target(op) in db.rows {
      EventsTellChanges(db, op);
      forall i | |db.log| <= i < |t.log| ensures Says(t.log[i]) {
        SeenIsNow(db, op, t.log[i]);
      }
    }
  }

  /** Over any run every event says what its kind says: a date that moved that way, an absence of
      ten days, a raise by more than two per cent, another salary that is no such raise. */
  lemma {:induction false} EventsSay(ops: seq<Op>)
    ensures AllSay(After(ops).log)
  {
    if ops != [] {
      EventsSay(ops[..|ops| - 1]);
      OpSays(After(ops[..|ops| - 1]), ops[|ops| - 1]);
    }
  }

  /** Equal events are at least a day apart. */
  ghost predicate Spaced(log: seq<Event>) {
    forall i, j :: 0 <= i < j < |log| && Same(log[i], log[j]) ==> log[i].at + 86400 <= log[j].at
  }

  lemma AddSpaced(log: seq<Event>, e: Event)
    requires Spaced(log)
    ensures Spaced(Add(log, e))
  {
    if !Repeats(log, e) {
      forall i | 0 <= i < |log| && Same(log[i], e) ensures log[i].at + 86400 <= e.at {
        assert SameEvent(log[i], e);
      }
    }
  }

  lemma SeeSpaced(log: seq<Event>, r: Posting, p: Listing, now: int)
    requires Spaced(log)
    ensures Spaced(ListingLog(log, r, p, now))
  {
    var u := p.url;
    AddSpaced(log, Move(u, now, r.deadline, p.deadline));
    var a := NoteDeadline(log, u, r.deadline, p.deadline, now);
    AddSpaced(a, Event(u, now, Reposted, Text(r.posted), Text(p.posted)));
    var b := NoteRepost(a, u, r.posted, p.posted, now);
    AddSpaced(b, Return(u, now, r.lastSeen));
    var c := NoteReappeared(b, u, r.lastSeen, now);
    if r.closedAt.Some? {
      AddSpaced(c, Reopen(u, now, r.closedAt.value));
    }
  }

  lemma PageSpaced(log: seq<Event>, u: string, r: Posting, g: Page, now: int)
    requires Spaced(log)
    ensures Spaced(PageLog(log, u, r, g, now))
  {
    AddSpaced(log, Event(u, now, Applicants, OptionNote(r.applicants), OptionNote(g.applicants)));
    var a := NoteApplicants(log, u, r.applicants, g.applicants, now);
    RaisedIsMore(r.salary, g.salary);
    AddSpaced(a, Pay(u, now, r.salary, g.salary));
    var b := NoteSalary(a, u, r.salary, g.salary, now);
    AddSpaced(b, Move(u, now, r.deadline, g.validThru));
    var c := NoteDeadline(b, u, r.deadline, g.validThru, now);
    AddSpaced(c, Event(u, now, Reposted, Text(r.posted), Text(g.datePosted)));
  }

  lemma {:induction false} CascadeSpaced(log: seq<Event>, urls: set<string>)
    requires Spaced(log)
    ensures Spaced(Cascade(log, urls))
  {
    if log != [] {
      var front, e := log[..|log| - 1], log[|log| - 1];
      CascadeSpaced(front, urls);
      CascadeOnly(front, urls);
      var c := Cascade(front, urls);
      forall i | 0 <= i < |c| && Same(c[i], e) ensures c[i].at + 86400 <= e.at {
        assert c[i] in c;
        var k :| 0 <= k < |front| && front[k] == c[i];
        assert log[k] == c[i];
      }
    }
  }

  lemma OpSpaced(db: Db, op: Op)
    requires Spaced(db.log)
    ensures Spaced(Apply(db, op).log)
  {
    match op
    case See(p, now) =>
      if p.url in db.rows {
        SeeSpaced(db.log, db.rows[p.url], p, now);
      }
    case Check(u, g, now, late) =>
      if u in db.rows {
        AddSpaced(db.log, Closing(u, late));
        PageSpaced(db.log, u, db.rows[u], g, now);
      }
    case Purge(now) => CascadeSpaced(db.log, Purged(db, now).rows.Keys);
    case _ =>
  }

  /** Over any run no event is recorded twice within a day. */
  lemma {:induction false} EventsAreSpaced(ops: seq<Op>)
    ensures Spaced(After(ops).log)
  {
    if ops != [] {
      EventsAreSpaced(ops[..|ops| - 1]);
      OpSpaced(After(ops[..|ops| - 1]), ops[|ops| - 1]);
    }
  }

  // ----- what stays --------------------------------------------------------------------------------

  /** Nothing known of a posting is forgotten from r to q, and its page is read at most every
      three days, and not while it is closed. */
  ghost predicate Keeps(r: Posting, q: Posting) {
    && (r.deadline != "" ==> q.deadline != "") && (r.salary != "" ==> q.salary != "")
    && (r.posted != "" ==> q.posted != "" && AtMost(r.posted, q.posted)) && (r.reposted ==> q.reposted)
    && (r.applicants.Some? ==> q.applicants.Some?) && (r.score.Some? ==> q.score == r.score)
    && |r.snippet| <= |q.snippet| && q.firstSeen == r.firstSeen
    && (q.checkedAt != r.checkedAt ==>
          && q.checkedAt.Some? && r.closedAt.None?
          && (r.checkedAt.None? || q.checkedAt.value > r.checkedAt.value + 259200))
  }

  lemma LaterIsMore(was: string, becomes: string)
    ensures AtMost(was, was) && (Less(was, becomes) ==> becomes != "" && AtMost(was, becomes))
  {
    Irreflexive(was);
    if Less(was, becomes) {
      Asymmetric(was, becomes);
    }
  }

  lemma KeepsSelf(r: Posting)
    ensures Keeps(r, r)
  {
    LaterIsMore(r.posted, r.posted);
  }

  lemma SeeKeeps(r: Posting, p: Listing, now: int)
    ensures Keeps(r, Refreshed(r, p, now))
  {
    LaterIsMore(r.posted, p.posted);
  }

  lemma CheckKeeps(r: Posting, g: Page, now: int)
    requires Rested(r, now)
    ensures Keeps(r, CheckedRow(r, g, now))
  {
    LaterIsMore(r.posted, g.datePosted);
  }

  lemma OpKeeps(db: Db, op: Op, u: string)
    requires u in db.rows
    ensures u in Apply(db, op).rows ==> Keeps(db.rows[u], Apply(db, op).rows[u])
  {
    var r := db.rows[u];
    KeepsSelf(r);
    match op
    case See(p, now) => SeeKeeps(r, p, now);
    case Check(_, g, now, late) =>
      if Rested(r, now) {
        CheckKeeps(r, g, now);
      }
    case _ =>
  }

  /** A listing marks the posting as seen and open and keeps the longer snippet; a page check marks
      it as checked, and closed exactly if the page is gone; neither hides or scores it. */
  lemma OpUpdates(db: Db, op: Op)
    requires (op.See? || op.Check?) && Target(op) in db.rows && (op.Check? ==> Rested(db.rows[op.url], op.now))
    ensures var u, t := Target(op), Apply(db, op);
            && u in t.rows && t.rows[u].hidden == db.rows[u].hidden && t.rows[u].score == db.rows[u].score
            && (op.See? ==>
                  && t.rows[u].lastSeen == op.now && t.rows[u].closedAt == None
                  && t.rows[u].checkedAt == db.rows[u].checkedAt
                  && t.rows[u].snippet in {db.rows[u].snippet, op.listing.snippet}
                  && |t.rows[u].snippet| >= |op.listing.snippet|)
            && (op.Check? ==>
                  && t.rows[u].checkedAt == Some(op.now) && t.rows[u].lastSeen == db.rows[u].lastSeen
                  && t.rows[u].snippet == db.rows[u].snippet
                  && t.rows[u].closedAt == (if !op.page.failed && op.page.gone then Some(op.now) else None))
  {
  }

  /** A posting that is new to the tables is visible, open, unscored, unchecked and without events. */
  lemma NewIsPlain(db: Db, p: Listing, now: int)
    requires EventsOk(db) && p.url !in db.rows
    ensures var t := Apply(db, See(p, now));
            && t.log == db.log && p.url in t.rows && (forall kinds :: Of(t.log, p.url, kinds) == [])
            && var r := t.rows[p.url];
               && r.score.None? && !r.hidden && !r.reposted && r.closedAt.None? && r.checkedAt.None?
               && r.deadline == p.deadline && r.posted == p.posted && r.firstSeen == r.lastSeen == now
  {
    forall kinds ensures Of(db.log, p.url, kinds) == [] {
      NewHasNone(db, p.url, kinds);
    }
  }

  /** A posting goes only when it was not seen for ninety days and is not scored fifty or more;
      its events go with it, and those of the others stay. */
  lemma OnlyStaleGo(db: Db, op: Op, u: string)
    requires u in db.rows
    ensures u !in Apply(db, op).rows <==>
              && op.Purge? && db.rows[u].lastSeen + 7776000 < op.now
              && (db.rows[u].score.None? || db.rows[u].score.value < 50)
    ensures var t := Apply(db, op);
            forall kinds :: op.Purge? ==> Of(t.log, u, kinds) == if u in t.rows then Of(db.log, u, kinds) else []
  {
    if op.Purge? {
      var t := Apply(db, op);
      forall kinds ensures Of(t.log, u, kinds) == if u in t.rows then Of(db.log, u, kinds) else [] {
        if u in t.rows {
          CascadeKeeps(db.log, t.rows.Keys, u, kinds);
        } else {
          CascadeOnly(db.log, t.rows.Keys);
          forall i | 0 <= i < |t.log| ensures t.log[i].url != u {
            assert t.log[i] in t.log;
          }
          NoEvents(t.log, u, kinds);
        }
      }
    }
  }

  /** Whatever happens, a posting scored fifty or more stays, with its score. */
  lemma {:induction false} WellScoredStay(db: Db, ops: seq<Op>, u: string)
    requires u in db.rows && db.rows[u].score.Some? && db.rows[u].score.value >= 50
    ensures var t := Continue(db, ops); u in t.rows && t.rows[u].score == db.rows[u].score
  {
    if ops != [] {
      var front, op := ops[..|ops| - 1], ops[|ops| - 1];
      WellScoredStay(db, front, u);
      OnlyStaleGo(Continue(db, front), op, u);
      OpKeeps(Continue(db, front), op, u);
    }
  }

  // ----- which pages are read ------------------------------------------------------------------------

  /** Of the visible open postings scored 35 or more whose page was not read for three days, the
      query leaves out one only when the list is full of postings scored at least as high. */
  lemma BestAreRead(list: seq<string>, rows: map<string, Posting>, now: int, limit: nat, u: string)
    requires Answers(list, rows, now, limit) && u in rows
    requires var r := rows[u];
             && r.score.Some? && r.score.value >= 35 && !r.hidden && r.closedAt.None?
             && (r.checkedAt.None? || r.checkedAt.value + 259200 < now)
    ensures u in list || (|list| == limit && forall i :: 0 <= i < |list| ==>
              rows[list[i]].score.Some? && rows[list[i]].score.value >= rows[u].score.value)
  {
    if u !in list {
      assert Due(rows[u], now);
      var rest := set x | x in rows && Due(rows[x], now) && x !in list;
      assert u in rest;
      forall i | 0 <= i < |list| ensures Ahead(rows[list[i]], rows[u]) {
      }
    }
  }

  /** The list is in the order of the scores, and among equal ones the newest come first. */
  lemma BestComeFirst(list: seq<string>, rows: map<string, Posting>, now: int, limit: nat, i: nat, j: nat)
    requires Answers(list, rows, now, limit) && i < j < |list|
    ensures var r, q := rows[list[i]], rows[list[j]];
            && r.score.Some? && q.score.Some? && r.score.value >= q.score.value >= 35
            && (r.score == q.score ==> r.firstSeen >= q.firstSeen)
  {
  }
}
