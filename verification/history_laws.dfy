/** What every run of the operations on the two tables keeps: the histories of a posting
    against its row. */
module HistoryLaws {
  import opened Basics
  import opened History
  import opened TextOrder

  /** The event of a "gone" check is recorded at most this long after its row was
      updated: the check interval less the suppression window. */
  predicate Timely(op: Op) {
    op.Check? ==> op.now <= op.late <= op.now + MAX_DELAY
  }

  // ----- the events of a posting ---------------------------------------------------------------

  /** The events of one posting with one of the given kinds, in recording order. */
  function Of(log: seq<Event>, url: string, kinds: set<Kind>): (es: seq<Event>)
    ensures forall k :: 0 <= k < |es| ==> es[k] in log && es[k].url == url && es[k].kind in kinds
  {
    if log == [] then [] else
      var front, e := Of(log[..|log| - 1], url, kinds), log[|log| - 1];
      assert log == log[..|log| - 1] + [e];
      if e.url == url && e.kind in kinds then front + [e] else front
  }

  lemma {:induction false} OfHasAll(log: seq<Event>, url: string, kinds: set<Kind>, i: nat)
    requires i < |log| && log[i].url == url && log[i].kind in kinds
    ensures log[i] in Of(log, url, kinds)
  {
    var front := log[..|log| - 1];
    if i < |front| {
      OfHasAll(front, url, kinds, i);
    } else {
      assert Of(log, url, kinds)[|Of(front, url, kinds)|] == log[i];
    }
  }

  lemma AddOther(log: seq<Event>, e: Event, url: string, kinds: set<Kind>)
    requires e.url != url || e.kind !in kinds
    ensures Of(Add(log, e), url, kinds) == Of(log, url, kinds)
  {
    assert (log + [e])[..|log|] == log;
  }

  lemma AddNew(log: seq<Event>, e: Event, url: string, kinds: set<Kind>)
    requires e.url == url && e.kind in kinds
    requires forall x :: x in Of(log, url, kinds) && SameEvent(x, e) ==> x.at <= e.at - DAY
    ensures Add(log, e) == log + [e]
    ensures Of(Add(log, e), url, kinds) == Of(log, url, kinds) + [e]
  {
    assert (log + [e])[..|log|] == log;
    if Repeats(log, e) {
      var i :| 0 <= i < |log| && SameEvent(log[i], e) && log[i].at > e.at - DAY;
      OfHasAll(log, url, kinds, i);
      assert false;
    }
  }

  const REPOSTS := {Reposted}
  const TOGGLES := {Closed, Reopened}
  const MOVES := {DeadlineExtended, DeadlineShortened}

  /** An event with one of the kinds repeats if one of the posting's events of these kinds does. */
  lemma RepeatsOf(log: seq<Event>, e: Event, kinds: set<Kind>)
    requires e.kind in kinds
    ensures Repeats(log, e) <==>
              exists x :: x in Of(log, e.url, kinds) && SameEvent(x, e) && x.at > e.at - DAY
  {
    var es := Of(log, e.url, kinds);
    if Repeats(log, e) {
      var i :| 0 <= i < |log| && SameEvent(log[i], e) && log[i].at > e.at - DAY;
      OfHasAll(log, e.url, kinds, i);
    }
    if x :| x in es && SameEvent(x, e) && x.at > e.at - DAY {
      var k :| 0 <= k < |es| && es[k] == x;
      assert x in log;
    }
  }

  /** The reposted events: strictly increasing dates, each link starting where the one
      before ended, the last one ending at the stored posted date. */
  ghost predicate Chain(es: seq<Event>, posted: string) {
    && (forall k :: 0 <= k < |es| ==>
          es[k].was.Text? && es[k].becomes.Text? && es[k].was.s != "" && Less(es[k].was.s, es[k].becomes.s))
    && (forall k :: 0 < k < |es| ==> es[k].was == es[k - 1].becomes)
    && (es != [] ==> es[|es| - 1].becomes == Text(posted))
  }

  lemma {:induction false} ChainBelow(es: seq<Event>, posted: string, k: nat)
    requires Chain(es, posted) && k < |es|
    ensures AtMost(es[k].becomes.s, posted)
    decreases |es| - k
  {
    if k == |es| - 1 {
      Irreflexive(posted);
    } else {
      ChainBelow(es, posted, k + 1);
      Asymmetric(es[k + 1].was.s, es[k + 1].becomes.s);
      AtMostTransitive(es[k].becomes.s, es[k + 1].becomes.s, posted);
    }
  }

  /** A later posted date always makes a new link: it cannot repeat an old one. */
  lemma ChainGrows(log: seq<Event>, url: string, posted: string, later: string, now: int)
    requires Chain(Of(log, url, REPOSTS), posted) && posted != "" && Less(posted, later)
    ensures var e := Event(url, now, Reposted, Text(posted), Text(later));
            Of(Add(log, e), url, REPOSTS) == Of(log, url, REPOSTS) + [e]
    ensures var e := Event(url, now, Reposted, Text(posted), Text(later));
            Chain(Of(Add(log, e), url, REPOSTS), later)
  {
    var es := Of(log, url, REPOSTS);
    var e := Event(url, now, Reposted, Text(posted), Text(later));
    forall x | x in es ensures !SameEvent(x, e) {
      var k :| 0 <= k < |es| && es[k] == x;
      ChainBelow(es, posted, k);
    }
    AddNew(log, e, url, REPOSTS);
  }

  /** The closed/reopened events of a posting: they alternate, starting with closed,
      and the posting is closed now exactly when the last one is closed. */
  ghost predicate Toggled(es: seq<Event>, r: Posting) {
    && (forall k :: 0 <= k < |es| ==> es[k].kind == if k % 2 == 0 then Closed else Reopened)
    && (r.closedAt.Some? <==> |es| % 2 == 1)
    && (es != [] ==> r.checkedAt.Some?)
    && (r.closedAt.Some? ==> r.closedAt.value <= r.checkedAt.value)
    && (forall k :: 0 <= k < |es| && es[k].kind == Reopened ==>
          es[k].was.Day?
          && if r.closedAt.Some? then es[k].was.n < DayOf(r.closedAt.value) else es[k].was.n <= DayOf(r.checkedAt.value))
  }

  /** Every closing was recorded soon after the check that found it. */
  ghost predicate Prompt(es: seq<Event>, r: Posting) {
    && (es != [] ==> r.checkedAt.Some?)
    && forall k :: 0 <= k < |es| && es[k].kind == Closed ==> es[k].at <= r.checkedAt.value + MAX_DELAY
  }

  /** The reposted events form a chain that ends at the stored date, and the flag is set
      exactly when there are any. */
  ghost predicate Reposts(es: seq<Event>, r: Posting) {
    Chain(es, r.posted) && (r.reposted <==> es != []) && (es != [] ==> r.posted != "")
  }

  /** Every deadline event starts where the one before ended; the last ended at d. */
  ghost predicate MoveChain(es: seq<Event>, d: string) {
    && (forall k :: 0 < k < |es| ==> es[k].was == es[k - 1].becomes)
    && (es != [] ==> es[|es| - 1].becomes == Text(d))
  }

  /** The deadline events lead up to the stored deadline. */
  ghost predicate Moved(es: seq<Event>, r: Posting) {
    MoveChain(es, r.deadline) && (es != [] ==> r.deadline != "")
  }

  type Agreement = (seq<Event>, Posting) -> bool

  ghost const REPOSTED: Agreement := (es, r) => Reposts(es, r)
  ghost const TOGGLED: Agreement := (es, r) => Toggled(es, r)
  ghost const PROMPT: Agreement := (es, r) => Prompt(es, r)
  ghost const MOVED: Agreement := (es, r) => Moved(es, r)

  /** Every row agrees with its posting's events of the given kinds. */
  ghost predicate Rows(db: Db, kinds: set<Kind>, ok: Agreement) {
    forall u :: u in db.rows ==> ok(Of(db.log, u, kinds), db.rows[u])
  }

  /** Deadline events say which way the date moved. */
  ghost predicate DeadlineMoves(e: Event) {
    e.kind in {DeadlineExtended, DeadlineShortened} ==>
      && e.was.Text? && e.becomes.Text? && e.was.s != "" && e.becomes.s != ""
      && if e.kind == DeadlineExtended then Less(e.was.s, e.becomes.s) else Less(e.becomes.s, e.was.s)
  }

  /** The log speaks of stored postings, and its deadline events say the right thing. */
  ghost predicate EventsOk(db: Db) {
    forall i :: 0 <= i < |db.log| ==> db.log[i].url in db.rows && DeadlineMoves(db.log[i])
  }

  /** A fresh event joins the posting's events of its kind. */
  lemma Appends(log: seq<Event>, e: Event, kinds: set<Kind>)
    requires e.kind in kinds && !Repeats(log, e)
    ensures Of(Add(log, e), e.url, kinds) == Of(log, e.url, kinds) + [e]
  {
    assert (log + [e])[..|log|] == log;
  }

  // ----- what one operation touches -----------------------------------------------------------

  /** `now` is `log` plus well-formed events of one posting. */
  ghost predicate Extends(log: seq<Event>, now: seq<Event>, url: string) {
    && log <= now
    && (forall u, kinds :: u != url ==> Of(now, u, kinds) == Of(log, u, kinds))
    && (forall i :: |log| <= i < |now| ==> now[i].url == url && DeadlineMoves(now[i]))
  }

  /** `now` extends `start`, and of the posting's events in `log` only ones of the given
      kinds have joined. */
  ghost predicate Touches(start: seq<Event>, log: seq<Event>, now: seq<Event>, url: string, kinds: set<Kind>) {
    Extends(start, now, url) && forall ks: set<Kind> :: ks !! kinds ==> Of(now, url, ks) == Of(log, url, ks)
  }

  lemma AddTouches(start: seq<Event>, log: seq<Event>, e: Event, kinds: set<Kind>)
    requires Extends(start, log, e.url) && DeadlineMoves(e) && e.kind in kinds
    ensures Touches(start, log, Add(log, e), e.url, kinds)
  {
    forall u, ks: set<Kind> | u != e.url ensures Of(Add(log, e), u, ks) == Of(start, u, ks) {
      AddOther(log, e, u, ks);
    }
    forall ks: set<Kind> | ks !! kinds ensures Of(Add(log, e), e.url, ks) == Of(log, e.url, ks) {
      AddOther(log, e, e.url, ks);
    }
  }

  function Move(url: string, now: int, was: string, becomes: string): Event {
    Event(url, now, DeadlineKind(was, becomes), Text(was), Text(becomes))
  }

  lemma MoveMoves(url: string, now: int, was: string, becomes: string)
    requires was != "" && becomes != "" && was != becomes
    ensures DeadlineMoves(Move(url, now, was, becomes)) && Move(url, now, was, becomes).kind in MOVES
  {
    Total(was, becomes);
  }

  lemma DeadlineTouches(start: seq<Event>, log: seq<Event>, url: string, was: string, becomes: string, now: int)
    requires Extends(start, log, url)
    ensures Touches(start, log, NoteDeadline(log, url, was, becomes, now), url, MOVES)
  {
    if becomes != "" && was != "" && becomes != was {
      MoveMoves(url, now, was, becomes);
      AddTouches(start, log, Move(url, now, was, becomes), MOVES);
    }
  }

  lemma RepostTouches(start: seq<Event>, log: seq<Event>, url: string, was: string, becomes: string, now: int)
    requires Extends(start, log, url)
    ensures Touches(start, log, NoteRepost(log, url, was, becomes, now), url, REPOSTS)
  {
    AddTouches(start, log, Event(url, now, Reposted, Text(was), Text(becomes)), REPOSTS);
  }

  lemma ReappearedTouches(start: seq<Event>, log: seq<Event>, url: string, lastSeen: int, now: int)
    requires Extends(start, log, url)
    ensures Touches(start, log, NoteReappeared(log, url, lastSeen, now), url, {Reappeared})
  {
    AddTouches(start, log, Event(url, now, Reappeared, Day(DayOf(lastSeen)), Day(DayOf(now))), {Reappeared});
  }

  lemma ReopenedTouches(start: seq<Event>, log: seq<Event>, url: string, closedAt: Option<int>, now: int)
    requires Extends(start, log, url)
    ensures Touches(start, log, NoteReopened(log, url, closedAt, now), url, TOGGLES)
  {
    if closedAt.Some? {
      AddTouches(start, log, Event(url, now, Reopened, Day(DayOf(closedAt.value)), Text("")), TOGGLES);
    }
  }

  lemma FiguresTouch(start: seq<Event>, log: seq<Event>, url: string, r: Posting, g: Page, now: int)
    requires Extends(start, log, url)
    ensures var a := NoteApplicants(log, url, r.applicants, g.applicants, now);
            Touches(start, log, NoteSalary(a, url, r.salary, g.salary, now), url, {Applicants, SalaryUp, SalaryChanged})
  {
    var kinds := {Applicants, SalaryUp, SalaryChanged};
    var a := NoteApplicants(log, url, r.applicants, g.applicants, now);
    AddTouches(start, log, Event(url, now, Applicants, OptionNote(r.applicants), OptionNote(g.applicants)), kinds);
    AddTouches(start, a, Event(url, now, SalaryUp, Text(r.salary), Text(g.salary)), kinds);
    AddTouches(start, a, Event(url, now, SalaryChanged, Text(r.salary), Text(g.salary)), kinds);
  }

  lemma KindsApart()
    ensures MOVES !! REPOSTS && MOVES !! TOGGLES && REPOSTS !! TOGGLES
    ensures {Reappeared} !! MOVES + REPOSTS + TOGGLES
    ensures {Applicants, SalaryUp, SalaryChanged} !! MOVES + REPOSTS + TOGGLES
  {
  }

  lemma NotTouched(start: seq<Event>, log: seq<Event>, now: seq<Event>, url: string, kinds: set<Kind>, ks: set<Kind>)
    requires Touches(start, log, now, url, kinds) && ks !! kinds
    ensures Of(now, url, ks) == Of(log, url, ks)
  {
  }

  /** Which stage of Upsert's events decides about which history. */
  lemma ListingTouches(log: seq<Event>, r: Posting, p: Listing, now: int)
    ensures var u, end := p.url, ListingLog(log, r, p, now);
            var a := NoteDeadline(log, u, r.deadline, p.deadline, now);
            var b := NoteRepost(a, u, r.posted, p.posted, now);
            var c := NoteReappeared(b, u, r.lastSeen, now);
            && Extends(log, end, u)
            && Of(end, u, MOVES) == Of(a, u, MOVES)
            && Of(a, u, REPOSTS) == Of(log, u, REPOSTS) && Of(end, u, REPOSTS) == Of(b, u, REPOSTS)
            && Of(c, u, TOGGLES) == Of(log, u, TOGGLES)
  {
    var u := p.url;
    KindsApart();
    DeadlineTouches(log, log, u, r.deadline, p.deadline, now);
    var a := NoteDeadline(log, u, r.deadline, p.deadline, now);
    NotTouched(log, log, a, u, MOVES, REPOSTS);
    NotTouched(log, log, a, u, MOVES, TOGGLES);
    RepostTouches(log, a, u, r.posted, p.posted, now);
    var b := NoteRepost(a, u, r.posted, p.posted, now);
    NotTouched(log, a, b, u, REPOSTS, MOVES);
    NotTouched(log, a, b, u, REPOSTS, TOGGLES);
    LateStages(log, b, r, p, now);
  }

  lemma LateStages(start: seq<Event>, b: seq<Event>, r: Posting, p: Listing, now: int)
    requires Extends(start, b, p.url)
    ensures var u := p.url;
            var c := NoteReappeared(b, u, r.lastSeen, now);
            var end := NoteReopened(c, u, r.closedAt, now);
            && Extends(start, end, u)
            && Of(c, u, TOGGLES) == Of(b, u, TOGGLES)
            && Of(end, u, MOVES) == Of(b, u, MOVES) && Of(end, u, REPOSTS) == Of(b, u, REPOSTS)
  {
    var u := p.url;
    KindsApart();
    ReappearedTouches(start, b, u, r.lastSeen, now);
    var c := NoteReappeared(b, u, r.lastSeen, now);
    NotTouched(start, b, c, u, {Reappeared}, MOVES);
    NotTouched(start, b, c, u, {Reappeared}, REPOSTS);
    NotTouched(start, b, c, u, {Reappeared}, TOGGLES);
    ReopenedTouches(start, c, u, r.closedAt, now);
    var end := NoteReopened(c, u, r.closedAt, now);
    NotTouched(start, c, end, u, TOGGLES, MOVES);
    NotTouched(start, c, end, u, TOGGLES, REPOSTS);
  }

  /** The same for a page that was read. */
  lemma PageTouches(log: seq<Event>, url: string, r: Posting, g: Page, now: int)
    ensures var end := PageLog(log, url, r, g, now);
            var b := NoteSalary(NoteApplicants(log, url, r.applicants, g.applicants, now), url, r.salary, g.salary, now);
            var c := NoteDeadline(b, url, r.deadline, g.validThru, now);
            && Extends(log, end, url)
            && Of(b, url, MOVES) == Of(log, url, MOVES) && Of(end, url, MOVES) == Of(c, url, MOVES)
            && Of(c, url, REPOSTS) == Of(log, url, REPOSTS)
            && Of(end, url, TOGGLES) == Of(log, url, TOGGLES)
  {
    var figures := {Applicants, SalaryUp, SalaryChanged};
    KindsApart();
    FiguresTouch(log, log, url, r, g, now);
    var b := NoteSalary(NoteApplicants(log, url, r.applicants, g.applicants, now), url, r.salary, g.salary, now);
    NotTouched(log, log, b, url, figures, MOVES);
    NotTouched(log, log, b, url, figures, REPOSTS);
    NotTouched(log, log, b, url, figures, TOGGLES);
    DateStages(log, b, url, r, g, now);
  }

  lemma DateStages(start: seq<Event>, b: seq<Event>, url: string, r: Posting, g: Page, now: int)
    requires Extends(start, b, url)
    ensures var c := NoteDeadline(b, url, r.deadline, g.validThru, now);
            var end := NoteRepost(c, url, r.posted, g.datePosted, now);
            && Extends(start, end, url)
            && Of(end, url, MOVES) == Of(c, url, MOVES) && Of(c, url, REPOSTS) == Of(b, url, REPOSTS)
            && Of(end, url, TOGGLES) == Of(b, url, TOGGLES)
  {
    KindsApart();
    DeadlineTouches(start, b, url, r.deadline, g.validThru, now);
    var c := NoteDeadline(b, url, r.deadline, g.validThru, now);
    NotTouched(start, b, c, url, MOVES, REPOSTS);
    NotTouched(start, b, c, url, MOVES, TOGGLES);
    RepostTouches(start, c, url, r.posted, g.datePosted, now);
    var end := NoteRepost(c, url, r.posted, g.datePosted, now);
    NotTouched(start, c, end, url, REPOSTS, MOVES);
    NotTouched(start, c, end, url, REPOSTS, TOGGLES);
  }

  function Closing(url: string, at: int): Event {
    Event(url, at, Closed, Text(""), Text(""))
  }

  lemma GoneTouches(log: seq<Event>, url: string, late: int)
    ensures Touches(log, log, Add(log, Closing(url, late)), url, TOGGLES)
  {
    AddTouches(log, log, Closing(url, late), TOGGLES);
  }

  /** The posting an operation is about. */
  function Target(op: Op): string
    requires !op.Purge?
  {
    match op case See(p, _) => p.url case Check(u, _, _, _) => u case Rate(u, _) => u case Hide(u, _) => u
  }

  lemma CheckTouches(db: Db, url: string, g: Page, now: int, late: int)
    requires url in db.rows
    ensures Extends(db.log, Checked(db, url, g, now, late).log, url)
  {
    if !g.failed && g.gone {
      GoneTouches(db.log, url, late);
    } else if !g.failed {
      PageTouches(db.log, url, db.rows[url], g, now);
    }
  }

  /** Of the rows and the log only what belongs to the target can change. */
  lemma OpTouchesOne(db: Db, op: Op)
    requires !op.Purge?
    ensures var t, u := Apply(db, op), Target(op);
            && Extends(db.log, t.log, u)
            && (forall v :: v != u ==> (v in t.rows <==> v in db.rows) && (v in t.rows ==> t.rows[v] == db.rows[v]))
            && (u in db.rows ==> u in t.rows) && (u !in t.rows ==> t == db) && (u !in db.rows ==> t.log == db.log)
  {
    match op
    case See(p, now) =>
      if p.url in db.rows {
        ListingTouches(db.log, db.rows[p.url], p, now);
      }
    case Check(u, g, now, late) =>
      if u in db.rows {
        CheckTouches(db, u, g, now, late);
      }
    case _ =>
  }

  lemma {:induction false} NoEvents(log: seq<Event>, url: string, kinds: set<Kind>)
    requires forall i :: 0 <= i < |log| ==> log[i].url != url
    ensures Of(log, url, kinds) == []
  {
    if log != [] {
      NoEvents(log[..|log| - 1], url, kinds);
    }
  }

  lemma {:induction false} CascadeKeeps(log: seq<Event>, urls: set<string>, url: string, kinds: set<Kind>)
    requires url in urls
    ensures Of(Cascade(log, urls), url, kinds) == Of(log, url, kinds)
    ensures forall e :: e in Cascade(log, urls) ==> e in log && e.url in urls
  {
    if log != [] {
      var front, e := log[..|log| - 1], log[|log| - 1];
      assert log == front + [e];
      CascadeKeeps(front, urls, url, kinds);
      assert (Cascade(front, urls) + [e])[..|Cascade(front, urls)|] == Cascade(front, urls);
    }
  }

  lemma {:induction false} CascadeOnly(log: seq<Event>, urls: set<string>)
    ensures forall e :: e in Cascade(log, urls) ==> e in log && e.url in urls
  {
    if log != [] {
      CascadeOnly(log[..|log| - 1], urls);
      assert log == log[..|log| - 1] + [log[|log| - 1]];
    }
  }

  lemma CascadeKeepsEvents(db: Db, urls: set<string>)
    requires forall i :: 0 <= i < |db.log| ==> DeadlineMoves(db.log[i])
    ensures var log := Cascade(db.log, urls);
            forall i :: 0 <= i < |log| ==> log[i].url in urls && DeadlineMoves(log[i])
  {
    var log := Cascade(db.log, urls);
    CascadeOnly(db.log, urls);
    forall i | 0 <= i < |log| ensures log[i].url in urls && DeadlineMoves(log[i]) {
      assert log[i] in log;
    }
  }

  lemma OpKeepsEvents(db: Db, op: Op)
    requires EventsOk(db)
    ensures EventsOk(Apply(db, op))
  {
    if op.Purge? {
      var t := Purged(db, op.now);
      CascadeKeepsEvents(db, t.rows.Keys);
      assert t.log == Cascade(db.log, t.rows.Keys);
    } else {
      OpTouchesOne(db, op);
    }
  }

  /** The rows of other postings agree with their events as before. */
  lemma OpKeepsRows(db: Db, op: Op, kinds: set<Kind>, ok: Agreement)
    requires Rows(db, kinds, ok)
    requires !op.Purge? && Target(op) in Apply(db, op).rows ==>
               ok(Of(Apply(db, op).log, Target(op), kinds), Apply(db, op).rows[Target(op)])
    ensures Rows(Apply(db, op), kinds, ok)
  {
    var t := Apply(db, op);
    forall v | v in t.rows ensures ok(Of(t.log, v, kinds), t.rows[v]) {
      if op.Purge? {
        CascadeKeeps(db.log, t.rows.Keys, v, kinds);
      } else if v != Target(op) {
        OpTouchesOne(db, op);
      }
    }
  }

  /** A posting without a row has no events. */
  lemma NewHasNone(db: Db, url: string, kinds: set<Kind>)
    requires EventsOk(db) && url !in db.rows
    ensures Of(db.log, url, kinds) == []
  {
    NoEvents(db.log, url, kinds);
  }

  // ----- reposted ---------------------------------------------------------------------------------

  /** Recording a posted date as Upsert and the page check do keeps the chain. */
  lemma RepostKeeps(log: seq<Event>, url: string, r: Posting, becomes: string, now: int, q: Posting)
    requires Reposts(Of(log, url, REPOSTS), r)
    requires Later(r.posted, becomes) ==> q.posted == becomes && q.reposted
    requires !Later(r.posted, becomes) ==> q.reposted == r.reposted && (q.posted == r.posted || r.posted == "")
    ensures Reposts(Of(NoteRepost(log, url, r.posted, becomes, now), url, REPOSTS), q)
  {
    if Later(r.posted, becomes) {
      ChainGrows(log, url, r.posted, becomes, now);
    }
  }

  lemma OpKeepsReposts(db: Db, op: Op)
    requires EventsOk(db) && Rows(db, REPOSTS, REPOSTED)
    ensures Rows(Apply(db, op), REPOSTS, REPOSTED)
  {
    var t := Apply(db, op);
    if !op.Purge? && Target(op) in t.rows {
      TargetReposts(db, op);
    }
    OpKeepsRows(db, op, REPOSTS, REPOSTED);
  }

  lemma TargetReposts(db: Db, op: Op)
    requires EventsOk(db) && Rows(db, REPOSTS, REPOSTED) && !op.Purge? && Target(op) in Apply(db, op).rows
    ensures Reposts(Of(Apply(db, op).log, Target(op), REPOSTS), Apply(db, op).rows[Target(op)])
  {
    var u := Target(op);
    if u !in db.rows {
      NewHasNone(db, u, REPOSTS);
    } else {
      var r := db.rows[u];
      assert REPOSTED(Of(db.log, u, REPOSTS), r);
      match op
      case See(p, now) =>
        ListingTouches(db.log, r, p, now);
        RepostKeeps(NoteDeadline(db.log, u, r.deadline, p.deadline, now), u, r, p.posted, now, Refreshed(r, p, now));
      case Check(_, g, now, late) => CheckReposts(db, u, g, now, late);
      case _ =>
    }
  }

  lemma CheckReposts(db: Db, url: string, g: Page, now: int, late: int)
    requires url in db.rows && Reposts(Of(db.log, url, REPOSTS), db.rows[url])
    ensures var t := Checked(db, url, g, now, late); Reposts(Of(t.log, url, REPOSTS), t.rows[url])
  {
    var r := db.rows[url];
    if !g.failed && g.gone {
      KindsApart();
      GoneTouches(db.log, url, late);
      NotTouched(db.log, db.log, Add(db.log, Closing(url, late)), url, TOGGLES, REPOSTS);
    } else if !g.failed {
      var b := NoteSalary(NoteApplicants(db.log, url, r.applicants, g.applicants, now), url, r.salary, g.salary, now);
      PageTouches(db.log, url, r, g, now);
      RepostKeeps(NoteDeadline(b, url, r.deadline, g.validThru, now), url, r, g.datePosted, now, PageRow(r, g, now));
    }
  }

  /** What needs no assumption on the times of a run. */
  ghost predicate Recorded(db: Db) {
    EventsOk(db) && Rows(db, REPOSTS, REPOSTED)
  }

  /** Over any run whatever: every deadline event says which way the date moved, the
      reposted events of every posting form an increasing chain up to its stored date, and
      its flag is set exactly when there are any. */
  lemma {:induction false} RunsAreRecorded(ops: seq<Op>)
    ensures Recorded(After(ops))
  {
    if ops != [] {
      var db, op := After(ops[..|ops| - 1]), ops[|ops| - 1];
      RunsAreRecorded(ops[..|ops| - 1]);
      OpKeepsEvents(db, op);
      OpKeepsReposts(db, op);
    }
  }

  // ----- when an operation's event is recorded -------------------------------------------------

  /** Every prefix of the run leaves rows that agree with their events of these kinds. */
  ghost predicate Throughout(ops: seq<Op>, kinds: set<Kind>, ok: Agreement) {
    forall k :: 0 <= k <= |ops| ==> Rows(After(ops[..k]), kinds, ok)
  }

  /** Every operation finds what it wants to record fresh. */
  ghost predicate AllFresh(ops: seq<Op>, guard: (Db, Op) -> bool) {
    forall k :: 0 <= k < |ops| ==> guard(After(ops[..k]), ops[k])
  }

  /** What an operation keeps exactly when its event is fresh, a run keeps throughout
      exactly when all its events are. */
  lemma FreshExactly(ops: seq<Op>, kinds: set<Kind>, ok: Agreement, guard: (Db, Op) -> bool)
    requires forall db, op :: EventsOk(db) && Rows(db, kinds, ok) ==>
               (Rows(Apply(db, op), kinds, ok) <==> guard(db, op))
    ensures Throughout(ops, kinds, ok) <==> AllFresh(ops, guard)
  {
    Prefixes(ops);
    if AllFresh(ops, guard) {
      for k := 0 to |ops|
        invariant forall j :: 0 <= j <= k ==> Rows(After(ops[..j]), kinds, ok)
      {
        RunsAreRecorded(ops[..k]);
        assert guard(After(ops[..k]), ops[k]);
      }
    }
    if Throughout(ops, kinds, ok) {
      forall k | 0 <= k < |ops| ensures guard(After(ops[..k]), ops[k]) {
        RunsAreRecorded(ops[..k]);
        assert Rows(After(ops[..k + 1]), kinds, ok);
      }
    }
  }

  /** The state after a prefix, one operation at a time. */
  lemma Prefixes(ops: seq<Op>)
    ensures ops[..|ops|] == ops
    ensures forall k :: 0 <= k < |ops| ==> After(ops[..k + 1]) == Apply(After(ops[..k]), ops[k])
  {
    forall k | 0 <= k < |ops| ensures After(ops[..k + 1]) == Apply(After(ops[..k]), ops[k]) {
      assert ops[..k + 1][..k] == ops[..k];
    }
  }

  // ----- closed and reopened ----------------------------------------------------------------------

  /** A closing the operation wants to record has not been recorded within a day. */
  ghost predicate ClosingFresh(db: Db, op: Op) {
    op.Check? && op.url in db.rows && Rested(db.rows[op.url], op.now) && !op.page.failed && op.page.gone ==>
      !Repeats(db.log, Closing(op.url, op.late))
  }

  ghost const CLOSING_FRESH: (Db, Op) -> bool := (db, op) => ClosingFresh(db, op)

  lemma ToggledOnce(es: seq<Event>, r: Posting, now: int, e: Event)
    requires Toggled(es, r) && Rested(r, now) && e.kind == Closed
    ensures var q := r.(checkedAt := Some(now), closedAt := Some(now)); Toggled(es + [e], q) && !Toggled(es, q)
  {
    var after := es + [e];
    assert forall k :: 0 <= k < |es| ==> after[k] == es[k];
  }

  /** A page found gone keeps the alternation exactly when its event is recorded. */
  lemma GoneToggles(log: seq<Event>, url: string, r: Posting, now: int, late: int)
    requires Toggled(Of(log, url, TOGGLES), r) && Rested(r, now)
    ensures var q := r.(checkedAt := Some(now), closedAt := Some(now));
            Toggled(Of(Add(log, Closing(url, late)), url, TOGGLES), q) <==> !Repeats(log, Closing(url, late))
  {
    var e := Closing(url, late);
    ToggledOnce(Of(log, url, TOGGLES), r, now, e);
    if !Repeats(log, e) {
      Appends(log, e, TOGGLES);
    }
  }

  /** A closed posting that is listed again is always recorded: its closing day is new. */
  lemma ReopeningRecorded(log: seq<Event>, url: string, r: Posting, now: int)
    requires Toggled(Of(log, url, TOGGLES), r)
    ensures Toggled(Of(NoteReopened(log, url, r.closedAt, now), url, TOGGLES), r.(closedAt := None))
  {
    if r.closedAt.Some? {
      var es, e := Of(log, url, TOGGLES), Event(url, now, Reopened, Day(DayOf(r.closedAt.value)), Text(""));
      AddNew(log, e, url, TOGGLES);
      ReopenedOnce(es, r, e);
    }
  }

  lemma ReopenedOnce(es: seq<Event>, r: Posting, e: Event)
    requires Toggled(es, r) && r.closedAt.Some? && e.kind == Reopened && e.was == Day(DayOf(r.closedAt.value))
    ensures Toggled(es + [e], r.(closedAt := None))
  {
    var after := es + [e];
    assert forall k :: 0 <= k < |es| ==> after[k] == es[k];
  }

  lemma SameTogglesOf(es: seq<Event>, r: Posting, q: Posting)
    requires Toggled(es, r) && r.closedAt == q.closedAt && r.checkedAt == q.checkedAt
    ensures Toggled(es, q)
  {
  }

  lemma CheckedLater(es: seq<Event>, r: Posting, q: Posting, now: int)
    requires Toggled(es, r) && Rested(r, now) && q.checkedAt == Some(now) && q.closedAt == None
    ensures Toggled(es, q)
  {
  }

  lemma TargetToggles(db: Db, op: Op)
    requires EventsOk(db) && Rows(db, TOGGLES, TOGGLED) && !op.Purge? && Target(op) in Apply(db, op).rows
    ensures Toggled(Of(Apply(db, op).log, Target(op), TOGGLES), Apply(db, op).rows[Target(op)]) <==> ClosingFresh(db, op)
  {
    var u := Target(op);
    if u !in db.rows {
      NewHasNone(db, u, TOGGLES);
    } else {
      var r := db.rows[u];
      assert TOGGLED(Of(db.log, u, TOGGLES), r);
      match op
      case See(p, now) => SeeToggles(db.log, r, p, now);
      case Check(_, g, now, late) =>
        if Rested(r, now) {
          CheckToggles(db, u, g, now, late);
        }
      case Rate(_, _) => SameTogglesOf(Of(db.log, u, TOGGLES), r, Apply(db, op).rows[u]);
      case Hide(_, _) => SameTogglesOf(Of(db.log, u, TOGGLES), r, Apply(db, op).rows[u]);
      case Purge(_) =>
    }
  }

  lemma SeeToggles(log: seq<Event>, r: Posting, p: Listing, now: int)
    requires Toggled(Of(log, p.url, TOGGLES), r)
    ensures Toggled(Of(ListingLog(log, r, p, now), p.url, TOGGLES), Refreshed(r, p, now))
  {
    var u := p.url;
    var b := NoteRepost(NoteDeadline(log, u, r.deadline, p.deadline, now), u, r.posted, p.posted, now);
    var c := NoteReappeared(b, u, r.lastSeen, now);
    ListingTouches(log, r, p, now);
    ReopeningRecorded(c, u, r, now);
    SameTogglesOf(Of(NoteReopened(c, u, r.closedAt, now), u, TOGGLES), r.(closedAt := None), Refreshed(r, p, now));
  }

  lemma CheckToggles(db: Db, url: string, g: Page, now: int, late: int)
    requires url in db.rows && Toggled(Of(db.log, url, TOGGLES), db.rows[url]) && Rested(db.rows[url], now)
    ensures var t := Checked(db, url, g, now, late);
            Toggled(Of(t.log, url, TOGGLES), t.rows[url]) <==>
              (!g.failed && g.gone ==> !Repeats(db.log, Closing(url, late)))
  {
    var r := db.rows[url];
    if g.failed {
      CheckedLater(Of(db.log, url, TOGGLES), r, r.(checkedAt := Some(now)), now);
    } else if g.gone {
      GoneToggles(db.log, url, r, now, late);
    } else {
      PageTouches(db.log, url, r, g, now);
      CheckedLater(Of(db.log, url, TOGGLES), r, PageRow(r, g, now), now);
    }
  }

  lemma OpToggles(db: Db, op: Op)
    requires EventsOk(db) && Rows(db, TOGGLES, TOGGLED)
    ensures Rows(Apply(db, op), TOGGLES, TOGGLED) <==> ClosingFresh(db, op)
  {
    var t := Apply(db, op);
    if !op.Purge? && Target(op) in t.rows {
      TargetToggles(db, op);
      if !ClosingFresh(db, op) {
        assert !TOGGLED(Of(t.log, Target(op), TOGGLES), t.rows[Target(op)]);
      }
    }
    if ClosingFresh(db, op) {
      OpKeepsRows(db, op, TOGGLES, TOGGLED);
    }
  }

  /** Over any run: closed and reopened events alternate in step with closed_at at every
      moment if and only if no closing is found recorded already within the day. */
  lemma TogglesExactly(ops: seq<Op>)
    ensures Throughout(ops, TOGGLES, TOGGLED) <==> AllFresh(ops, CLOSING_FRESH)
  {
    forall db, op | EventsOk(db) && Rows(db, TOGGLES, TOGGLED)
      ensures Rows(Apply(db, op), TOGGLES, TOGGLED) <==> CLOSING_FRESH(db, op)
    {
      OpToggles(db, op);
    }
    FreshExactly(ops, TOGGLES, TOGGLED, CLOSING_FRESH);
  }

  // ----- promptly recorded closings ------------------------------------------------------------------

  /** The closings of a posting due for a check are too old to be repeated. */
  lemma PromptIsFresh(log: seq<Event>, url: string, r: Posting, now: int, late: int)
    requires Prompt(Of(log, url, TOGGLES), r) && Rested(r, now) && now <= late
    ensures !Repeats(log, Closing(url, late))
  {
    var es, e := Of(log, url, TOGGLES), Closing(url, late);
    RepeatsOf(log, e, TOGGLES);
    forall x | x in es && SameEvent(x, e) ensures x.at <= e.at - DAY {
      var k :| 0 <= k < |es| && es[k] == x;
    }
  }

  lemma PromptAdd(log: seq<Event>, url: string, e: Event, r: Posting, q: Posting)
    requires Prompt(Of(log, url, TOGGLES), r) && e.url == url && e.kind in TOGGLES && q.checkedAt.Some?
    requires r.checkedAt.Some? ==> r.checkedAt.value <= q.checkedAt.value
    requires e.kind == Closed ==> e.at <= q.checkedAt.value + MAX_DELAY
    ensures Prompt(Of(Add(log, e), url, TOGGLES), q)
  {
    var es := Of(log, url, TOGGLES);
    assert (log + [e])[..|log|] == log;
    assert forall k :: 0 <= k < |es| ==> (es + [e])[k] == es[k];
  }

  lemma OldPrompt(db: Db, op: Op, u: string, r: Posting, es: seq<Event>)
    requires !op.Purge? && u == Target(op) && u in db.rows && r == db.rows[u] && es == Of(db.log, u, TOGGLES)
    requires Toggled(es, r) && Prompt(es, r) && Timely(op)
    ensures var t := Apply(db, op); u in t.rows && Prompt(Of(t.log, u, TOGGLES), t.rows[u])
    ensures ClosingFresh(db, op)
  {
    match op
    case See(p, now) => SeePrompt(db.log, r, p, now);
    case Check(_, g, now, late) =>
      if Rested(r, now) {
        CheckPrompt(db, u, g, now, late);
      }
    case Rate(_, _) => SamePrompt(es, r, Apply(db, op).rows[u]);
    case Hide(_, _) => SamePrompt(es, r, Apply(db, op).rows[u]);
  }

  lemma TargetPrompt(db: Db, op: Op)
    requires EventsOk(db) && Rows(db, TOGGLES, TOGGLED) && Rows(db, TOGGLES, PROMPT) && Timely(op)
    requires !op.Purge? && Target(op) in Apply(db, op).rows
    ensures Prompt(Of(Apply(db, op).log, Target(op), TOGGLES), Apply(db, op).rows[Target(op)])
    ensures ClosingFresh(db, op)
  {
    var u := Target(op);
    if u !in db.rows {
      NewHasNone(db, u, TOGGLES);
    } else {
      var r, es := db.rows[u], Of(db.log, u, TOGGLES);
      assert TOGGLED(es, r) && PROMPT(es, r);
      OldPrompt(db, op, u, r, es);
    }
  }

  lemma ReopenPrompt(log: seq<Event>, url: string, r: Posting, now: int)
    requires Prompt(Of(log, url, TOGGLES), r) && (r.closedAt.Some? ==> r.checkedAt.Some?)
    ensures Prompt(Of(NoteReopened(log, url, r.closedAt, now), url, TOGGLES), r)
  {
    if r.closedAt.Some? {
      PromptAdd(log, url, Event(url, now, Reopened, Day(DayOf(r.closedAt.value)), Text("")), r, r);
    }
  }

  lemma SamePrompt(es: seq<Event>, r: Posting, q: Posting)
    requires Prompt(es, r) && r.checkedAt == q.checkedAt
    ensures Prompt(es, q)
  {
  }

  lemma SeePrompt(log: seq<Event>, r: Posting, p: Listing, now: int)
    requires Prompt(Of(log, p.url, TOGGLES), r) && (r.closedAt.Some? ==> r.checkedAt.Some?)
    ensures Prompt(Of(ListingLog(log, r, p, now), p.url, TOGGLES), Refreshed(r, p, now))
  {
    var u := p.url;
    var b := NoteRepost(NoteDeadline(log, u, r.deadline, p.deadline, now), u, r.posted, p.posted, now);
    var c := NoteReappeared(b, u, r.lastSeen, now);
    ListingTouches(log, r, p, now);
    ReopenPrompt(c, u, r, now);
    SamePrompt(Of(NoteReopened(c, u, r.closedAt, now), u, TOGGLES), r, Refreshed(r, p, now));
  }

  lemma CheckPrompt(db: Db, url: string, g: Page, now: int, late: int)
    requires url in db.rows && Prompt(Of(db.log, url, TOGGLES), db.rows[url])
    requires Rested(db.rows[url], now) && now <= late <= now + MAX_DELAY
    ensures var t := Checked(db, url, g, now, late); Prompt(Of(t.log, url, TOGGLES), t.rows[url])
    ensures !Repeats(db.log, Closing(url, late))
  {
    var r := db.rows[url];
    PromptIsFresh(db.log, url, r, now, late);
    if !g.failed && g.gone {
      PromptAdd(db.log, url, Closing(url, late), r, r.(checkedAt := Some(now), closedAt := Some(now)));
    } else if !g.failed {
      PageTouches(db.log, url, r, g, now);
    }
  }

  /** Rows and histories agree, deadlines aside. */
  ghost predicate Consistent(db: Db) {
    Recorded(db) && Rows(db, TOGGLES, TOGGLED)
  }

  lemma OpConsistent(db: Db, op: Op)
    requires Consistent(db) && Rows(db, TOGGLES, PROMPT) && Timely(op)
    ensures Consistent(Apply(db, op)) && Rows(Apply(db, op), TOGGLES, PROMPT)
  {
    OpKeepsEvents(db, op);
    OpKeepsReposts(db, op);
    if !op.Purge? && Target(op) in Apply(db, op).rows {
      TargetPrompt(db, op);
    }
    OpKeepsRows(db, op, TOGGLES, PROMPT);
    OpToggles(db, op);
  }

  lemma {:induction false} PromptRuns(ops: seq<Op>)
    requires forall i :: 0 <= i < |ops| ==> Timely(ops[i])
    ensures Consistent(After(ops)) && Rows(After(ops), TOGGLES, PROMPT)
  {
    if ops != [] {
      PromptRuns(ops[..|ops| - 1]);
      OpConsistent(After(ops[..|ops| - 1]), ops[|ops| - 1]);
    }
  }

  /** Over any run in which closings are recorded promptly, closed and reopened alternate
      too: the one-day suppression drops none of them. */
  lemma {:induction false} HistoriesConsistent(ops: seq<Op>)
    requires forall i :: 0 <= i < |ops| ==> Timely(ops[i])
    ensures Consistent(After(ops))
  {
    PromptRuns(ops);
  }

  // ----- limits of these guarantees ------------------------------------------------------

  const LISTING := Listing("u", "", "", "")
  const GONE_PAGE := Page(false, true, None, "", "", "")

  /** When the next check of a posting checked at 0 is due, but not before `late`. */
  function NextDue(late: int): int {
    if late > CHECK_INTERVAL then late else CHECK_INTERVAL + 1
  }

  /** A posting is rated, found gone, listed again and found gone again, one operation
      after the other; the first "gone" check records its event at `late`. */
  function SlowRun(late: int): seq<Op> {
    [See(LISTING, 0), Rate("u", 90), Check("u", GONE_PAGE, 0, late), See(LISTING, late),
     Check("u", GONE_PAGE, NextDue(late), NextDue(late))]
  }

  function Reopening(at: int): Event {
    Event("u", at, Reopened, Day(0), Text(""))
  }

  lemma SlowRunRated(late: int)
    ensures After(SlowRun(late)[..2]) == Db(map["u" := Inserted(LISTING, 0).(score := Some(90))], [])
  {
    var run := SlowRun(late);
    Prefixes(run);
    assert After(run[..0]) == Db(map[], []);
    assert After(run[..1]) == Db(map["u" := Inserted(LISTING, 0)], []);
  }

  lemma SlowRunClosed(late: int)
    ensures var r := Inserted(LISTING, 0).(score := Some(90), checkedAt := Some(0), closedAt := Some(0));
            After(SlowRun(late)[..3]) == Db(map["u" := r], [Closing("u", late)])
  {
    Prefixes(SlowRun(late));
    SlowRunRated(late);
  }

  lemma OneEvent(e: Event, kinds: set<Kind>)
    requires e.kind in kinds
    ensures Of([e], e.url, kinds) == [e]
  {
    assert [e][..0] == [];
    assert Of([e], e.url, kinds) == Of([], e.url, kinds) + [e];
  }

  lemma ReopensBehind(c: Event, e: Event, log: seq<Event>)
    requires c.kind == Closed && e.kind == Reopened && log != [] && log[0] == c && Of(log, e.url, TOGGLES) == [c]
    ensures Add(log, e) == log + [e] && Of(Add(log, e), e.url, TOGGLES) == [c, e]
  {
    AddNew(log, e, e.url, TOGGLES);
  }

  lemma ReappearsBehind(c: Event, seen: Event, url: string)
    requires c.kind == Closed && seen.kind == Reappeared && c.url == url
    ensures Add([c], seen) == [c, seen] && Of([c, seen], url, TOGGLES) == [c]
  {
    OneEvent(c, TOGGLES);
    assert !SameEvent(c, seen);
    AddOther([c], seen, url, TOGGLES);
  }

  /** A reappearance recorded before it does not keep a reopening from being recorded. */
  lemma ReappearsAndReopens(c: Event, seen: Event, e: Event, log: seq<Event>)
    requires c.kind == Closed && seen.kind == Reappeared && e.kind == Reopened && c.url == seen.url == e.url
    requires log == [c] || log == Add([c], seen)
    ensures |Add(log, e)| >= 2 && Add(log, e)[0] == c && Of(Add(log, e), e.url, TOGGLES) == [c, e]
  {
    OneEvent(c, TOGGLES);
    ReappearsBehind(c, seen, e.url);
    ReopensBehind(c, e, log);
  }

  /** What listing the posting again records: the reopening, and before it the
      reappearance if it was long unseen. */
  lemma ReopensOnce(late: int) returns (log: seq<Event>)
    ensures var r := Inserted(LISTING, 0).(score := Some(90), checkedAt := Some(0), closedAt := Some(0));
            log == ListingLog([Closing("u", late)], r, LISTING, late)
    ensures |log| >= 2 && log[0] == Closing("u", late) && Of(log, "u", TOGGLES) == [Closing("u", late), Reopening(late)]
  {
    assert DayOf(0) == 0;
    var seen := Event("u", late, Reappeared, Day(0), Day(DayOf(late)));
    var mid := NoteReappeared([Closing("u", late)], "u", 0, late);
    ReappearsAndReopens(Closing("u", late), seen, Reopening(late), mid);
    log := Add(mid, Reopening(late));
  }

  lemma SeeStored(r: Posting, log: seq<Event>, p: Listing, now: int)
    ensures Apply(Db(map[p.url := r], log), See(p, now))
            == Db(map[p.url := Refreshed(r, p, now)], ListingLog(log, r, p, now))
  {
    var db := Db(map[p.url := r], log);
    assert db.rows[p.url := Refreshed(r, p, now)] == map[p.url := Refreshed(r, p, now)];
  }

  lemma ListedAgain(late: int)
    ensures var r := Inserted(LISTING, 0).(score := Some(90), checkedAt := Some(0), closedAt := Some(0));
            Refreshed(r, LISTING, late) == r.(closedAt := None, lastSeen := late)
  {
  }

  lemma SlowRunReopened(late: int) returns (log: seq<Event>)
    ensures var r := Inserted(LISTING, 0).(score := Some(90), checkedAt := Some(0), lastSeen := late);
            After(SlowRun(late)[..4]) == Db(map["u" := r], log)
    ensures |log| >= 2 && log[0] == Closing("u", late) && Of(log, "u", TOGGLES) == [Closing("u", late), Reopening(late)]
  {
    var r := Inserted(LISTING, 0).(score := Some(90), checkedAt := Some(0), closedAt := Some(0));
    Prefixes(SlowRun(late));
    SlowRunClosed(late);
    SeeStored(r, [Closing("u", late)], LISTING, late);
    ListedAgain(late);
    log := ReopensOnce(late);
  }

  lemma ClosingDropped(db: Db, late: int)
    requires late > MAX_DELAY && |db.log| >= 2 && db.log[0] == Closing("u", late)
    requires "u" in db.rows && Rested(db.rows["u"], NextDue(late))
    ensures var t := Apply(db, Check("u", GONE_PAGE, NextDue(late), NextDue(late)));
            t.log == db.log && "u" in t.rows && t.rows["u"].closedAt.Some?
  {
    assert SameEvent(db.log[0], Closing("u", NextDue(late)));
    assert Repeats(db.log, Closing("u", NextDue(late)));
  }

  /** When the event of a "gone" check is recorded too long after its row was updated, the
      next closing is taken for a repetition: the posting is then closed although the
      last event recorded is "reopened". */
  lemma LateClosingIsLost(late: int)
    requires late > MAX_DELAY
    ensures var db := After(SlowRun(late));
            && "u" in db.rows && db.rows["u"].closedAt.Some?
            && Of(db.log, "u", TOGGLES) == [Closing("u", late), Reopening(late)]
  {
    var log := SlowRunReopened(late);
    Prefixes(SlowRun(late));
    ClosingDropped(After(SlowRun(late)[..4]), late);
  }

  lemma SlowRunTimely(late: int)
    requires 0 <= late <= MAX_DELAY
    ensures forall i :: 0 <= i < |SlowRun(late)| ==> Timely(SlowRun(late)[i])
  {
  }

  lemma EvenLengthMeansOpen(db: Db, url: string)
    requires Consistent(db) && url in db.rows && |Of(db.log, url, TOGGLES)| == 2
    ensures db.rows[url].closedAt.None?
  {
    assert TOGGLED(Of(db.log, url, TOGGLES), db.rows[url]);
  }

  /** So the bound is exact: this run leaves consistent tables if and only if its first
      closing is recorded in time. */
  lemma DelayBoundIsExact(late: int)
    requires late >= 0
    ensures Consistent(After(SlowRun(late))) <==> late <= 172_801
  {
    if late <= MAX_DELAY {
      SlowRunTimely(late);
      HistoriesConsistent(SlowRun(late));
    } else {
      LateClosingIsLost(late);
      if Consistent(After(SlowRun(late))) {
        EvenLengthMeansOpen(After(SlowRun(late)), "u");
      }
    }
  }

  // ----- deadlines ------------------------------------------------------------------------------------

  /** A date that moves from one known value to another. */
  predicate Moves(was: string, becomes: string) {
    was != "" && becomes != "" && was != becomes
  }

  lemma ChainAppends(es: seq<Event>, e: Event, was: string, becomes: string)
    requires MoveChain(es, was) && e.was == Text(was) && e.becomes == Text(becomes)
    ensures MoveChain(es + [e], becomes)
  {
    var now := es + [e];
    assert forall k :: 0 <= k < |es| ==> now[k] == es[k];
  }

  /** The events lead up to the new date exactly when the move is not taken for a
      repetition. */
  lemma MoveRecordedExactly(log: seq<Event>, url: string, was: string, becomes: string, now: int)
    requires MoveChain(Of(log, url, MOVES), was) && Moves(was, becomes)
    ensures MoveChain(Of(NoteDeadline(log, url, was, becomes, now), url, MOVES), becomes) <==>
              !Repeats(log, Move(url, now, was, becomes))
  {
    var es, e := Of(log, url, MOVES), Move(url, now, was, becomes);
    MoveMoves(url, now, was, becomes);
    if Repeats(log, e) {
      RepeatsOf(log, e, MOVES);
      assert es != [] && es[|es| - 1].becomes != Text(becomes);
    } else {
      Appends(log, e, MOVES);
      ChainAppends(es, e, was, becomes);
    }
  }

  /** A move the operation wants to record has not been recorded within a day. */
  ghost predicate MoveFresh(db: Db, op: Op) {
    match op
    case See(p, now) =>
      p.url in db.rows && Moves(db.rows[p.url].deadline, p.deadline) ==>
        !Repeats(db.log, Move(p.url, now, db.rows[p.url].deadline, p.deadline))
    case Check(u, g, now, late) =>
      u in db.rows && Rested(db.rows[u], now) && !g.failed && !g.gone && Moves(db.rows[u].deadline, g.validThru) ==>
        !Repeats(db.log, Move(u, now, db.rows[u].deadline, g.validThru))
    case _ => true
  }

  ghost const MOVE_FRESH: (Db, Op) -> bool := (db, op) => MoveFresh(db, op)

  /** One attempt to record a deadline, whatever was and becomes are. */
  lemma MoveStep(log: seq<Event>, url: string, r: Posting, becomes: string, now: int, q: Posting)
    requires Moved(Of(log, url, MOVES), r) && q.deadline == if becomes != "" then becomes else r.deadline
    ensures Moved(Of(NoteDeadline(log, url, r.deadline, becomes, now), url, MOVES), q) <==>
              (Moves(r.deadline, becomes) ==> !Repeats(log, Move(url, now, r.deadline, becomes)))
  {
    if Moves(r.deadline, becomes) {
      MoveRecordedExactly(log, url, r.deadline, becomes, now);
    }
  }

  /** Events of other kinds do not make a move a repetition. */
  lemma SameRepeats(log: seq<Event>, more: seq<Event>, e: Event)
    requires e.kind in MOVES && Of(more, e.url, MOVES) == Of(log, e.url, MOVES)
    ensures Repeats(more, e) <==> Repeats(log, e)
  {
    RepeatsOf(log, e, MOVES);
    RepeatsOf(more, e, MOVES);
  }

  lemma SeeMoves(log: seq<Event>, r: Posting, p: Listing, now: int)
    requires Moved(Of(log, p.url, MOVES), r)
    ensures Moved(Of(ListingLog(log, r, p, now), p.url, MOVES), Refreshed(r, p, now)) <==>
              (Moves(r.deadline, p.deadline) ==> !Repeats(log, Move(p.url, now, r.deadline, p.deadline)))
  {
    ListingTouches(log, r, p, now);
    MoveStep(log, p.url, r, p.deadline, now, Refreshed(r, p, now));
  }

  lemma PageMoves(log: seq<Event>, url: string, r: Posting, g: Page, now: int)
    requires Moved(Of(log, url, MOVES), r)
    ensures Moved(Of(PageLog(log, url, r, g, now), url, MOVES), PageRow(r, g, now)) <==>
              (Moves(r.deadline, g.validThru) ==> !Repeats(log, Move(url, now, r.deadline, g.validThru)))
  {
    var b := NoteSalary(NoteApplicants(log, url, r.applicants, g.applicants, now), url, r.salary, g.salary, now);
    PageTouches(log, url, r, g, now);
    MoveStep(b, url, r, g.validThru, now, PageRow(r, g, now));
    if Moves(r.deadline, g.validThru) {
      MoveMoves(url, now, r.deadline, g.validThru);
      SameRepeats(log, b, Move(url, now, r.deadline, g.validThru));
    }
  }

  lemma CheckMoves(db: Db, url: string, g: Page, now: int, late: int)
    requires url in db.rows && Moved(Of(db.log, url, MOVES), db.rows[url])
    ensures var t, r := Checked(db, url, g, now, late), db.rows[url];
            Moved(Of(t.log, url, MOVES), t.rows[url]) <==>
              (!g.failed && !g.gone && Moves(r.deadline, g.validThru) ==>
                !Repeats(db.log, Move(url, now, r.deadline, g.validThru)))
  {
    if !g.failed && g.gone {
      KindsApart();
      GoneTouches(db.log, url, late);
      NotTouched(db.log, db.log, Add(db.log, Closing(url, late)), url, TOGGLES, MOVES);
    } else if !g.failed {
      PageMoves(db.log, url, db.rows[url], g, now);
    }
  }

  lemma TargetMoves(db: Db, op: Op)
    requires EventsOk(db) && Rows(db, MOVES, MOVED) && !op.Purge? && Target(op) in Apply(db, op).rows
    ensures Moved(Of(Apply(db, op).log, Target(op), MOVES), Apply(db, op).rows[Target(op)]) <==> MoveFresh(db, op)
  {
    var u := Target(op);
    if u !in db.rows {
      NewHasNone(db, u, MOVES);
    } else {
      var r := db.rows[u];
      assert MOVED(Of(db.log, u, MOVES), r);
      match op
      case See(p, now) => SeeMoves(db.log, r, p, now);
      case Check(_, g, now, late) => CheckMoves(db, u, g, now, late);
      case _ =>
    }
  }

  lemma OpMoves(db: Db, op: Op)
    requires EventsOk(db) && Rows(db, MOVES, MOVED)
    ensures Rows(Apply(db, op), MOVES, MOVED) <==> MoveFresh(db, op)
  {
    var t := Apply(db, op);
    if !op.Purge? && Target(op) in t.rows {
      TargetMoves(db, op);
      if !MoveFresh(db, op) {
        assert !MOVED(Of(t.log, Target(op), MOVES), t.rows[Target(op)]);
      }
    }
    if MoveFresh(db, op) {
      OpKeepsRows(db, op, MOVES, MOVED);
    }
  }

  /** Over any run: the deadline events of every posting form an unbroken chain up to its
      stored deadline at every moment if and only if no move is repeated within a day. */
  lemma DeadlinesExactly(ops: seq<Op>)
    ensures Throughout(ops, MOVES, MOVED) <==> AllFresh(ops, MOVE_FRESH)
  {
    forall db, op | EventsOk(db) && Rows(db, MOVES, MOVED)
      ensures Rows(Apply(db, op), MOVES, MOVED) <==> MOVE_FRESH(db, op)
    {
      OpMoves(db, op);
    }
    FreshExactly(ops, MOVES, MOVED, MOVE_FRESH);
  }

  function Seen(d: string, now: int): Op {
    See(Listing("u", d, "", ""), now)
  }

  /** A new deadline of a stored posting, seen in a listing. */
  lemma SeenMoves(db: Db, d: string, now: int)
    requires "u" in db.rows && Moves(db.rows["u"].deadline, d)
    requires !Repeats(db.log, Move("u", now, db.rows["u"].deadline, d))
    ensures var t := Apply(db, Seen(d, now));
            && "u" in t.rows && t.rows["u"].deadline == d
            && Of(t.log, "u", MOVES) == Of(db.log, "u", MOVES) + [Move("u", now, db.rows["u"].deadline, d)]
  {
    var r := db.rows["u"];
    var e := Move("u", now, r.deadline, d);
    ListingTouches(db.log, r, Listing("u", d, "", ""), now);
    MoveMoves("u", now, r.deadline, d);
    assert (db.log + [e])[..|db.log|] == db.log;
  }

  lemma SeenFirst(a: string, t0: int)
    ensures var db := After([Seen(a, t0)]); "u" in db.rows && db.rows["u"].deadline == a && db.log == []
  {
    Prefixes([Seen(a, t0)]);
    assert [Seen(a, t0)][..0] == [] && [Seen(a, t0)][..1] == [Seen(a, t0)];
  }

  /** One more listing. */
  lemma SeenNext(ops: seq<Op>, d: string, now: int)
    ensures After(ops + [Seen(d, now)]) == Apply(After(ops), Seen(d, now))
  {
    assert (ops + [Seen(d, now)])[..|ops|] == ops;
  }

  lemma ThereAndBack(a: string, b: string, t0: int, t1: int, t2: int) returns (db: Db)
    requires Moves(a, b)
    ensures db == After([Seen(a, t0)] + [Seen(b, t1)] + [Seen(a, t2)]) && "u" in db.rows && db.rows["u"].deadline == a
    ensures Of(db.log, "u", MOVES) == [Move("u", t1, a, b), Move("u", t2, b, a)]
  {
    var first, there := After([Seen(a, t0)]), Apply(After([Seen(a, t0)]), Seen(b, t1));
    SeenFirst(a, t0);
    SeenMoves(first, b, t1);
    SeenNext([Seen(a, t0)], b, t1);
    MoveMoves("u", t2, b, a);
    RepeatsOf(there.log, Move("u", t2, b, a), MOVES);
    SeenMoves(there, a, t2);
    SeenNext([Seen(a, t0)] + [Seen(b, t1)], a, t2);
    db := Apply(there, Seen(a, t2));
  }

  /** A date moved there, back and there again: the last move is on record, and the events
      lead up to the stored date, if and only if the two moves there are a day apart. */
  lemma DeadlineChainCanBreak(a: string, b: string, t0: int, t1: int, t2: int, t3: int)
    requires Moves(a, b) && t0 <= t1 <= t2 <= t3
    ensures var db := After([Seen(a, t0), Seen(b, t1), Seen(a, t2), Seen(b, t3)]);
            && "u" in db.rows && db.rows["u"].deadline == b
            && (Moved(Of(db.log, "u", MOVES), db.rows["u"]) <==> t3 - t1 >= DAY)
  {
    var there, back, again := Move("u", t1, a, b), Move("u", t2, b, a), Move("u", t3, a, b);
    var db := ThereAndBack(a, b, t0, t1, t2);
    var ops := [Seen(a, t0)] + [Seen(b, t1)] + [Seen(a, t2)];
    assert ops + [Seen(b, t3)] == [Seen(a, t0), Seen(b, t1), Seen(a, t2), Seen(b, t3)];
    SeenNext(ops, b, t3);
    MoveMoves("u", t3, a, b);
    RepeatsOf(db.log, again, MOVES);
    assert SameEvent([there, back][0], again);
    SeeMoves(db.log, db.rows["u"], Listing("u", b, "", ""), t3);
  }
}
