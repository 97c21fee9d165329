/** The change history of a posting: srv/jobs/store.go (Upsert, AddEvent, Purge) and
    srv/jobs/signals.go (CheckPending, applySignals).  Times are whole seconds; the
    surrogate id of a posting is replaced by its unique URL. */
module History {
  import opened Basics
  import opened TextOrder
  import Salary

  datatype Kind = DeadlineExtended | DeadlineShortened | Reposted | Reappeared | Reopened | Closed
                | Applicants | SalaryUp | SalaryChanged

  /** What an event's old and new columns hold: text, the date of a timestamp, or a
      number. */
  datatype Note = Text(s: string) | Day(n: int) | Count(n: int)

  datatype Event = Event(url: string, at: int, kind: Kind, was: Note, becomes: Note)

  datatype Posting = Posting(
    deadline: string, posted: string, snippet: string, firstSeen: int, lastSeen: int, score: Option<int>, hidden: bool,
    salary: string, applicants: Option<int>, checkedAt: Option<int>, closedAt: Option<int>, reposted: bool)

  /** A posting as a source lists it. */
  datatype Listing = Listing(url: string, deadline: string, posted: string, snippet: string)

  /** What re-reading a posting's page found. */
  datatype Page = Page(failed: bool, gone: bool, applicants: Option<int>, salary: string,
                       validThru: string, datePosted: string)

  datatype Db = Db(rows: map<string, Posting>, log: seq<Event>)

  const DAY := 86400
  const CHECK_INTERVAL := 3 * DAY
  const MAX_DELAY := CHECK_INTERVAL - DAY + 1
  const BRIEF_MIN_SCORE := 35

  function DayOf(t: int): int {
    t / DAY
  }

  // ----- AddEvent ----------------------------------------------------------------------

  predicate SameEvent(a: Event, b: Event) {
    a.url == b.url && a.kind == b.kind && a.was == b.was && a.becomes == b.becomes
  }

  /** An identical event was recorded less than a day before e. */
  predicate Repeats(log: seq<Event>, e: Event) {
    exists i :: 0 <= i < |log| && SameEvent(log[i], e) && log[i].at > e.at - DAY
  }

  function Add(log: seq<Event>, e: Event): seq<Event> {
    if Repeats(log, e) then log else log + [e]
  }

  // ----- Upsert ------------------------------------------------------------------------

  function DeadlineKind(was: string, becomes: string): Kind {
    if Less(becomes, was) then DeadlineShortened else DeadlineExtended
  }

  /** A deadline that moved, from one known date to another. */
  function NoteDeadline(log: seq<Event>, url: string, was: string, becomes: string, now: int): seq<Event> {
    if becomes != "" && was != "" && becomes != was
    then Add(log, Event(url, now, DeadlineKind(was, becomes), Text(was), Text(becomes))) else log
  }

  /** A posted date later than the known one. */
  predicate Later(was: string, becomes: string) {
    becomes != "" && was != "" && Less(was, becomes)
  }

  function NoteRepost(log: seq<Event>, url: string, was: string, becomes: string, now: int): seq<Event> {
    if Later(was, becomes) then Add(log, Event(url, now, Reposted, Text(was), Text(becomes))) else log
  }

  function NoteReappeared(log: seq<Event>, url: string, lastSeen: int, now: int): seq<Event> {
    if now - lastSeen > 10 * DAY
    then Add(log, Event(url, now, Reappeared, Day(DayOf(lastSeen)), Day(DayOf(now)))) else log
  }

  function NoteReopened(log: seq<Event>, url: string, closedAt: Option<int>, now: int): seq<Event> {
    if closedAt.Some? then Add(log, Event(url, now, Reopened, Day(DayOf(closedAt.value)), Text(""))) else log
  }

  /** The listing's own signals, in the order Upsert records them. */
  function ListingLog(log: seq<Event>, r: Posting, p: Listing, now: int): seq<Event> {
    var a := NoteDeadline(log, p.url, r.deadline, p.deadline, now);
    var b := NoteRepost(a, p.url, r.posted, p.posted, now);
    var c := NoteReappeared(b, p.url, r.lastSeen, now);
    NoteReopened(c, p.url, r.closedAt, now)
  }

  /** The UPDATE of Upsert; every right-hand side reads the old columns. */
  function Refreshed(r: Posting, p: Listing, now: int): Posting {
    r.(lastSeen := now, closedAt := None,
       deadline := if p.deadline != "" then p.deadline else r.deadline,
       posted := if Less(r.posted, p.posted) then p.posted else r.posted,
       reposted := if Less(r.posted, p.posted) && r.posted != "" then true else r.reposted,
       snippet := if |p.snippet| > |r.snippet| then p.snippet else r.snippet)
  }

  function Inserted(p: Listing, now: int): Posting {
    Posting(p.deadline, p.posted, p.snippet, now, now, None, false, "", None, None, None, false)
  }

  function Upserted(db: Db, p: Listing, now: int): Db {
    if p.url !in db.rows then db.(rows := db.rows[p.url := Inserted(p, now)])
    else
      var r := db.rows[p.url];
      Db(db.rows[p.url := Refreshed(r, p, now)], ListingLog(db.log, r, p, now))
  }

  // ----- applySignals ----------------------------------------------------------------------

  /** Open, and its page has not been read for three days. */
  predicate Rested(r: Posting, now: int) {
    r.closedAt.None? && (r.checkedAt.None? || r.checkedAt.value < now - CHECK_INTERVAL)
  }

  /** CheckPending's WHERE clause. */
  predicate Due(r: Posting, now: int) {
    r.score.Some? && r.score.value >= BRIEF_MIN_SCORE && !r.hidden && Rested(r, now)
  }

  /** The query's order: the best score first, of equal ones the newest. */
  predicate Ahead(a: Posting, b: Posting) {
    && a.score.Some? && b.score.Some?
    && (a.score.value > b.score.value || (a.score.value == b.score.value && a.firstSeen >= b.firstSeen))
  }

  function OptionNote(n: Option<int>): Note {
    if n.Some? then Count(n.value) else Text("")
  }

  /** Pay went up by more than two per cent. */
  predicate Raised(was: string, becomes: string) {
    100 * Salary.MaxCents(becomes) > 102 * Salary.MaxCents(was)
  }

  function NoteApplicants(log: seq<Event>, url: string, was: Option<int>, becomes: Option<int>, now: int): seq<Event> {
    if becomes.Some? && was != becomes
    then Add(log, Event(url, now, Applicants, OptionNote(was), OptionNote(becomes))) else log
  }

  function NoteSalary(log: seq<Event>, url: string, was: string, becomes: string, now: int): seq<Event> {
    if becomes != "" && becomes != was && was != ""
    then Add(log, Event(url, now, if Raised(was, becomes) then SalaryUp else SalaryChanged, Text(was), Text(becomes)))
    else log
  }

  function PageLog(log: seq<Event>, url: string, r: Posting, g: Page, now: int): seq<Event> {
    var a := NoteApplicants(log, url, r.applicants, g.applicants, now);
    var b := NoteSalary(a, url, r.salary, g.salary, now);
    var c := NoteDeadline(b, url, r.deadline, g.validThru, now);
    NoteRepost(c, url, r.posted, g.datePosted, now)
  }

  function PageRow(r: Posting, g: Page, now: int): Posting {
    var again := Later(r.posted, g.datePosted);
    r.(checkedAt := Some(now),
       applicants := if g.applicants.Some? then g.applicants else r.applicants,
       salary := if g.salary != "" then g.salary else r.salary,
       deadline := if g.validThru != "" then g.validThru else r.deadline,
       posted := if again then g.datePosted else r.posted,
       reposted := if again then true else r.reposted)
  }

  function CheckedRow(r: Posting, g: Page, now: int): Posting {
    if g.failed then r.(checkedAt := Some(now))
    else if g.gone then r.(checkedAt := Some(now), closedAt := Some(now))
    else PageRow(r, g, now)
  }

  function CheckedLog(log: seq<Event>, url: string, r: Posting, g: Page, now: int, late: int): seq<Event> {
    if g.failed then log
    else if g.gone then Add(log, Event(url, late, Closed, Text(""), Text("")))
    else PageLog(log, url, r, g, now)
  }

  /** A page check at `now`.  When the page is gone the row is updated first and the
      event recorded by a second statement, at `late`. */
  function Checked(db: Db, url: string, g: Page, now: int, late: int): Db
    requires url in db.rows
  {
    var r := db.rows[url];
    Db(db.rows[url := CheckedRow(r, g, now)], CheckedLog(db.log, url, r, g, now, late))
  }

  // ----- Purge --------------------------------------------------------------------------------

  predicate Stale(r: Posting, now: int) {
    r.lastSeen < now - 90 * DAY && (r.score.None? || r.score.value < 50)
  }

  /** The events whose posting still exists (ON DELETE CASCADE). */
  function Cascade(log: seq<Event>, urls: set<string>): seq<Event> {
    if log == [] then [] else
      var front, e := Cascade(log[..|log| - 1], urls), log[|log| - 1];
      if e.url in urls then front + [e] else front
  }

  function Purged(db: Db, now: int): Db {
    var rows := map u | u in db.rows && !Stale(db.rows[u], now) :: db.rows[u];
    Db(rows, Cascade(db.log, rows.Keys))
  }

  // ----- runs ------------------------------------------------------------------------------------

  datatype Op =
    | See(listing: Listing, now: int)
    | Check(url: string, page: Page, now: int, late: int)
    | Rate(url: string, score: int)
    | Hide(url: string, hidden: bool)
    | Purge(now: int)

  /** A check comes some time after the query that found the posting due; by then it may
      have been hidden, and it is checked all the same. */
  function Apply(db: Db, op: Op): Db {
    match op
    case See(p, now) => Upserted(db, p, now)
    case Check(u, g, now, late) =>
      if u in db.rows && Rested(db.rows[u], now) then Checked(db, u, g, now, late) else db
    case Rate(u, s) =>
      if u in db.rows && db.rows[u].score.None? then db.(rows := db.rows[u := db.rows[u].(score := Some(s))]) else db
    case Hide(u, h) =>
      if u in db.rows then db.(rows := db.rows[u := db.rows[u].(hidden := h)]) else db
    case Purge(now) => Purged(db, now)
  }

  function After(ops: seq<Op>): Db {
    if ops == [] then Db(map[], []) else Apply(After(ops[..|ops| - 1]), ops[|ops| - 1])
  }

  // ----- the stored tables -------------------------------------------------------------------

  class Store {
    var rows: map<string, Posting>
    var log: seq<Event>

    ghost function Contents(): Db
      reads this
    {
      Db(rows, log)
    }

    constructor ()
      ensures Contents() == After([])
    {
      rows, log := map[], [];
    }

    method AddEvent(url: string, kind: Kind, was: Note, becomes: Note, now: int)
      modifies this`log
      ensures log == Add(old(log), Event(url, now, kind, was, becomes))
    {
      var e := Event(url, now, kind, was, becomes);
      var n := 0;
      for i := 0 to |log|
        invariant n > 0 <==> exists k :: 0 <= k < i && SameEvent(log[k], e) && log[k].at > e.at - DAY
      {
        if SameEvent(log[i], e) && log[i].at > now - DAY {
          n := n + 1;
        }
      }
      if n > 0 {
        return;
      }
      log := log + [e];
    }

    method Upsert(p: Listing, now: int) returns (isNew: bool)
      modifies this
      ensures Contents() == Apply(old(Contents()), See(p, now))
      ensures isNew <==> p.url !in old(rows)
    {
      if p.url !in rows {
        rows := rows[p.url := Inserted(p, now)];
        return true;
      }
      var r := rows[p.url];
      if p.deadline != "" && r.deadline != "" && p.deadline != r.deadline {
        var kind := DeadlineExtended;
        if Less(p.deadline, r.deadline) {
          kind := DeadlineShortened;
        }
        AddEvent(p.url, kind, Text(r.deadline), Text(p.deadline), now);
      }
      if p.posted != "" && r.posted != "" && Less(r.posted, p.posted) {
        AddEvent(p.url, Reposted, Text(r.posted), Text(p.posted), now);
      }
      if now - r.lastSeen > 10 * DAY {
        AddEvent(p.url, Reappeared, Day(DayOf(r.lastSeen)), Day(DayOf(now)), now);
      }
      if r.closedAt.Some? {
        AddEvent(p.url, Reopened, Day(DayOf(r.closedAt.value)), Text(""), now);
      }
      rows := rows[p.url := Refreshed(r, p, now)];
      return false;
    }

    method ApplySignals(url: string, g: Page, now: int, late: int)
      requires url in rows
      modifies this
      ensures Contents() == Checked(old(Contents()), url, g, now, late)
    {
      var r := rows[url];
      if g.failed {
        rows := rows[url := r.(checkedAt := Some(now))];
        return;
      }
      if g.gone {
        rows := rows[url := r.(checkedAt := Some(now), closedAt := Some(now))];
        AddEvent(url, Closed, Text(""), Text(""), late);
        return;
      }
      var sets := ReadFigures(url, r, g, now);
      sets := ReadDates(url, r, sets, g, now);
      rows := rows[url := sets];
    }

    /** The page was read and is not gone: applicants and salary. */
    method ReadFigures(url: string, r: Posting, g: Page, now: int) returns (sets: Posting)
      modifies this`log
      ensures log == NoteSalary(NoteApplicants(old(log), url, r.applicants, g.applicants, now),
                                url, r.salary, g.salary, now)
      ensures sets == r.(checkedAt := Some(now),
                         applicants := if g.applicants.Some? then g.applicants else r.applicants,
                         salary := if g.salary != "" then g.salary else r.salary)
    {
      sets := r.(checkedAt := Some(now));
      if g.applicants.Some? {
        if r.applicants.None? || r.applicants.value != g.applicants.value {
          AddEvent(url, Applicants, OptionNote(r.applicants), OptionNote(g.applicants), now);
        }
        sets := sets.(applicants := g.applicants);
      }
      assert log == NoteApplicants(old(log), url, r.applicants, g.applicants, now);
      if g.salary != "" && g.salary != r.salary {
        if r.salary != "" {
          var kind := if Raised(r.salary, g.salary) then SalaryUp else SalaryChanged;
          AddEvent(url, kind, Text(r.salary), Text(g.salary), now);
        }
        sets := sets.(salary := g.salary);
      }
    }

    /** The dates the page states: closing date and posted date. */
    method ReadDates(url: string, r: Posting, figures: Posting, g: Page, now: int) returns (sets: Posting)
      modifies this`log
      ensures log == NoteRepost(NoteDeadline(old(log), url, r.deadline, g.validThru, now),
                                url, r.posted, g.datePosted, now)
      ensures sets == figures.(
                deadline := if g.validThru != "" && g.validThru != r.deadline then g.validThru else figures.deadline,
                posted := if Later(r.posted, g.datePosted) then g.datePosted else figures.posted,
                reposted := Later(r.posted, g.datePosted) || figures.reposted)
    {
      sets := figures;
      if g.validThru != "" && g.validThru != r.deadline {
        if r.deadline != "" {
          var kind := DeadlineKind(r.deadline, g.validThru);
          AddEvent(url, kind, Text(r.deadline), Text(g.validThru), now);
        }
        sets := sets.(deadline := g.validThru);
      }
      assert log == NoteDeadline(old(log), url, r.deadline, g.validThru, now);
      if g.datePosted != "" && r.posted != "" && Less(r.posted, g.datePosted) {
        AddEvent(url, Reposted, Text(r.posted), Text(g.datePosted), now);
        sets := sets.(posted := g.datePosted, reposted := true);
      }
    }

    /** A posting that the order puts in front of all others in todo. */
    method First(todo: set<string>) returns (u: string)
      requires todo != {} && forall v :: v in todo ==> v in rows && rows[v].score.Some?
      ensures u in todo && forall v :: v in todo ==> Ahead(rows[u], rows[v])
    {
      u :| u in todo;
      var rest := todo - {u};
      while rest != {}
        invariant rest <= todo && u in todo
        invariant forall v :: v in todo && v !in rest ==> Ahead(rows[u], rows[v])
        decreases rest
      {
        var v :| v in rest;
        rest := rest - {v};
        if !Ahead(rows[u], rows[v]) {
          u := v;
        }
      }
    }

    /** CheckPending's query. */
    method SelectDue(now: int, limit: nat) returns (list: seq<string>)
      ensures Answers(list, rows, now, limit)
    {
      list := [];
      var todo := set u | u in rows && Due(rows[u], now);
      while todo != {} && |list| < limit
        invariant |list| <= limit
        invariant forall u :: u in rows && Due(rows[u], now) <==> u in list || u in todo
        invariant Selection(list, todo, rows)
        decreases todo
      {
        var u := First(todo);
        SelectionStep(list, todo, u, rows);
        list, todo := list + [u], todo - {u};
      }
      AnswerFound(list, todo, rows, now, limit);
    }

    /** One posting of CheckPending's list. */
    method CheckOne(u: string, g: Page, now: int, late: int)
      requires u in rows && Rested(rows[u], now)
      modifies this
      ensures Contents() == Apply(old(Contents()), Check(u, g, now, late))
      ensures Untouched(old(rows), rows, [u])
    {
      ApplySignals(u, g, now, late);
    }

    /** The n-th posting of the list, after the ones before it. */
    method CheckNth(ghost start: Db, list: seq<string>, n: nat, pages: string -> Page, clock: nat -> int)
      requires n < |list| && AllDue(list, start.rows, clock)
      requires FirstChecked(start, Contents(), list, n, pages, clock)
      modifies this
      ensures FirstChecked(start, Contents(), list, n + 1, pages, clock)
    {
      ghost var before := rows;
      StillDue(list, start.rows, rows, clock, n);
      ContinueChecks(start, list, n, pages, clock);
      CheckOne(list[n], pages(list[n]), clock(2 * n + 1), clock(2 * n + 2));
      UntouchedThrough(start.rows, before, rows, list, n);
    }

    /** The loop over the selected postings, each due when its turn comes, until the
        context ends, before page number `lasts`. */
    method CheckAll(list: seq<string>, pages: string -> Page, clock: nat -> int, lasts: nat)
      returns (n: nat)
      requires AllDue(list, rows, clock)
      modifies this
      ensures n == Min(|list|, lasts)
      ensures FirstChecked(old(Contents()), Contents(), list, n, pages, clock)
    {
      ghost var start := Contents();
      NoneChecked(start, list, pages, clock);
      for i := 0 to |list|
        invariant i <= lasts
        invariant FirstChecked(start, Contents(), list, i, pages, clock)
      {
        if i == lasts {
          return i;
        }
        CheckNth(start, list, i, pages, clock);
      }
      return |list|;
    }

    /** One query at `clock(0)`, then one page after the other while the context lasts.  The
        effect is that of a run of atomic checks, each of a posting due at its own time. */
    method CheckPending(limit: nat, pages: string -> Page, clock: nat -> int, lasts: nat)
      returns (list: seq<string>, n: nat)
      requires forall i, j :: 0 <= i <= j ==> clock(i) <= clock(j)
      modifies this
      ensures Answers(list, old(rows), clock(0), limit) && AllDue(list, old(rows), clock)
      ensures n == Min(|list|, lasts)
      ensures FirstChecked(old(Contents()), Contents(), list, n, pages, clock)
    {
      list := SelectDue(clock(0), limit);
      DueAtItsTime(list, rows, clock, limit);
      n := CheckAll(list, pages, clock, lasts);
    }

    method DeleteStale(now: int)
      modifies this
      ensures Contents() == Apply(old(Contents()), Purge(now))
    {
      rows := map u | u in rows && !Stale(rows[u], now) :: rows[u];
      var kept: seq<Event> := [];
      for i := 0 to |log|
        invariant kept == Cascade(log[..i], rows.Keys)
      {
        assert log[..i + 1][..i] == log[..i];
        if log[i].url in rows {
          kept := kept + [log[i]];
        }
      }
      assert log[..|log|] == log;
      log := kept;
    }
  }

  /** Distinct rows in the query's order, with the rest behind them. */
  ghost predicate Selection(list: seq<string>, rest: set<string>, rows: map<string, Posting>) {
    && (forall i :: 0 <= i < |list| ==> list[i] in rows && list[i] !in rest)
    && (forall u :: u in rest ==> u in rows && rows[u].score.Some?)
    && (forall i, j :: 0 <= i < j < |list| ==> list[i] != list[j] && Ahead(rows[list[i]], rows[list[j]]))
    && (forall i, u :: 0 <= i < |list| && u in rest ==> Ahead(rows[list[i]], rows[u]))
  }

  lemma SelectionStep(list: seq<string>, rest: set<string>, u: string, rows: map<string, Posting>)
    requires Selection(list, rest, rows) && u in rest && forall v :: v in rest ==> Ahead(rows[u], rows[v])
    ensures Selection(list + [u], rest - {u}, rows)
  {
  }

  /** What the query finds at `now`: the first `limit` due postings in its order. */
  ghost predicate Answers(list: seq<string>, rows: map<string, Posting>, now: int, limit: nat) {
    var rest := set u | u in rows && Due(rows[u], now) && u !in list;
    && |list| <= limit && (|list| < limit ==> rest == {})
    && (forall i :: 0 <= i < |list| ==> list[i] in rows && Due(rows[list[i]], now))
    && Selection(list, rest, rows)
  }

  lemma AnswerFound(list: seq<string>, rest: set<string>, rows: map<string, Posting>, now: int, limit: nat)
    requires |list| <= limit && (|list| < limit ==> rest == {}) && Selection(list, rest, rows)
    requires forall u :: u in rows && Due(rows[u], now) <==> u in list || u in rest
    ensures Answers(list, rows, now, limit)
  {
    assert rest == set u | u in rows && Due(rows[u], now) && u !in list;
    assert forall i :: 0 <= i < |list| ==> list[i] in list;
  }

  /** No row has come or gone, and only the listed ones may have changed. */
  ghost predicate Untouched(before: map<string, Posting>, now: map<string, Posting>, list: seq<string>) {
    before.Keys == now.Keys && forall u :: u in before && u !in list ==> now[u] == before[u]
  }

  lemma UntouchedThrough(a: map<string, Posting>, b: map<string, Posting>, c: map<string, Posting>,
                         list: seq<string>, i: nat)
    requires i < |list| && Untouched(a, b, list[..i]) && Untouched(b, c, [list[i]])
    ensures Untouched(a, c, list[..i + 1])
  {
    assert list[..i + 1] == list[..i] + [list[i]];
  }

  /** Different postings, each due at its own reading of the clock. */
  ghost predicate AllDue(list: seq<string>, rows: map<string, Posting>, clock: nat -> int) {
    && (forall i, j :: 0 <= i < j < |list| ==> list[i] != list[j])
    && (forall i :: 0 <= i < |list| ==> list[i] in rows && Due(rows[list[i]], clock(2 * i + 1)))
  }

  lemma DueAtItsTime(list: seq<string>, rows: map<string, Posting>, clock: nat -> int, limit: nat)
    requires Answers(list, rows, clock(0), limit) && forall i, j :: 0 <= i <= j ==> clock(i) <= clock(j)
    ensures AllDue(list, rows, clock)
  {
    forall i | 0 <= i < |list| ensures Due(rows[list[i]], clock(2 * i + 1)) {
      assert clock(0) <= clock(2 * i + 1);
    }
  }

  lemma StillDue(list: seq<string>, before: map<string, Posting>, rows: map<string, Posting>, clock: nat -> int, i: nat)
    requires AllDue(list, before, clock) && i < |list| && Untouched(before, rows, list[..i])
    ensures list[i] in rows && Due(rows[list[i]], clock(2 * i + 1))
  {
    assert list[i] !in list[..i];
  }

  function Continue(db: Db, ops: seq<Op>): Db {
    if ops == [] then db else Apply(Continue(db, ops[..|ops| - 1]), ops[|ops| - 1])
  }

  /** The checks of a list of postings; `clock(2i + 1)` and `clock(2i + 2)` are the
      readings of the i-th page's two statements. */
  function ChecksOf(list: seq<string>, pages: string -> Page, clock: nat -> int): seq<Op> {
    if list == [] then [] else
      var i, u := |list| - 1, list[|list| - 1];
      ChecksOf(list[..i], pages, clock) + [Check(u, pages(u), clock(2 * i + 1), clock(2 * i + 2))]
  }

  lemma ContinueChecks(db: Db, list: seq<string>, i: nat, pages: string -> Page, clock: nat -> int)
    requires i < |list|
    ensures Continue(db, ChecksOf(list[..i + 1], pages, clock)) ==
            Apply(Continue(db, ChecksOf(list[..i], pages, clock)),
                  Check(list[i], pages(list[i]), clock(2 * i + 1), clock(2 * i + 2)))
  {
    var ops := ChecksOf(list[..i], pages, clock);
    assert list[..i + 1][..i] == list[..i];
    var last := Check(list[i], pages(list[i]), clock(2 * i + 1), clock(2 * i + 2));
    assert ChecksOf(list[..i + 1], pages, clock) == ops + [last];
    assert (ops + [last])[..|ops|] == ops;
  }

  /** The tables after the first n pages of the list were checked: the checks have had their
      effect one after the other, and no other row has changed. */
  ghost predicate FirstChecked(start: Db, now: Db, list: seq<string>, n: nat, pages: string -> Page,
                               clock: nat -> int) {
    && n <= |list| && now == Continue(start, ChecksOf(list[..n], pages, clock))
    && Untouched(start.rows, now.rows, list[..n])
  }

  lemma NoneChecked(start: Db, list: seq<string>, pages: string -> Page, clock: nat -> int)
    ensures FirstChecked(start, start, list, 0, pages, clock)
  {
  }

  // ----- hiding while pages are checked -------------------------------------------------------

  function Checks(ops: seq<Op>): seq<Op> {
    if ops == [] then [] else
      var front, op := Checks(ops[..|ops| - 1]), ops[|ops| - 1];
      if op.Check? then front + [op] else front
  }

  function Hides(ops: seq<Op>): seq<Op> {
    if ops == [] then [] else
      var front, op := Hides(ops[..|ops| - 1]), ops[|ops| - 1];
      if op.Hide? then front + [op] else front
  }

  lemma HiddenUnread(log: seq<Event>, url: string, r: Posting, g: Page, now: int, late: int, h: bool)
    ensures CheckedRow(r.(hidden := h), g, now) == CheckedRow(r, g, now).(hidden := h)
    ensures CheckedLog(log, url, r.(hidden := h), g, now, late) == CheckedLog(log, url, r, g, now, late)
  {
  }

  lemma CheckedUnhidden(db: Db, u: string, g: Page, now: int, late: int, h: bool)
    requires u in db.rows
    ensures var t, c := db.(rows := db.rows[u := db.rows[u].(hidden := h)]), Checked(db, u, g, now, late);
            Checked(t, u, g, now, late) == c.(rows := c.rows[u := c.rows[u].(hidden := h)])
  {
    HiddenUnread(db.log, u, db.rows[u], g, now, late, h);
  }

  lemma CheckedElsewhere(db: Db, u: string, g: Page, now: int, late: int, w: string, r: Posting)
    requires u in db.rows && w != u
    ensures var t, c := db.(rows := db.rows[w := r]), Checked(db, u, g, now, late);
            Checked(t, u, g, now, late) == c.(rows := c.rows[w := r])
  {
    var x := CheckedRow(db.rows[u], g, now);
    assert db.rows[w := r][u := x] == db.rows[u := x][w := r];
  }

  /** Hiding a posting and checking a page do not notice each other. */
  lemma HideAfterCheck(db: Db, h: Op, c: Op)
    requires h.Hide? && c.Check?
    ensures Apply(Apply(db, h), c) == Apply(Apply(db, c), h)
  {
    if h.url in db.rows && c.url in db.rows && Rested(db.rows[c.url], c.now) {
      if h.url == c.url {
        CheckedUnhidden(db, c.url, c.page, c.now, c.late, h.hidden);
      } else {
        CheckedElsewhere(db, c.url, c.page, c.now, c.late, h.url, db.rows[h.url].(hidden := h.hidden));
      }
    }
  }

  lemma {:induction false} CheckPastHides(db: Db, hides: seq<Op>, c: Op)
    requires c.Check? && forall i :: 0 <= i < |hides| ==> hides[i].Hide?
    ensures Apply(Continue(db, hides), c) == Continue(Apply(db, c), hides)
  {
    if hides != [] {
      var front, h := hides[..|hides| - 1], hides[|hides| - 1];
      CheckPastHides(db, front, c);
      HideAfterCheck(Continue(db, front), h, c);
    }
  }

  lemma {:induction false} HidesHide(ops: seq<Op>)
    ensures forall i :: 0 <= i < |Hides(ops)| ==> Hides(ops)[i].Hide?
  {
    if ops != [] {
      HidesHide(ops[..|ops| - 1]);
    }
  }

  lemma ContinueOnce(db: Db, ops: seq<Op>, op: Op)
    ensures Continue(db, ops + [op]) == Apply(Continue(db, ops), op)
  {
    assert (ops + [op])[..|ops|] == ops;
  }

  /** Postings hidden and restored while pages are checked: however the two interleave, the
      tables end as if all the checks had come first. */
  lemma {:induction false} HidesPass(db: Db, ops: seq<Op>)
    requires forall i :: 0 <= i < |ops| ==> ops[i].Hide? || ops[i].Check?
    ensures Continue(db, ops) == Continue(Continue(db, Checks(ops)), Hides(ops))
  {
    if ops != [] {
      var front, op := ops[..|ops| - 1], ops[|ops| - 1];
      var checks, hides := Checks(front), Hides(front);
      HidesPass(db, front);
      if op.Hide? {
        ContinueOnce(Continue(db, checks), hides, op);
      } else {
        HidesHide(front);
        CheckPastHides(Continue(db, checks), hides, op);
        ContinueOnce(db, checks, op);
      }
    }
  }
}
