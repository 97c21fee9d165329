/** The figures of a posting, salary and applicants, against the events that tell of them. */
module PayLaws {
  import opened Amounts
  import opened Basics
  import opened Decimal
  import opened History
  import opened HistoryLaws
  import opened Salary
  import opened SignalLaws

  const PAYS := {SalaryUp, SalaryChanged}
  const HEADS := {Applicants}

  /** Every event starts where the one before ended; the last ended at n. */
  ghost predicate LeadsTo(es: seq<Event>, n: Note) {
    && (forall k :: 0 < k < |es| ==> es[k].was == es[k - 1].becomes)
    && (es != [] ==> es[|es| - 1].becomes == n)
  }

  /** The salary events lead up to the salary stored. */
  ghost predicate Paid(es: seq<Event>, r: Posting) {
    LeadsTo(es, Text(r.salary)) && (es != [] ==> r.salary != "")
  }

  function Shown(n: Option<int>): Note {
    if n.Some? then Count(n.value) else Text("")
  }

  /** The applicants events lead from nothing up to the number stored, if there is one. */
  ghost predicate Counted(es: seq<Event>, r: Posting) {
    LeadsTo(es, Shown(r.applicants)) && (es == [] <==> r.applicants.None?) && (es != [] ==> es[0].was == Text(""))
  }

  ghost const PAID: Agreement := (es, r) => Paid(es, r)
  ghost const COUNTED: Agreement := (es, r) => Counted(es, r)

  // ----- recording a figure ------------------------------------------------------------------

  lemma LeadsOn(es: seq<Event>, e: Event)
    requires LeadsTo(es, e.was)
    ensures LeadsTo(es + [e], e.becomes)
  {
    var now := es + [e];
    assert forall k :: 0 <= k < |es| ==> now[k] == es[k];
  }

  lemma LoggedIsRepeat(log: seq<Event>, e: Event)
    ensures Logged(log, e) <==> Repeats(log, e)
  {
    if Logged(log, e) {
      var i :| 0 <= i < |log| && Same(log[i], e) && log[i].at > e.at - 86400;
      assert SameEvent(log[i], e);
    }
    if Repeats(log, e) {
      var i :| 0 <= i < |log| && SameEvent(log[i], e) && log[i].at > e.at - DAY;
      assert Same(log[i], e);
    }
  }

  /** A change is on record exactly when it is not taken for a repetition. */
  lemma LeadsExactly(log: seq<Event>, e: Event, kinds: set<Kind>)
    requires e.kind in kinds && LeadsTo(Of(log, e.url, kinds), e.was) && e.becomes != e.was
    ensures LeadsTo(Of(Add(log, e), e.url, kinds), e.becomes) <==> !Logged(log, e)
    ensures Logged(log, e) ==> Add(log, e) == log && Of(log, e.url, kinds) != []
    ensures !Logged(log, e) ==> Of(Add(log, e), e.url, kinds) == Of(log, e.url, kinds) + [e]
  {
    LoggedIsRepeat(log, e);
    if Repeats(log, e) {
      RepeatsOf(log, e, kinds);
    } else {
      Appends(log, e, kinds);
      LeadsOn(Of(log, e.url, kinds), e);
    }
  }

  /** Events of other kinds make no event of these a repetition. */
  lemma SameLogged(log: seq<Event>, more: seq<Event>, e: Event, kinds: set<Kind>)
    requires e.kind in kinds && Of(more, e.url, kinds) == Of(log, e.url, kinds)
    ensures Logged(more, e) <==> Logged(log, e)
  {
    RepeatsOf(log, e, kinds);
    RepeatsOf(more, e, kinds);
    LoggedIsRepeat(log, e);
    LoggedIsRepeat(more, e);
  }

  lemma PayStep(log: seq<Event>, u: string, r: Posting, becomes: string, now: int, q: Posting)
    requires Paid(Of(log, u, PAYS), r) && q.salary == if becomes != "" then becomes else r.salary
    ensures Paid(Of(NoteSalary(log, u, r.salary, becomes, now), u, PAYS), q) <==>
              (Moves(r.salary, becomes) ==> !Logged(log, Pay(u, now, r.salary, becomes)))
  {
    RaisedIsMore(r.salary, becomes);
    if Moves(r.salary, becomes) {
      LeadsExactly(log, Pay(u, now, r.salary, becomes), PAYS);
    }
  }

  lemma HeadStep(log: seq<Event>, u: string, r: Posting, becomes: Option<int>, now: int, q: Posting)
    requires Counted(Of(log, u, HEADS), r) && q.applicants == if becomes.Some? then becomes else r.applicants
    ensures Counted(Of(NoteApplicants(log, u, r.applicants, becomes, now), u, HEADS), q) <==>
              (becomes.Some? && becomes != r.applicants ==> !Logged(log, Head(u, now, r.applicants, becomes.value)))
  {
    if becomes.Some? && becomes != r.applicants {
      LeadsExactly(log, Head(u, now, r.applicants, becomes.value), HEADS);
    }
  }

  // ----- what leaves the figures alone -----------------------------------------------------------

  ghost predicate Figures(ks: set<Kind>) {
    ks == PAYS || ks == HEADS
  }

  lemma DatesApart(log: seq<Event>, u: string, was: string, becomes: string, now: int, ks: set<Kind>)
    requires Figures(ks)
    ensures Of(NoteDeadline(log, u, was, becomes, now), u, ks) == Of(log, u, ks)
    ensures Of(NoteRepost(log, u, was, becomes, now), u, ks) == Of(log, u, ks)
  {
    AddOther(log, Move(u, now, was, becomes), u, ks);
    AddOther(log, Event(u, now, Reposted, Text(was), Text(becomes)), u, ks);
  }

  lemma SeeApart(log: seq<Event>, r: Posting, p: Listing, now: int, ks: set<Kind>)
    requires Figures(ks)
    ensures Of(ListingLog(log, r, p, now), p.url, ks) == Of(log, p.url, ks)
  {
    var u := p.url;
    DatesApart(log, u, r.deadline, p.deadline, now, ks);
    var a := NoteDeadline(log, u, r.deadline, p.deadline, now);
    DatesApart(a, u, r.posted, p.posted, now, ks);
    var b := NoteRepost(a, u, r.posted, p.posted, now);
    AddOther(b, Return(u, now, r.lastSeen), u, ks);
    var c := NoteReappeared(b, u, r.lastSeen, now);
    if r.closedAt.Some? {
      AddOther(c, Reopen(u, now, r.closedAt.value), u, ks);
    }
  }

  lemma PageApart(log: seq<Event>, u: string, r: Posting, g: Page, now: int)
    ensures var a := NoteApplicants(log, u, r.applicants, g.applicants, now);
            var b, end := NoteSalary(a, u, r.salary, g.salary, now), PageLog(log, u, r, g, now);
            && Of(end, u, HEADS) == Of(a, u, HEADS)
            && Of(end, u, PAYS) == Of(b, u, PAYS) && Of(a, u, PAYS) == Of(log, u, PAYS)
  {
    AddOther(log, Event(u, now, Applicants, OptionNote(r.applicants), OptionNote(g.applicants)), u, PAYS);
    var a := NoteApplicants(log, u, r.applicants, g.applicants, now);
    RaisedIsMore(r.salary, g.salary);
    AddOther(a, Pay(u, now, r.salary, g.salary), u, HEADS);
    var b := NoteSalary(a, u, r.salary, g.salary, now);
    var c := NoteDeadline(b, u, r.deadline, g.validThru, now);
    DatesApart(b, u, r.deadline, g.validThru, now, PAYS);
    DatesApart(b, u, r.deadline, g.validThru, now, HEADS);
    DatesApart(c, u, r.posted, g.datePosted, now, PAYS);
    DatesApart(c, u, r.posted, g.datePosted, now, HEADS);
  }

  // ----- one operation ------------------------------------------------------------------------------

  /** A page was read and the posting is still there. */
  predicate Reads(db: Db, op: Op) {
    op.Check? && op.url in db.rows && Rested(db.rows[op.url], op.now) && !op.page.failed && !op.page.gone
  }

  /** A salary the operation wants to record has not been recorded within a day. */
  ghost predicate PayFresh(db: Db, op: Op) {
    Reads(db, op) && Moves(db.rows[op.url].salary, op.page.salary) ==>
      !Logged(db.log, Pay(op.url, op.now, db.rows[op.url].salary, op.page.salary))
  }

  /** The same for a number of applicants. */
  ghost predicate HeadFresh(db: Db, op: Op) {
    Reads(db, op) && op.page.applicants.Some? && op.page.applicants != db.rows[op.url].applicants ==>
      !Logged(db.log, Head(op.url, op.now, db.rows[op.url].applicants, op.page.applicants.value))
  }

  ghost const PAY_FRESH: (Db, Op) -> bool := (db, op) => PayFresh(db, op)
  ghost const HEAD_FRESH: (Db, Op) -> bool := (db, op) => HeadFresh(db, op)

  lemma ReadPaid(db: Db, op: Op, u: string, r: Posting)
    requires Reads(db, op) && u == op.url && r == db.rows[u] && Paid(Of(db.log, u, PAYS), r)
    ensures var t := Apply(db, op);
            u in t.rows && (Paid(Of(t.log, u, PAYS), t.rows[u]) <==> PayFresh(db, op))
  {
    var a := NoteApplicants(db.log, u, r.applicants, op.page.applicants, op.now);
    PageApart(db.log, u, r, op.page, op.now);
    PayStep(a, u, r, op.page.salary, op.now, PageRow(r, op.page, op.now));
    SameLogged(db.log, a, Pay(u, op.now, r.salary, op.page.salary), PAYS);
  }

  lemma ReadCounted(db: Db, op: Op, u: string, r: Posting)
    requires Reads(db, op) && u == op.url && r == db.rows[u] && Counted(Of(db.log, u, HEADS), r)
    ensures var t := Apply(db, op);
            u in t.rows && (Counted(Of(t.log, u, HEADS), t.rows[u]) <==> HeadFresh(db, op))
  {
    PageApart(db.log, u, r, op.page, op.now);
    HeadStep(db.log, u, r, op.page.applicants, op.now, PageRow(r, op.page, op.now));
  }

  /** Any other operation leaves a posting's figures and their events alone. */
  lemma NotRead(db: Db, op: Op, u: string, ks: set<Kind>)
    requires !op.Purge? && u == Target(op) && u in db.rows && !Reads(db, op) && Figures(ks)
    ensures var t := Apply(db, op);
            && u in t.rows && Of(t.log, u, ks) == Of(db.log, u, ks)
            && t.rows[u].salary == db.rows[u].salary && t.rows[u].applicants == db.rows[u].applicants
  {
    match op
    case See(p, now) => SeeApart(db.log, db.rows[u], p, now, ks);
    case Check(_, g, now, late) => AddOther(db.log, Closing(u, late), u, ks);
    case _ =>
  }

  lemma TargetPaid(db: Db, op: Op)
    requires EventsOk(db) && Rows(db, PAYS, PAID) && !op.Purge? && Target(op) in Apply(db, op).rows
    ensures Paid(Of(Apply(db, op).log, Target(op), PAYS), Apply(db, op).rows[Target(op)]) <==> PayFresh(db, op)
  {
    var u := Target(op);
    if u !in db.rows {
      NewHasNone(db, u, PAYS);
    } else {
      assert PAID(Of(db.log, u, PAYS), db.rows[u]);
      if Reads(db, op) {
        ReadPaid(db, op, u, db.rows[u]);
      } else {
        NotRead(db, op, u, PAYS);
      }
    }
  }

  lemma TargetCounted(db: Db, op: Op)
    requires EventsOk(db) && Rows(db, HEADS, COUNTED) && !op.Purge? && Target(op) in Apply(db, op).rows
    ensures Counted(Of(Apply(db, op).log, Target(op), HEADS), Apply(db, op).rows[Target(op)]) <==> HeadFresh(db, op)
  {
    var u := Target(op);
    if u !in db.rows {
      NewHasNone(db, u, HEADS);
    } else {
      assert COUNTED(Of(db.log, u, HEADS), db.rows[u]);
      if Reads(db, op) {
        ReadCounted(db, op, u, db.rows[u]);
      } else {
        NotRead(db, op, u, HEADS);
      }
    }
  }

  /** An operation keeps an agreement exactly when it keeps it for its own posting. */
  lemma OpExactly(db: Db, op: Op, kinds: set<Kind>, ok: Agreement, isFresh: bool)
    requires Rows(db, kinds, ok)
    requires if op.Purge? || Target(op) !in Apply(db, op).rows then isFresh
             else ok(Of(Apply(db, op).log, Target(op), kinds), Apply(db, op).rows[Target(op)]) <==> isFresh
    ensures Rows(Apply(db, op), kinds, ok) <==> isFresh
  {
    if isFresh {
      OpKeepsRows(db, op, kinds, ok);
    }
  }

  // ----- any run ----------------------------------------------------------------------------------

  /** Over any run: the salary events of every posting form an unbroken chain up to its stored
      salary at every moment if and only if no change is repeated within a day. */
  lemma SalariesExactly(ops: seq<Op>)
    ensures Throughout(ops, PAYS, PAID) <==> AllFresh(ops, PAY_FRESH)
  {
    forall db, op | EventsOk(db) && Rows(db, PAYS, PAID)
      ensures Rows(Apply(db, op), PAYS, PAID) <==> PAY_FRESH(db, op)
    {
      if !op.Purge? && Target(op) in Apply(db, op).rows {
        TargetPaid(db, op);
      }
      OpExactly(db, op, PAYS, PAID, PayFresh(db, op));
    }
    FreshExactly(ops, PAYS, PAID, PAY_FRESH);
  }

  /** The same for the numbers of applicants, which start from none. */
  lemma ApplicantsExactly(ops: seq<Op>)
    ensures Throughout(ops, HEADS, COUNTED) <==> AllFresh(ops, HEAD_FRESH)
  {
    forall db, op | EventsOk(db) && Rows(db, HEADS, COUNTED)
      ensures Rows(Apply(db, op), HEADS, COUNTED) <==> HEAD_FRESH(db, op)
    {
      if !op.Purge? && Target(op) in Apply(db, op).rows {
        TargetCounted(db, op);
      }
      OpExactly(db, op, HEADS, COUNTED, HeadFresh(db, op));
    }
    FreshExactly(ops, HEADS, COUNTED, HEAD_FRESH);
  }

  // ----- two amounts -----------------------------------------------------------------------------------

  /** An amount among text without digits that is read exactly. */
  ghost predicate ReadExactly(text: string, p: string, a: Amount, q: string) {
    && NoDigits(p) && a.Valid() && NoDigits(q) && text == p + a.Text() + q
    && ReadNat(Hidden(a, q)) == 0
  }

  /** A page that states another amount than the one stored: the change is on record as a raise
      if and only if the new amount is more than 51 / 50 of the old one, and else as a plain
      change. */
  lemma AmountChangeLogged(db: Db, op: Op, p: string, a: Amount, q: string, p': string, b: Amount, q': string)
    requires Reads(db, op) && Moves(db.rows[op.url].salary, op.page.salary)
    requires ReadExactly(db.rows[op.url].salary, p, a, q) && ReadExactly(op.page.salary, p', b, q')
    ensures var kind := if 50 * b.Value() > 51 * a.Value() then SalaryUp else SalaryChanged;
            var was, becomes := db.rows[op.url].salary, op.page.salary;
            Logged(Apply(db, op).log, Event(op.url, op.now, kind, Text(was), Text(becomes)))
  {
    var u, r, g := op.url, db.rows[op.url], op.page;
    AmountReadsBack(p, a, q);
    AmountReadsBack(p', b, q');
    EventsTellChanges(db, op);
    assert Apply(db, op).rows[u] == PageRow(r, g, op.now);
    PageMayPay(u, r, g, op);
  }

  lemma PageMayPay(u: string, r: Posting, g: Page, op: Op)
    requires op.Check? && op.url == u && op.page == g && Moves(r.salary, g.salary)
    ensures Telling(u, r, PageRow(r, g, op.now), op)(Pay(u, op.now, r.salary, g.salary))
  {
    PayTells(u, op.now, r, PageRow(r, g, op.now));
  }

  /** So many ten thousands of euros. */
  function Euros(d: char): Amount {
    Amount([d, '0'], ["000"], '.', "")
  }

  lemma EurosText(d: char)
    requires IsDigit(d)
    ensures "EUR " + Euros(d).Text() + "" == "EUR " + [d] + "0.000" && NoDigits("EUR ") && Euros(d).Valid()
  {
    assert Separated([], '.') == "" && ["000"][..0] == [];
    assert Separated(["000"], '.') == ".000";
  }

  lemma {:induction false} ZerosRead(s: string)
    requires forall i :: 0 <= i < |s| ==> s[i] == '0'
    ensures ReadNat(s) == 0
  {
    if s != "" {
      ZerosRead(s[..|s| - 1]);
    }
  }

  lemma OneDigit(d: char)
    ensures ReadNat([d]) == d as int - '0' as int
  {
    ReadLast("", d);
    assert "" + [d] == [d];
  }

  lemma ZerosBehind(s: string, zeros: string)
    requires forall i :: 0 <= i < |zeros| ==> zeros[i] == '0'
    ensures ReadNat(s + zeros) == ReadNat(s) * Pow10(|zeros|)
  {
    ReadConcat(s, zeros);
    ZerosRead(zeros);
  }

  lemma EurosValue(d: char)
    requires IsDigit(d)
    ensures Euros(d).Value() == 1_000_000 * (d as int - '0' as int)
  {
    var zeros := "0000";
    ConcatOne("000");
    assert [d, '0'] + "000" == [d] + zeros;
    ZerosBehind([d], zeros);
    OneDigit(d);
    assert Pow10(4) == 10000;
  }

  /** From "EUR d0.000" to "EUR e0.000": a raise is on record exactly when e is more. */
  lemma EurosChangeLogged(db: Db, op: Op, d: char, e: char)
    requires '1' <= d <= '9' && '1' <= e <= '9' && d != e && Reads(db, op)
    requires db.rows[op.url].salary == "EUR " + [d] + "0.000" && op.page.salary == "EUR " + [e] + "0.000"
    ensures Logged(Apply(db, op).log,
                   Event(op.url, op.now, if e > d then SalaryUp else SalaryChanged,
                         Text("EUR " + [d] + "0.000"), Text("EUR " + [e] + "0.000")))
  {
    EurosText(d);
    EurosText(e);
    EurosValue(d);
    EurosValue(e);
    assert db.rows[op.url].salary[4] == d && op.page.salary[4] == e;
    AmountChangeLogged(db, op, "EUR ", Euros(d), "", "EUR ", Euros(e), "");
  }
}
