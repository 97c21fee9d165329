/** yyyy-mm-dd dates (full-date of section 5.6 of RFC 3339) compared as strings and as
    days: daysBetween of srv/jobs/signals.go against the string comparisons of
    srv/jobs/store.go and srv/jobs/signals.go. */
module Dates {
  import opened Basics
  import opened Decimal
  import opened TextOrder
  import History
  import HistoryLaws

  datatype Date = Date(y: nat, m: nat, d: nat)

  predicate Leap(y: nat) {
    y % 4 == 0 && (y % 100 != 0 || y % 400 == 0)
  }

  function DaysIn(y: nat, m: nat): nat {
    if m == 2 then (if Leap(y) then 29 else 28) else if m in {4, 6, 9, 11} then 30 else 31
  }

  predicate Valid(t: Date) {
    1 <= t.m <= 12 && 1 <= t.d <= DaysIn(t.y, t.m)
  }

  function DaysBeforeMonth(y: nat, m: nat): nat {
    if m <= 1 then 0 else DaysBeforeMonth(y, m - 1) + DaysIn(y, m - 1)
  }

  function YearLength(y: nat): nat {
    if Leap(y) then 366 else 365
  }

  function DaysBeforeYear(y: nat): nat {
    if y == 0 then 0 else DaysBeforeYear(y - 1) + YearLength(y - 1)
  }

  /** Days since 0000-01-01 of the proleptic Gregorian calendar. */
  function DayNumber(t: Date): int {
    DaysBeforeYear(t.y) + DaysBeforeMonth(t.y, t.m) + t.d - 1
  }

  // ----- day numbers in closed form ----------------------------------------------------------

  lemma NextFour(y: nat)
    requires y > 0
    ensures (y + 3) / 4 == (y + 2) / 4 + if (y - 1) % 4 == 0 then 1 else 0
  {
    var q, r := (y - 1) / 4, (y - 1) % 4;
    assert y == 4 * q + r + 1;
  }

  lemma NextHundred(y: nat)
    requires y > 0
    ensures (y + 99) / 100 == (y + 98) / 100 + if (y - 1) % 100 == 0 then 1 else 0
  {
    var q, r := (y - 1) / 100, (y - 1) % 100;
    assert y == 100 * q + r + 1;
  }

  lemma NextFourHundred(y: nat)
    requires y > 0
    ensures (y + 399) / 400 == (y + 398) / 400 + if (y - 1) % 400 == 0 then 1 else 0
  {
    var q, r := (y - 1) / 400, (y - 1) % 400;
    assert y == 400 * q + r + 1;
  }

  lemma HundredsAreFours(y: nat)
    ensures y % 100 == 0 ==> y % 4 == 0
    ensures y % 400 == 0 ==> y % 100 == 0
  {
    if y % 100 == 0 {
      assert y == 4 * (25 * (y / 100));
    }
    if y % 400 == 0 {
      assert y == 100 * (4 * (y / 400));
    }
  }

  lemma {:induction false} YearsClosed(y: nat)
    ensures DaysBeforeYear(y) == 365 * y + (y + 3) / 4 - (y + 99) / 100 + (y + 399) / 400
  {
    if y > 0 {
      YearsClosed(y - 1);
      NextFour(y);
      NextHundred(y);
      NextFourHundred(y);
      HundredsAreFours(y - 1);
    }
  }

  /** The usual closed form: years begin in March, and 153 days make five months. */
  function CivilDay(t: Date): int {
    var y := if t.m <= 2 then t.y + 399 else t.y + 400;
    365 * y + y / 4 - y / 100 + y / 400 + (153 * ((t.m + 9) % 12) + 2) / 5 + t.d - 146038
  }

  lemma MonthsClosed(y: nat, m: nat)
    requires 1 <= m <= 12
    ensures DaysBeforeMonth(y, m) ==
            (153 * ((m + 9) % 12) + 2) / 5 + if m <= 2 then -306 else if Leap(y) then 60 else 59
  {
    assert DaysBeforeMonth(y, 2) == 31;
    assert DaysBeforeMonth(y, 3) == 31 + DaysIn(y, 2);
    assert DaysBeforeMonth(y, 5) == DaysBeforeMonth(y, 3) + 61;
    assert DaysBeforeMonth(y, 7) == DaysBeforeMonth(y, 5) + 61;
    assert DaysBeforeMonth(y, 9) == DaysBeforeMonth(y, 7) + 62;
    assert DaysBeforeMonth(y, 11) == DaysBeforeMonth(y, 9) + 61;
  }

  lemma CeilFour(y: nat)
    ensures (y + 3) / 4 == y / 4 + if y % 4 == 0 then 0 else 1
  {
  }

  lemma CeilHundred(y: nat)
    ensures (y + 99) / 100 == y / 100 + if y % 100 == 0 then 0 else 1
  {
  }

  lemma CeilFourHundred(y: nat)
    ensures (y + 399) / 400 == y / 400 + if y % 400 == 0 then 0 else 1
  {
  }

  lemma LeapClosed(y: nat)
    ensures (y + 3) / 4 - (y + 99) / 100 + (y + 399) / 400 + (if Leap(y) then 1 else 0) == y / 4 - y / 100 + y / 400 + 1
  {
    CeilFour(y);
    CeilHundred(y);
    CeilFourHundred(y);
    HundredsAreFours(y);
  }

  /** The closed form's years, begun in March or in January. */
  lemma Shifted(y: nat)
    ensures (y + 399) / 4 == (y + 3) / 4 + 99 && (y + 399) / 100 == (y + 99) / 100 + 3
    ensures (y + 400) / 4 == y / 4 + 100 && (y + 400) / 100 == y / 100 + 4 && (y + 400) / 400 == y / 400 + 1
  {
  }

  lemma EarlyDays(y: nat, m: int, d: int)
    ensures var z := y + 399;
            365 * y + (y + 3) / 4 - (y + 99) / 100 + (y + 399) / 400 + (m - 306) + d - 1
            == 365 * z + z / 4 - z / 100 + z / 400 + m + d - 146038
  {
    Shifted(y);
  }

  lemma LateDays(y: nat, m: int, d: int)
    ensures var z := y + 400;
            365 * y + (y + 3) / 4 - (y + 99) / 100 + (y + 399) / 400 + (m + if Leap(y) then 60 else 59) + d - 1
            == 365 * z + z / 4 - z / 100 + z / 400 + m + d - 146038
  {
    Shifted(y);
    LeapClosed(y);
  }

  lemma EarlyCivil(t: Date)
    requires 1 <= t.m <= 2
    ensures DayNumber(t) == CivilDay(t)
  {
    YearsClosed(t.y);
    MonthsClosed(t.y, t.m);
    EarlyDays(t.y, (153 * ((t.m + 9) % 12) + 2) / 5, t.d);
  }

  lemma LateCivil(t: Date)
    requires 3 <= t.m <= 12
    ensures DayNumber(t) == CivilDay(t)
  {
    YearsClosed(t.y);
    MonthsClosed(t.y, t.m);
    LateDays(t.y, (153 * ((t.m + 9) % 12) + 2) / 5, t.d);
  }

  /** Day numbers count the days of the Gregorian calendar. */
  lemma CivilDays(t: Date)
    requires 1 <= t.m <= 12
    ensures DayNumber(t) == CivilDay(t)
  {
    if t.m <= 2 {
      EarlyCivil(t);
    } else {
      LateCivil(t);
    }
  }

  // ----- parsing -------------------------------------------------------------------------

  /** time.Parse with layout 2006-01-02 */
  function Parse(s: string): (t: Option<Date>)
    ensures t.Some? ==> Valid(t.value)
  {
    if |s| == 10 && s[4] == '-' && s[7] == '-' && AllDigits(s[..4]) && AllDigits(s[5..7]) && AllDigits(s[8..]) then
      var t := Date(ReadNat(s[..4]), ReadNat(s[5..7]), ReadNat(s[8..]));
      if Valid(t) then Some(t) else None
    else None
  }

  /** n in k digits, the leading ones zero. */
  function Padded(n: nat, k: nat): (s: string)
    ensures |s| == k && AllDigits(s)
  {
    if k == 0 then "" else Padded(n / 10, k - 1) + [('0' as int + n % 10) as char]
  }

  function Format(t: Date): string {
    Padded(t.y, 4) + ("-" + (Padded(t.m, 2) + ("-" + Padded(t.d, 2))))
  }

  lemma {:induction false} PaddedReads(n: nat, k: nat)
    requires n < Pow10(k)
    ensures ReadNat(Padded(n, k)) == n
  {
    if k > 0 {
      PaddedReads(n / 10, k - 1);
      ReadLast(Padded(n / 10, k - 1), ('0' as int + n % 10) as char);
    }
  }

  lemma FormatParts(t: Date)
    ensures var s := Format(t);
            && |s| == 10 && s[4] == '-' && s[7] == '-'
            && s[..4] == Padded(t.y, 4) && s[5..7] == Padded(t.m, 2) && s[8..] == Padded(t.d, 2)
  {
  }

  lemma DigitsBound(s: string)
    requires AllDigits(s)
    ensures ReadNat(s) < Pow10(|s|)
  {
    if s != "" {
      DigitsBound(s[..|s| - 1]);
    }
  }

  lemma Pows()
    ensures Pow10(2) == 100 && Pow10(4) == 10000
  {
    assert Pow10(1) == 10 && Pow10(3) == 1000;
  }

  lemma FormatParses(t: Date)
    requires Valid(t) && t.y < 10000
    ensures Parse(Format(t)) == Some(t)
  {
    FormatParts(t);
    Pows();
    PaddedReads(t.y, 4);
    PaddedReads(t.m, 2);
    PaddedReads(t.d, 2);
  }

  lemma ParsedYear(s: string)
    requires Parse(s).Some?
    ensures Parse(s).value.y < 10000
  {
    Pows();
    DigitsBound(s[..4]);
  }

  // ----- daysBetween ----------------------------------------------------------------------

  const NANOS_PER_DAY := 86_400_000_000_000
  const MAX_DAYS := 106_751

  /** time.Time.Sub keeps a difference within 64 bits of nanoseconds. */
  function Saturate(ns: int): int {
    if ns > 0x7fff_ffff_ffff_ffff then 0x7fff_ffff_ffff_ffff
    else if ns < -0x8000_0000_0000_0000 then -0x8000_0000_0000_0000 else ns
  }

  /** Division rounding towards zero, as Go's conversion to int does. */
  function Truncated(n: int, k: int): int
    requires k > 0
  {
    if n >= 0 then n / k else -((-n) / k)
  }

  function DaysBetween(a: string, b: string): int {
    var (s, t) := (Parse(a), Parse(b));
    if s.None? || t.None? then 0
    else Truncated(Saturate((DayNumber(t.value) - DayNumber(s.value)) * NANOS_PER_DAY), NANOS_PER_DAY)
  }

  /** Up to 106751 days apart the count is exact, beyond that it stays at the limit. */
  lemma SaturatedDays(diff: int)
    ensures Truncated(Saturate(diff * NANOS_PER_DAY), NANOS_PER_DAY) ==
            if diff > MAX_DAYS then MAX_DAYS else if diff < -MAX_DAYS then -MAX_DAYS else diff
  {
    if diff >= 0 {
      assert Truncated(diff * NANOS_PER_DAY, NANOS_PER_DAY) == diff;
    } else {
      assert (-diff * NANOS_PER_DAY) / NANOS_PER_DAY == -diff;
    }
  }

  lemma DaysAreExact(a: string, b: string)
    ensures Parse(a).None? || Parse(b).None? ==> DaysBetween(a, b) == 0
    ensures Parse(a).Some? && Parse(b).Some? ==>
              var diff := CivilDay(Parse(b).value) - CivilDay(Parse(a).value);
              DaysBetween(a, b) == if diff > MAX_DAYS then MAX_DAYS else if diff < -MAX_DAYS then -MAX_DAYS else diff
  {
    if Parse(a).Some? && Parse(b).Some? {
      CivilDays(Parse(a).value);
      CivilDays(Parse(b).value);
      SaturatedDays(DayNumber(Parse(b).value) - DayNumber(Parse(a).value));
    }
  }

  // ----- calendar order --------------------------------------------------------------------

  predicate Before(s: Date, t: Date) {
    s.y < t.y || (s.y == t.y && (s.m < t.m || (s.m == t.m && s.d < t.d)))
  }

  lemma {:induction false} MonthsAddUp(y: nat, m: nat, n: nat)
    requires 1 <= m < n
    ensures DaysBeforeMonth(y, m) + DaysIn(y, m) <= DaysBeforeMonth(y, n)
    decreases n
  {
    if m < n - 1 {
      MonthsAddUp(y, m, n - 1);
    }
  }

  lemma YearIsItsMonths(y: nat)
    ensures DaysBeforeMonth(y, 13) == YearLength(y)
  {
    assert DaysBeforeMonth(y, 2) == 31;
    assert DaysBeforeMonth(y, 3) == 31 + DaysIn(y, 2);
    assert DaysBeforeMonth(y, 5) == DaysBeforeMonth(y, 3) + 61;
    assert DaysBeforeMonth(y, 7) == DaysBeforeMonth(y, 5) + 61;
    assert DaysBeforeMonth(y, 9) == DaysBeforeMonth(y, 7) + 62;
    assert DaysBeforeMonth(y, 11) == DaysBeforeMonth(y, 9) + 61;
    assert DaysBeforeMonth(y, 13) == DaysBeforeMonth(y, 11) + 61;
  }

  lemma {:induction false} YearsAddUp(x: nat, y: nat)
    requires x < y
    ensures DaysBeforeYear(x) + YearLength(x) <= DaysBeforeYear(y)
    decreases y
  {
    if x < y - 1 {
      YearsAddUp(x, y - 1);
    }
  }

  /** A later date has a greater day number. */
  lemma CalendarOrder(s: Date, t: Date)
    requires Valid(s) && Valid(t) && Before(s, t)
    ensures DayNumber(s) < DayNumber(t)
  {
    if s.y < t.y {
      YearsAddUp(s.y, t.y);
      YearIsItsMonths(s.y);
      MonthsAddUp(s.y, s.m, 13);
    } else if s.m < t.m {
      MonthsAddUp(s.y, s.m, t.m);
    }
  }

  // ----- string order ------------------------------------------------------------------------

  /** Order of concatenations with parts of equal length is lexicographic. */
  lemma {:induction false} LessParts(p: string, q: string, x: string, y: string)
    requires |p| == |q|
    ensures Less(p + x, q + y) <==> Less(p, q) || (p == q && Less(x, y))
  {
    if p == "" {
      assert p + x == x && q + y == y;
    } else {
      assert (p + x)[1..] == p[1..] + x && (q + y)[1..] == q[1..] + y;
      LessParts(p[1..], q[1..], x, y);
      assert p == [p[0]] + p[1..] && q == [q[0]] + q[1..];
    }
  }

  /** Digit strings of one length are ordered as the numbers they denote. */
  lemma {:induction false} DigitOrder(p: string, q: string)
    requires AllDigits(p) && AllDigits(q) && |p| == |q|
    ensures Less(p, q) <==> ReadNat(p) < ReadNat(q)
    ensures p == q <==> ReadNat(p) == ReadNat(q)
  {
    if p != "" {
      var p', q', c, d := p[..|p| - 1], q[..|q| - 1], p[|p| - 1], q[|q| - 1];
      DigitOrder(p', q');
      LessParts(p', q', [c], [d]);
      ReadLast(p', c);
      ReadLast(q', d);
      assert p == p' + [c] && q == q' + [d];
    }
  }

  /** Order of dates from the order of their year, month and day strings. */
  lemma PartsOrder(y: string, m: string, d: string, y': string, m': string, d': string)
    requires |y| == |y'| && |m| == |m'|
    ensures Less(y + ("-" + (m + ("-" + d))), y' + ("-" + (m' + ("-" + d')))) <==>
              Less(y, y') || (y == y' && (Less(m, m') || (m == m' && Less(d, d'))))
  {
    LessParts(y, y', "-" + (m + ("-" + d)), "-" + (m' + ("-" + d')));
    LessParts("-", "-", m + ("-" + d), m' + ("-" + d'));
    LessParts(m, m', "-" + d, "-" + d');
    LessParts("-", "-", d, d');
    Irreflexive("-");
  }

  lemma DateParts(a: string)
    requires Parse(a).Some?
    ensures a == a[..4] + ("-" + (a[5..7] + ("-" + a[8..])))
  {
    assert a[4..5] == "-" && a[7..8] == "-";
  }

  /** On dates the byte order of the strings is the calendar order. */
  lemma DateStringOrder(a: string, b: string)
    requires Parse(a).Some? && Parse(b).Some?
    ensures Less(a, b) <==> Before(Parse(a).value, Parse(b).value)
  {
    DateParts(a);
    DateParts(b);
    PartsOrder(a[..4], a[5..7], a[8..], b[..4], b[5..7], b[8..]);
    DigitOrder(a[..4], b[..4]);
    DigitOrder(a[5..7], b[5..7]);
    DigitOrder(a[8..], b[8..]);
  }

  lemma SameDate(a: string, b: string)
    requires Parse(a).Some? && Parse(a) == Parse(b)
    ensures a == b
  {
    DateStringOrder(a, b);
    DateStringOrder(b, a);
    Total(a, b);
  }

  /** A string parses as a date exactly if it is a valid date of a four-digit year, written in
      four, two and two digits. */
  lemma ParsesExactly(s: string, t: Date)
    ensures Parse(s) == Some(t) <==> Valid(t) && t.y < 10000 && s == Format(t)
  {
    if Valid(t) && t.y < 10000 {
      FormatParses(t);
    }
    if Parse(s) == Some(t) {
      ParsedYear(s);
      FormatParses(t);
      SameDate(s, Format(t));
    }
  }

  /** The sign of daysBetween is the order of the strings, at any distance. */
  lemma OrderAgrees(a: string, b: string)
    requires Parse(a).Some? && Parse(b).Some?
    ensures Less(a, b) <==> DaysBetween(a, b) > 0
    ensures a == b <==> DaysBetween(a, b) == 0
  {
    var s, t := Parse(a).value, Parse(b).value;
    DaysAreExact(a, b);
    CivilDays(s);
    CivilDays(t);
    DateStringOrder(a, b);
    if Before(s, t) {
      CalendarOrder(s, t);
    } else if Before(t, s) {
      CalendarOrder(t, s);
    } else {
      assert s == t;
      SameDate(a, b);
    }
  }

  /** Gaps add up as long as each is within the range of a duration. */
  lemma GapsAddUp(a: string, b: string, c: string)
    requires Parse(a).Some? && Parse(b).Some? && Parse(c).Some?
    requires var x, y, z := CivilDay(Parse(a).value), CivilDay(Parse(b).value), CivilDay(Parse(c).value);
             -MAX_DAYS <= y - x <= MAX_DAYS && -MAX_DAYS <= z - y <= MAX_DAYS && -MAX_DAYS <= z - x <= MAX_DAYS
    ensures DaysBetween(a, b) + DaysBetween(b, c) == DaysBetween(a, c)
    ensures DaysBetween(b, a) == -DaysBetween(a, b)
  {
    var x, y, z := CivilDay(Parse(a).value), CivilDay(Parse(b).value), CivilDay(Parse(c).value);
    GapIs(a, b, x, y);
    GapIs(b, c, y, z);
    GapIs(a, c, x, z);
    GapIs(b, a, y, x);
  }

  lemma GapIs(a: string, b: string, x: int, y: int)
    requires Parse(a).Some? && Parse(b).Some? && x == CivilDay(Parse(a).value) && y == CivilDay(Parse(b).value)
    requires -MAX_DAYS <= y - x <= MAX_DAYS
    ensures DaysBetween(a, b) == y - x
  {
    DaysAreExact(a, b);
  }

  /** Over any run of the tables: an extension recorded between two dates is a gap of
      one day or more, a shortening a gap of one day or more the other way. */
  lemma DeadlineGaps(ops: seq<History.Op>, i: nat)
    requires i < |History.After(ops).log|
    ensures var e := History.After(ops).log[i];
            && (e.kind in {History.DeadlineExtended, History.DeadlineShortened} ==> e.was.Text? && e.becomes.Text?)
            && (e.kind == History.DeadlineExtended && Parse(e.was.s).Some? && Parse(e.becomes.s).Some? ==>
                  DaysBetween(e.was.s, e.becomes.s) > 0)
            && (e.kind == History.DeadlineShortened && Parse(e.was.s).Some? && Parse(e.becomes.s).Some? ==>
                  DaysBetween(e.was.s, e.becomes.s) < 0)
  {
    HistoryLaws.RunsAreRecorded(ops);
    var e := History.After(ops).log[i];
    assert HistoryLaws.DeadlineMoves(e);
    if e.kind in {History.DeadlineExtended, History.DeadlineShortened}
       && Parse(e.was.s).Some? && Parse(e.becomes.s).Some? {
      OrderAgrees(e.was.s, e.becomes.s);
      if e.kind == History.DeadlineShortened {
        Asymmetric(e.becomes.s, e.was.s);
      }
    }
  }
}
