/** Normalising and reading back the four-line briefs of srv/jobs/brief.go. */
module Brief {
  import opened Basics
  import opened Text
  import opened Trim

  datatype Label = What | Terms | Duties | Fit

  const LABELS := [What, Terms, Duties, Fit]

  function Word(l: Label): string {
    match l case What => "What" case Terms => "Terms" case Duties => "Duties" case Fit => "Fit"
  }

  function Lower(c: char): char {
    if 'A' <= c <= 'Z' then ((c as int) + 32) as char else c
  }

  /** strings.EqualFold against one of the labels, which are plain ASCII. */
  predicate EqualFold(a: string, b: string) {
    |a| == |b| && forall i :: 0 <= i < |a| ==> Lower(a[i]) == Lower(b[i])
  }

  function Bullet(): char -> bool {
    c => c in {'-', '*', '\U{2022}', ' '}
  }

  /** A reply line without bullets and surrounding white space. */
  function Bare(line: string): string {
    TrimSpace(TrimLeft(line, Bullet()))
  }

  /** A bare line starts with the label, in any case, and a colon, and says something. */
  predicate Labelled(ln: string, l: Label) {
    |ln| > |Word(l)| + 1 && EqualFold(ln[..|Word(l)|], Word(l)) && ln[|Word(l)|] == ':'
  }

  /** The text after "label:" if the bare line is labelled. */
  function ValueIn(ln: string, l: Label): Option<string> {
    if Labelled(ln, l) then Some(TrimSpace(ln[|Word(l)| + 1..])) else None
  }

  function ValueOf(line: string, l: Label): Option<string> {
    ValueIn(Bare(line), l)
  }

  /** `got` after each label's value, where there is one, was stored. */
  function PutAll(got: map<Label, string>, values: Label -> Option<string>, labels: seq<Label>): map<Label, string> {
    if labels == [] then got else
      var g, l := PutAll(got, values, labels[..|labels| - 1]), labels[|labels| - 1];
      if values(l).Some? then g[l := values(l).value] else g
  }

  function ValuesOf(line: string): Label -> Option<string> {
    l => ValueOf(line, l)
  }

  function PutLabels(got: map<Label, string>, line: string, labels: seq<Label>): map<Label, string> {
    PutAll(got, ValuesOf(line), labels)
  }

  /** The last value of every label the lines contain. */
  function Got(lines: seq<string>, labels: seq<Label>): map<Label, string> {
    if lines == [] then map[]
    else PutLabels(Got(lines[..|lines| - 1], labels), lines[|lines| - 1], labels)
  }

  function Line(l: Label, value: string): string {
    Word(l) + ": " + value
  }

  /** The lines printed, in the order of the labels. */
  function Print(got: map<Label, string>, labels: seq<Label>): seq<string> {
    if labels == [] then [] else
      var p, l := Print(got, labels[..|labels| - 1]), labels[|labels| - 1];
      if l in got && got[l] != "" then p + [Line(l, got[l])] else p
  }

  /** A reply without outer white space and quotes. */
  function Stripped(out: string): string {
    TrimSpace(TrimChar(TrimSpace(out), '"'))
  }

  function NormalizedBy(out: string, labels: seq<Label>): string {
    var got := Got(Split(out, '\n'), labels);
    if got == map[] then Stripped(out) else Join(Print(got, labels), '\n')
  }

  function Normalized(out: string): string {
    NormalizedBy(out, LABELS)
  }

  /** Stores the values of one line. */
  method PutLine(before: map<Label, string>, values: Label -> Option<string>, labels: seq<Label>)
    returns (got: map<Label, string>)
    ensures got == PutAll(before, values, labels)
  {
    got := before;
    for k := 0 to |labels|
      invariant got == PutAll(before, values, labels[..k])
    {
      assert labels[..k + 1][..k] == labels[..k];
      var v := values(labels[k]);
      if v.Some? {
        got := got[labels[k] := v.value];
      }
    }
    assert labels[..|labels|] == labels;
  }

  /** The labelled values of a reply, later lines overwriting earlier ones. */
  method Gather(lines: seq<string>, labels: seq<Label>) returns (got: map<Label, string>)
    ensures got == Got(lines, labels)
  {
    got := map[];
    for i := 0 to |lines|
      invariant got == Got(lines[..i], labels)
    {
      assert lines[..i + 1][..i] == lines[..i];
      got := PutLine(got, ValuesOf(lines[i]), labels);
    }
    assert lines[..|lines|] == lines;
  }

  method PrintLines(got: map<Label, string>, labels: seq<Label>) returns (lines: seq<string>)
    ensures lines == Print(got, labels)
  {
    lines := [];
    for k := 0 to |labels|
      invariant lines == Print(got, labels[..k])
    {
      assert labels[..k + 1][..k] == labels[..k];
      var l := labels[k];
      if l in got && got[l] != "" {
        lines := lines + [Line(l, got[l])];
      }
    }
    assert labels[..|labels|] == labels;
  }

  method NormalizeBrief(out: string) returns (brief: string)
    ensures brief == Normalized(out)
  {
    var got := Gather(Split(out, '\n'), LABELS);
    if got == map[] {
      return Stripped(out);
    }
    var lines := PrintLines(got, LABELS);
    return Join(lines, '\n');
  }

  // ----- reading back -------------------------------------------------------------------

  datatype Item = Item(name: string, text: string)

  function IndexOf(s: string, c: char): (i: int)
    ensures -1 <= i < |s| && (i >= 0 ==> s[i] == c && c !in s[..i]) && (i < 0 ==> c !in s)
  {
    if s == [] then -1
    else if s[0] == c then 0
    else var i := IndexOf(s[1..], c); if i < 0 then -1 else i + 1
  }

  /** The item a line of a stored brief stands for, if any. */
  function ItemOf(line: string): Option<Item> {
    var i := IndexOf(line, ':');
    if i > 0 && ByteLen(line[..i]) < 12 then Some(Item(TrimSpace(line[..i]), TrimSpace(line[i + 1..]))) else None
  }

  function Parser(): string -> Option<Item> {
    line => ItemOf(line)
  }

  /** The items among the lines, in order. */
  function Collect(parse: string -> Option<Item>, lines: seq<string>): seq<Item> {
    if lines == [] then [] else
      var c, i := Collect(parse, lines[..|lines| - 1]), parse(lines[|lines| - 1]);
      if i.Some? then c + [i.value] else c
  }

  function Items(brief: string): seq<Item> {
    var c := Collect(Parser(), Split(brief, '\n'));
    if |c| < 2 then [] else c
  }

  method CollectItems(parse: string -> Option<Item>, lines: seq<string>) returns (out: seq<Item>)
    ensures out == Collect(parse, lines)
  {
    out := [];
    for k := 0 to |lines|
      invariant out == Collect(parse, lines[..k])
    {
      assert lines[..k + 1][..k] == lines[..k];
      var item := parse(lines[k]);
      if item.Some? {
        out := out + [item.value];
      }
    }
    assert lines[..|lines|] == lines;
  }

  method BriefItems(brief: string) returns (out: seq<Item>)
    ensures out == Items(brief)
  {
    out := CollectItems(Parser(), Split(brief, '\n'));
    if |out| < 2 {
      out := [];
    }
  }

  // ----- what is kept of a reply -------------------------------------------------------------

  /** A value that survives printing: something on one line, without outer white space. */
  predicate Clean(v: string) {
    v != "" && Trimmed(v) && '\n' !in v
  }

  ghost predicate AllClean(got: map<Label, string>) {
    forall l :: l in got ==> Clean(got[l])
  }

  lemma BareFacts(line: string)
    ensures Trimmed(Bare(line)) && forall c :: c in Bare(line) ==> c in line
  {
    var t := TrimLeft(line, Bullet());
    assert forall c :: c in t ==> c in line;
    TrimSpaceTrims(t);
  }

  lemma TailIsClean(ln: string, k: nat)
    requires Trimmed(ln) && '\n' !in ln && k < |ln|
    ensures Clean(TrimSpace(ln[k..]))
  {
    var tail := ln[k..];
    assert tail[|tail| - 1] == ln[|ln| - 1];
    assert forall c :: c in tail ==> c in ln;
    TrimSpaceTrims(tail);
    TrimSpaceNonEmpty(tail);
  }

  lemma ValuesAreClean(line: string, l: Label)
    requires '\n' !in line && ValueOf(line, l).Some?
    ensures Clean(ValueOf(line, l).value)
  {
    BareFacts(line);
    TailIsClean(Bare(line), |Word(l)| + 1);
  }

  lemma {:induction false} PutIsClean(got: map<Label, string>, values: Label -> Option<string>, labels: seq<Label>)
    requires AllClean(got) && forall l :: values(l).Some? ==> Clean(values(l).value)
    ensures AllClean(PutAll(got, values, labels))
  {
    if labels != [] {
      PutIsClean(got, values, labels[..|labels| - 1]);
    }
  }

  lemma {:induction false} GotIsClean(lines: seq<string>, labels: seq<Label>)
    requires forall i :: 0 <= i < |lines| ==> '\n' !in lines[i]
    ensures AllClean(Got(lines, labels))
  {
    if lines != [] {
      GotIsClean(lines[..|lines| - 1], labels);
      var line := lines[|lines| - 1];
      forall l | ValuesOf(line)(l).Some? ensures Clean(ValuesOf(line)(l).value) {
        ValuesAreClean(line, l);
      }
      PutIsClean(Got(lines[..|lines| - 1], labels), ValuesOf(line), labels);
    }
  }

  // ----- printed lines ------------------------------------------------------------------------

  lemma WordFacts(l: Label)
    ensures var w := Word(l);
            && |w| > 0 && ':' !in w && '\n' !in w && Trimmed(w) && ByteLen(w) < 12
            && !Bullet()(w[0]) && w[0] in {'W', 'T', 'D', 'F'}
  {
    AsciiBytes(Word(l));
  }

  function Initial(l: Label): char {
    match l case What => 'W' case Terms => 'T' case Duties => 'D' case Fit => 'F'
  }

  lemma InitialIsFirst(l: Label)
    ensures Word(l) != [] && Word(l)[0] == Initial(l)
  {
  }

  lemma LineParts(l: Label, v: string)
    ensures var ln, w := Line(l, v), Word(l);
            && |ln| == |w| + 2 + |v| && ln[..|w|] == w && ln[|w|] == ':' && ln[|w| + 1..] == [' '] + v
            && ln[0] == w[0] && (v != "" ==> ln[|ln| - 1] == v[|v| - 1])
            && (forall c :: c in ln ==> c in w || c == ':' || c == ' ' || c in v)
  {
    WordFacts(l);
    var w := Word(l);
    assert ": " == [':'] + [' '];
    assert Line(l, v) == (w + [':']) + ([' '] + v);
    assert |w + [':']| == |w| + 1;
    assert Line(l, v)[..|w|] == w;
  }

  /** A line that bullets and white space do not touch. */
  predicate Plain(ln: string) {
    ln != [] && Trimmed(ln) && ln[0] !in {'-', '*', '\U{2022}', ' '}
  }

  lemma PlainIsBare(ln: string)
    requires Plain(ln)
    ensures Bare(ln) == ln
  {
    assert !Bullet()(ln[0]);
    TrimSpaceKeeps(ln);
  }

  lemma PlainParses(ln: string, l: Label, v: string)
    requires Plain(ln) && Clean(v) && Labelled(ln, l) && ln[|Word(l)| + 1..] == [' '] + v
    ensures ValueOf(ln, l) == Some(v)
  {
    PlainIsBare(ln);
    TrimSpaceKeeps(v);
  }

  lemma FoldedStart(ln: string, w: string)
    requires |ln| > |w| > 0 && EqualFold(ln[..|w|], w)
    ensures Lower(ln[0]) == Lower(w[0])
  {
    assert ln[..|w|][0] == ln[0];
  }

  lemma OtherStart(ln: string, m: Label)
    requires ln != [] && Lower(ln[0]) != Lower(Initial(m))
    ensures !Labelled(ln, m)
  {
    var w := Word(m);
    InitialIsFirst(m);
    if |ln| > |w| && EqualFold(ln[..|w|], w) {
      FoldedStart(ln, w);
      assert false;
    }
  }

  lemma PlainFails(ln: string, m: Label)
    requires Plain(ln) && Lower(ln[0]) != Lower(Initial(m))
    ensures ValueOf(ln, m) == None
  {
    PlainIsBare(ln);
    OtherStart(ln, m);
  }

  lemma InitialsDiffer(l: Label, m: Label)
    ensures l != m ==> Lower(Initial(l)) != Lower(Initial(m))
    ensures Lower('"') != Lower(Initial(l))
  {
    assert Lower('W') == 'w' && Lower('T') == 't' && Lower('D') == 'd' && Lower('F') == 'f';
  }

  lemma LineIsPlain(l: Label, v: string)
    requires Clean(v)
    ensures Plain(Line(l, v)) && Line(l, v)[0] == Initial(l)
  {
    LineParts(l, v);
    WordFacts(l);
    InitialIsFirst(l);
  }

  lemma OwnLabelParses(l: Label, v: string)
    requires Clean(v)
    ensures ValueOf(Line(l, v), l) == Some(v)
  {
    LineParts(l, v);
    LineIsPlain(l, v);
    assert Labelled(Line(l, v), l);
    PlainParses(Line(l, v), l, v);
  }

  lemma OtherLabelFails(l: Label, v: string, m: Label)
    requires Clean(v) && m != l
    ensures ValueOf(Line(l, v), m) == None
  {
    LineIsPlain(l, v);
    InitialsDiffer(l, m);
    PlainFails(Line(l, v), m);
  }

  lemma {:induction false} IndexIs(s: string, c: char, i: nat)
    requires i < |s| && s[i] == c && c !in s[..i]
    ensures IndexOf(s, c) == i
  {
    if i > 0 {
      assert s[..i][0] == s[0];
      assert s[1..][..i - 1] == s[..i][1..];
      IndexIs(s[1..], c, i - 1);
    }
  }

  lemma LineIsItem(l: Label, v: string)
    requires Clean(v)
    ensures ItemOf(Line(l, v)) == Some(Item(Word(l), v))
  {
    LineParts(l, v);
    WordFacts(l);
    IndexIs(Line(l, v), ':', |Word(l)|);
    TrimSpaceKeeps(v);
    TrimSpaceKeeps(Word(l));
  }

  /** A line is an item exactly if its first colon stands behind one to eleven bytes. */
  lemma ItemExactly(name: string, rest: string)
    requires ':' !in name
    ensures ItemOf(name + ([':'] + rest)) ==
            if 0 < ByteLen(name) < 12 then Some(Item(TrimSpace(name), TrimSpace(rest))) else None
    ensures ItemOf(name) == None
  {
    var line := name + ([':'] + rest);
    IndexIs(line, ':', |name|);
    assert line[..|name|] == name && line[|name| + 1..] == rest;
    ByteLenAtLeast(name);
  }

  // ----- round trips ------------------------------------------------------------------------------

  /** The labels that have a value, with it, in order. */
  function Expected(got: map<Label, string>, labels: seq<Label>): seq<Item> {
    if labels == [] then [] else
      var e, l := Expected(got, labels[..|labels| - 1]), labels[|labels| - 1];
      if l in got then e + [Item(Word(l), got[l])] else e
  }

  lemma LineReadsBack(l: Label, v: string)
    requires Clean(v)
    ensures Parser()(Line(l, v)) == Some(Item(Word(l), v)) && '\n' !in Line(l, v)
  {
    LineIsItem(l, v);
    LineParts(l, v);
    WordFacts(l);
  }

  lemma CollectStep(parse: string -> Option<Item>, lines: seq<string>, line: string)
    requires parse(line).Some?
    ensures Collect(parse, lines + [line]) == Collect(parse, lines) + [parse(line).value]
  {
    assert (lines + [line])[..|lines|] == lines;
  }

  /** What the lines printed for some labels read as. */
  ghost predicate ReadsAs(p: seq<string>, e: seq<Item>) {
    && Collect(Parser(), p) == e && |p| == |e|
    && forall i :: 0 <= i < |p| ==> '\n' !in p[i]
  }

  lemma ReadsOneMore(p: seq<string>, e: seq<Item>, l: Label, v: string)
    requires ReadsAs(p, e) && Clean(v)
    ensures ReadsAs(p + [Line(l, v)], e + [Item(Word(l), v)])
  {
    LineReadsBack(l, v);
    CollectStep(Parser(), p, Line(l, v));
  }

  lemma PrintStep(got: map<Label, string>, front: seq<Label>, l: Label)
    requires AllClean(got)
    ensures Print(got, front + [l]) == Print(got, front) + if l in got then [Line(l, got[l])] else []
    ensures Expected(got, front + [l]) == Expected(got, front) + if l in got then [Item(Word(l), got[l])] else []
  {
    assert (front + [l])[..|front|] == front;
  }

  lemma {:induction false} PrintReadsBack(got: map<Label, string>, labels: seq<Label>)
    requires AllClean(got)
    ensures ReadsAs(Print(got, labels), Expected(got, labels))
  {
    if labels != [] {
      var front, l := labels[..|labels| - 1], labels[|labels| - 1];
      assert labels == front + [l];
      PrintReadsBack(got, front);
      PrintStep(got, front, l);
      if l in got {
        ReadsOneMore(Print(got, front), Expected(got, front), l, got[l]);
      }
    }
  }

  function Restrict(got: map<Label, string>, labels: seq<Label>): map<Label, string> {
    map l | l in got && l in labels :: got[l]
  }

  lemma RestrictStep(got: map<Label, string>, front: seq<Label>, l: Label)
    ensures Restrict(got, front + [l]) == if l in got then Restrict(got, front)[l := got[l]] else Restrict(got, front)
    ensures l !in front ==> |Restrict(got, front + [l])| == |Restrict(got, front)| + if l in got then 1 else 0
  {
    var now := if l in got then Restrict(got, front)[l := got[l]] else Restrict(got, front);
    assert Restrict(got, front + [l]) == now;
  }

  /** Values that only one label has. */
  lemma {:induction false} OnePuts(got: map<Label, string>, values: Label -> Option<string>, l: Label, v: string,
                                   labels: seq<Label>)
    requires values(l) == Some(v) && forall m :: m != l ==> values(m) == None
    ensures PutAll(got, values, labels) == if l in labels then got[l := v] else got
  {
    if labels != [] {
      var front, m := labels[..|labels| - 1], labels[|labels| - 1];
      OnePuts(got, values, l, v, front);
      assert labels == front + [m];
    }
  }

  lemma PrintedLinePuts(got: map<Label, string>, l: Label, v: string, labels: seq<Label>)
    requires Clean(v) && l in labels
    ensures PutLabels(got, Line(l, v), labels) == got[l := v]
  {
    OwnLabelParses(l, v);
    forall m | m != l ensures ValuesOf(Line(l, v))(m) == None {
      OtherLabelFails(l, v, m);
    }
    OnePuts(got, ValuesOf(Line(l, v)), l, v, labels);
  }

  lemma GotStep(lines: seq<string>, line: string, labels: seq<Label>)
    ensures Got(lines + [line], labels) == PutLabels(Got(lines, labels), line, labels)
  {
    assert (lines + [line])[..|lines|] == lines;
  }

  /** Printed lines are gathered back, label by label. */
  lemma {:induction false} PrintGathers(got: map<Label, string>, labels: seq<Label>, all: seq<Label>)
    requires AllClean(got) && forall l :: l in labels ==> l in all
    ensures Got(Print(got, labels), all) == Restrict(got, labels)
  {
    if labels != [] {
      var front, l := labels[..|labels| - 1], labels[|labels| - 1];
      assert labels == front + [l];
      PrintGathers(got, front, all);
      RestrictStep(got, front, l);
      if l in got {
        GotStep(Print(got, front), Line(l, got[l]), all);
        PrintedLinePuts(Restrict(got, front), l, got[l], all);
      }
    }
  }

  lemma {:induction false} ExpectedCounts(got: map<Label, string>, labels: seq<Label>)
    requires forall i, j :: 0 <= i < j < |labels| ==> labels[i] != labels[j]
    ensures |Expected(got, labels)| == |Restrict(got, labels)|
  {
    if labels != [] {
      var front, l := labels[..|labels| - 1], labels[|labels| - 1];
      ExpectedCounts(got, front);
      assert labels == front + [l];
      RestrictStep(got, front, l);
    }
  }

  /** Every label once. */
  ghost predicate Complete(labels: seq<Label>) {
    (forall i, j :: 0 <= i < j < |labels| ==> labels[i] != labels[j]) && forall l: Label :: l in labels
  }

  lemma LabelsComplete()
    ensures Complete(LABELS)
  {
    forall l: Label ensures l in LABELS {
      match l
      case What => assert LABELS[0] == l;
      case Terms => assert LABELS[1] == l;
      case Duties => assert LABELS[2] == l;
      case Fit => assert LABELS[3] == l;
    }
  }

  lemma RestrictAll(got: map<Label, string>, labels: seq<Label>)
    requires Complete(labels)
    ensures Restrict(got, labels) == got
  {
  }

  lemma PrintCounts(got: map<Label, string>, labels: seq<Label>)
    requires Complete(labels) && AllClean(got)
    ensures |Print(got, labels)| == |Expected(got, labels)| == |got|
  {
    PrintReadsBack(got, labels);
    ExpectedCounts(got, labels);
    RestrictAll(got, labels);
  }

  lemma SomethingPrinted(got: map<Label, string>, labels: seq<Label>)
    requires Complete(labels) && AllClean(got) && got != map[]
    ensures Print(got, labels) != []
  {
    PrintCounts(got, labels);
    assert |got| != 0;
  }

  lemma PrintedSplits(got: map<Label, string>, p: seq<string>, labels: seq<Label>)
    requires AllClean(got) && p == Print(got, labels) && p != []
    ensures Split(Join(p, '\n'), '\n') == p && Collect(Parser(), p) == Expected(got, labels)
  {
    PrintReadsBack(got, labels);
    SplitJoin(p, '\n');
  }

  lemma PrintedGathers(got: map<Label, string>, labels: seq<Label>)
    requires Complete(labels) && AllClean(got)
    ensures Got(Print(got, labels), labels) == got
  {
    PrintGathers(got, labels, labels);
    RestrictAll(got, labels);
  }

  /** A text printed from clean values, normalised and read back. */
  lemma PrintedText(text: string, got: map<Label, string>, p: seq<string>, labels: seq<Label>)
    requires Complete(labels) && AllClean(got) && got != map[] && p == Print(got, labels) && text == Join(p, '\n')
    ensures Got(Split(text, '\n'), labels) == got
    ensures Items(text) == if |got| >= 2 then Expected(got, labels) else []
  {
    SomethingPrinted(got, labels);
    PrintedSplits(got, p, labels);
    PrintedGathers(got, labels);
    PrintCounts(got, labels);
  }

  lemma RoundTrip(out: string, labels: seq<Label>)
    requires Complete(labels) && Got(Split(out, '\n'), labels) != map[]
    ensures var got, text := Got(Split(out, '\n'), labels), NormalizedBy(out, labels);
            Items(text) == (if |got| >= 2 then Expected(got, labels) else []) && Got(Split(text, '\n'), labels) == got
  {
    var got := Got(Split(out, '\n'), labels);
    GotIsClean(Split(out, '\n'), labels);
    PrintedText(Join(Print(got, labels), '\n'), got, Print(got, labels), labels);
  }

  /** The same labels give the same text. */
  lemma SameText(a: string, b: string, labels: seq<Label>)
    requires Got(Split(a, '\n'), labels) == Got(Split(b, '\n'), labels) != map[]
    ensures NormalizedBy(a, labels) == NormalizedBy(b, labels)
  {
  }

  /** Reading back a normalised reply: with at least one recognised label, the items are
      exactly the last value of each label, in label order, if there are two or more
      labels, and none if there is one. */
  lemma BriefRoundTrip(out: string)
    requires Got(Split(out, '\n'), LABELS) != map[]
    ensures var got := Got(Split(out, '\n'), LABELS);
            Items(Normalized(out)) == if |got| >= 2 then Expected(got, LABELS) else []
  {
    LabelsComplete();
    RoundTrip(out, LABELS);
  }

  /** Normalising again changes nothing once a label was recognised. */
  lemma NormalizeIsIdempotent(out: string)
    requires Got(Split(out, '\n'), LABELS) != map[]
    ensures Normalized(Normalized(out)) == Normalized(out)
  {
    LabelsComplete();
    RoundTrip(out, LABELS);
    SameText(Normalized(out), out, LABELS);
  }

  /** A reply that does not start like any label. */
  lemma PlainReply(s: string, labels: seq<Label>)
    requires '\n' !in s && Plain(s) && s[0] == '"'
    ensures Got(Split(s, '\n'), labels) == map[]
  {
    SplitClean(s, '\n');
    assert [s][..0] == [];
    forall l: Label ensures ValuesOf(s)(l) == None {
      InitialsDiffer(l, l);
      PlainFails(s, l);
    }
    NothingPuts(ValuesOf(s), labels);
  }

  lemma {:induction false} NothingPuts(values: Label -> Option<string>, labels: seq<Label>)
    requires forall l :: values(l) == None
    ensures PutAll(map[], values, labels) == map[]
  {
    if labels != [] {
      NothingPuts(values, labels[..|labels| - 1]);
    }
  }

  lemma TrimmedKeeps(t: string)
    requires Trimmed(t)
    ensures TrimSpace(t) == t
  {
    if t != "" {
      TrimSpaceKeeps(t);
    }
  }

  // ----- texts that change twice ------------------------------------------------------------------------

  /** One line without outer quotes or white space. */
  predicate Unquoted(t: string) {
    t != [] && '\n' !in t && t[0] != '"' && t[|t| - 1] != '"' && Trimmed(t)
  }

  /** A quoted reply on one line. */
  predicate OneLine(out: string) {
    '\n' !in out && Plain(out) && out[0] == '"'
  }

  /** Of such a reply the quotes go, then the white space. */
  lemma QuotedLoses(out: string, u: string, t: string, labels: seq<Label>)
    requires OneLine(out) && TrimChar(out, '"') == u && TrimSpace(u) == t
    ensures NormalizedBy(out, labels) == t
  {
    PlainReply(out, labels);
    TrimmedKeeps(out);
  }

  lemma QuoteIsOneLine(out: string, u: string)
    requires out == ['"'] + u && '\n' !in u && u != [] && !IsSpace(u[|u| - 1])
    ensures OneLine(out)
  {
    assert out[|out| - 1] == u[|u| - 1];
  }

  /** An unmatched leading quote is dropped, with the white space behind it. */
  lemma QuoteLost(out: string, u: string, labels: seq<Label>)
    requires out == ['"'] + u && '\n' !in u && u != [] && u[0] != '"' && u[|u| - 1] != '"' && !IsSpace(u[|u| - 1])
    ensures NormalizedBy(out, labels) == TrimSpace(u)
  {
    QuoteIsOneLine(out, u);
    TrimOne(u, '"');
    QuotedLoses(out, u, TrimSpace(u), labels);
  }

  lemma QuoteInFront(once: string, t: string)
    requires Unquoted(t) && once == ['"'] + t
    ensures '\n' !in once && Trimmed(once) && once[|once| - 1] != '"' && !IsSpace(once[|once| - 1])
  {
    assert once[|once| - 1] == t[|t| - 1];
  }

  lemma SpaceInFront(u: string, once: string)
    requires u == [' '] + once && once != [] && '\n' !in once && Trimmed(once)
    ensures '\n' !in u && u[0] == ' ' && u[|u| - 1] == once[|once| - 1] && TrimSpace(u) == once
  {
    TrimSpaceKeeps(once);
  }

  /** A quote inside quotes: with each normalising one layer is lost. */
  lemma InnerQuoteChangesTwice(out: string, once: string, t: string, labels: seq<Label>)
    requires Unquoted(t) && once == ['"'] + t && out == ['"'] + ([' '] + once)
    ensures NormalizedBy(out, labels) == once && NormalizedBy(once, labels) == t
  {
    var u := [' '] + once;
    QuoteInFront(once, t);
    SpaceInFront(u, once);
    TrimmedKeeps(t);
    QuoteLost(out, u, labels);
    QuoteLost(once, t, labels);
  }

  lemma QuotedIsOneLine(out: string, t: string)
    requires Unquoted(t) && out == ['"'] + (t + ['"'])
    ensures OneLine(out)
  {
    assert out[0] == '"' && out[|out| - 1] == '"';
  }

  /** Quotes around a line are dropped. */
  lemma QuotesLost(out: string, t: string, labels: seq<Label>)
    requires Unquoted(t) && out == ['"'] + (t + ['"'])
    ensures NormalizedBy(out, labels) == t
  {
    QuotedIsOneLine(out, t);
    TrimBoth(t, '"');
    TrimmedKeeps(t);
    QuotedLoses(out, t, t, labels);
  }

  /** A label in any case, a colon and a value. */
  predicate Spelled(t: string, l: Label, v: string) {
    && Clean(v) && |t| == |Word(l)| + 2 + |v|
    && Labelled(t, l) && t[|Word(l)| + 1..] == [' '] + v && '\n' !in t
  }

  /** And no quote at the end. */
  predicate Recased(t: string, l: Label, v: string) {
    Spelled(t, l, v) && v[|v| - 1] != '"'
  }

  lemma SpelledIsPlain(t: string, l: Label, v: string)
    requires Spelled(t, l, v)
    ensures Plain(t) && Lower(t[0]) == Lower(Initial(l)) && t[0] != '"' && t[|t| - 1] == v[|v| - 1]
  {
    InitialIsFirst(l);
    FoldedStart(t, Word(l));
    FoldedInitial(t[0], l);
    assert t[|t| - 1] == t[|Word(l)| + 1..][|v|];
  }

  lemma RecasedIsPlain(t: string, l: Label, v: string)
    requires Recased(t, l, v)
    ensures Unquoted(t) && Plain(t)
  {
    SpelledIsPlain(t, l, v);
  }

  lemma FoldedInitial(c: char, l: Label)
    requires Lower(c) == Lower(Initial(l))
    ensures !IsSpace(c) && c !in {'"', '-', '*', '\U{2022}', ' '}
  {
  }

  lemma {:induction false} PrintOne(l: Label, v: string, labels: seq<Label>)
    requires v != "" && forall i, j :: 0 <= i < j < |labels| ==> labels[i] != labels[j]
    ensures Print(map[l := v], labels) == if l in labels then [Line(l, v)] else []
  {
    if labels != [] {
      var front, m := labels[..|labels| - 1], labels[|labels| - 1];
      assert labels == front + [m];
      PrintOne(l, v, front);
    }
  }

  lemma SpelledOnly(t: string, l: Label, v: string)
    requires Spelled(t, l, v)
    ensures ValuesOf(t)(l) == Some(v) && forall m :: m != l ==> ValuesOf(t)(m) == None
  {
    SpelledIsPlain(t, l, v);
    PlainParses(t, l, v);
    forall m | m != l ensures ValuesOf(t)(m) == None {
      InitialsDiffer(l, m);
      PlainFails(t, m);
    }
  }

  lemma GotOfOne(t: string, labels: seq<Label>)
    requires '\n' !in t
    ensures Got(Split(t, '\n'), labels) == PutAll(map[], ValuesOf(t), labels)
  {
    SplitClean(t, '\n');
    assert [t][..0] == [];
  }

  lemma {:induction false} BulletsSkipped(b: string, line: string)
    requires forall i :: 0 <= i < |b| ==> b[i] in {'-', '*', '\U{2022}', ' '}
    ensures TrimLeft(b + line, Bullet()) == TrimLeft(line, Bullet())
  {
    if b == "" {
      assert b + line == line;
    } else {
      assert b + line == [b[0]] + (b[1..] + line);
      TrimLeftFirst(b[0], b[1..] + line, Bullet());
      BulletsSkipped(b[1..], line);
    }
  }

  lemma SameValue(out: string, t: string, m: Label)
    requires Bare(out) == Bare(t)
    ensures ValuesOf(out)(m) == ValuesOf(t)(m)
  {
  }

  lemma BareSkips(out: string, b: string, t: string)
    requires (forall i :: 0 <= i < |b| ==> b[i] in {'-', '*', '\U{2022}', ' '}) && out == b + t
    ensures Bare(out) == Bare(t)
  {
    BulletsSkipped(b, t);
  }

  lemma SeenAlike(out: string, t: string, l: Label, v: string)
    requires Bare(out) == Bare(t) && ValuesOf(t)(l) == Some(v) && forall m :: m != l ==> ValuesOf(t)(m) == None
    ensures ValuesOf(out)(l) == Some(v) && forall m :: m != l ==> ValuesOf(out)(m) == None
  {
    SameValue(out, t, l);
    forall m | m != l ensures ValuesOf(out)(m) == None {
      SameValue(out, t, m);
    }
  }

  lemma BulletsOnOneLine(out: string, b: string, t: string)
    requires forall i :: 0 <= i < |b| ==> b[i] in {'-', '*', '\U{2022}', ' '}
    requires out == b + t && '\n' !in t
    ensures '\n' !in out
  {
  }

  lemma BulletedReads(out: string, b: string, t: string, l: Label, v: string, labels: seq<Label>)
    requires forall i :: 0 <= i < |b| ==> b[i] in {'-', '*', '\U{2022}', ' '}
    requires out == b + t && Spelled(t, l, v) && Complete(labels)
    ensures Got(Split(out, '\n'), labels) == map[l := v]
  {
    BareSkips(out, b, t);
    SpelledOnly(t, l, v);
    SeenAlike(out, t, l, v);
    BulletsOnOneLine(out, b, t);
    GotOfOne(out, labels);
    OnePuts(map[], ValuesOf(out), l, v, labels);
  }

  lemma JoinOne(x: string)
    ensures Join([x], '\n') == x
  {
    assert [x][..0] == [];
  }

  lemma LabelNormalizes(t: string, got: map<Label, string>, x: string, labels: seq<Label>)
    requires Got(Split(t, '\n'), labels) == got && got != map[] && Print(got, labels) == [x]
    ensures NormalizedBy(t, labels) == x
  {
    JoinOne(x);
  }

  lemma BulletedBy(out: string, b: string, t: string, l: Label, v: string, labels: seq<Label>)
    requires forall i :: 0 <= i < |b| ==> b[i] in {'-', '*', '\U{2022}', ' '}
    requires out == b + t && Spelled(t, l, v) && Complete(labels)
    ensures NormalizedBy(out, labels) == Line(l, v)
  {
    var got := map[l := v];
    BulletedReads(out, b, t, l, v, labels);
    PrintOne(l, v, labels);
    assert l in got;
    LabelNormalizes(out, got, Line(l, v), labels);
  }

  lemma SpelledNormalizes(t: string, l: Label, v: string, labels: seq<Label>)
    requires Spelled(t, l, v) && Complete(labels)
    ensures NormalizedBy(t, labels) == Line(l, v)
  {
    assert t == "" + t;
    BulletedBy(t, "", t, l, v, labels);
  }

  /** A label in any case is recognised behind any bullets, and printed as it should be. */
  lemma BulletedNormalizes(b: string, t: string, l: Label, v: string)
    requires forall i :: 0 <= i < |b| ==> b[i] in {'-', '*', '\U{2022}', ' '}
    requires Spelled(t, l, v)
    ensures Normalized(b + t) == Line(l, v)
  {
    LabelsComplete();
    BulletedBy(b + t, b, t, l, v, LABELS);
  }

  /** A quoted line with a label loses its quotes first; then the label is seen, and printed
      as it should be. */
  lemma QuotedLabelChangesTwice(out: string, t: string, l: Label, v: string, labels: seq<Label>)
    requires Recased(t, l, v) && Complete(labels) && out == ['"'] + (t + ['"'])
    ensures NormalizedBy(out, labels) == t && NormalizedBy(t, labels) == Line(l, v)
  {
    RecasedIsPlain(t, l, v);
    QuotesLost(out, t, labels);
    SpelledNormalizes(t, l, v, labels);
  }

  lemma WhatRecased(t: string)
    requires t == "what: x"
    ensures Recased(t, What, "x")
  {
    assert t[..4] == "what" && t[5..] == [' '] + "x";
  }

  /** The first on a concrete reply, a quote inside quotes. */
  lemma InnerQuoteNotIdempotent(out: string)
    requires out == "\" \"a"
    ensures Normalized(out) == "\"a" && Normalized(Normalized(out)) == "a"
  {
    var once, t := "\"a", "a";
    assert out == ['"'] + ([' '] + once) && once == ['"'] + t;
    InnerQuoteChangesTwice(out, once, t, LABELS);
  }

  /** The second, a quoted label. */
  lemma PlainReplyNotIdempotent(out: string)
    requires out == "\"what: x\""
    ensures Normalized(out) == "what: x" && Normalized(Normalized(out)) == "What: x"
  {
    var t := "what: x";
    WhatRecased(t);
    LabelsComplete();
    assert out == ['"'] + (t + ['"']) && Line(What, "x") == "What: x";
    QuotedLabelChangesTwice(out, t, What, "x", LABELS);
  }

  // ----- normalising twice ----------------------------------------------------------------------------------

  /** A printed line for the label. */
  predicate PrintedAs(t: string, l: Label) {
    var k := |Word(l)| + 2;
    |t| >= k && t == Line(l, t[k..]) && Clean(t[k..])
  }

  predicate PrintedLine(t: string) {
    exists l: Label :: PrintedAs(t, l)
  }

  predicate QuoteFree(t: string) {
    t == "" || (t[0] != '"' && t[|t| - 1] != '"')
  }

  lemma LineIsPrinted(l: Label, v: string)
    requires Clean(v)
    ensures PrintedLine(Line(l, v))
  {
    LineParts(l, v);
    var t, k := Line(l, v), |Word(l)| + 2;
    assert t[k..] == t[k - 1..][1..] == v;
    assert PrintedAs(t, l);
  }

  /** Stripping only takes away at the two ends. */
  lemma StrippedInside(out: string, t: string) returns (a: string, b: string)
    requires t == Stripped(out)
    ensures out == a + t + b
  {
    var s := TrimSpace(out);
    var u := TrimChar(s, '"');
    var a1, b1 := TrimInside(out, s, Space());
    var a2, b2 := TrimInside(s, u, Is('"'));
    var a3, b3 := TrimInside(u, t, Space());
    a, b := a1 + a2 + a3, b3 + b2 + b1;
    Around(a1, a2, a3, t, b3, b2, b1);
  }

  lemma Around(a1: string, a2: string, a3: string, t: string, b3: string, b2: string, b1: string)
    ensures a1 + ((a2 + ((a3 + (t + b3)) + b2)) + b1) == (a1 + a2 + a3) + t + (b3 + b2 + b1)
  {
  }

  /** The last line printed. */
  lemma {:induction false} LastPrinted(got: map<Label, string>, p: seq<string>, labels: seq<Label>)
    returns (l: Label, v: string)
    requires AllClean(got) && p == Print(got, labels) && p != []
    ensures l in labels && Clean(v) && p[|p| - 1] == Line(l, v)
  {
    l := labels[|labels| - 1];
    if l in got {
      v := got[l];
    } else {
      l, v := LastPrinted(got, p, labels[..|labels| - 1]);
    }
  }

  lemma StillLabelled(ln: string, l: Label, v: string)
    requires Clean(v) && Line(l, v) <= ln
    ensures Labelled(ln, l)
  {
    LineParts(l, v);
    var x, w := Line(l, v), Word(l);
    assert ln[..|w|] == x[..|w|] == w && ln[|w|] == x[|w|];
  }

  lemma BareKeeps(line: string, l: Label, v: string)
    requires Clean(v) && Line(l, v) <= line
    ensures Line(l, v) <= Bare(line)
  {
    var x := Line(l, v);
    LineIsPlain(l, v);
    assert line[0] == x[0] && !Bullet()(x[0]) && !Space()(x[0]) && !Space()(x[|x| - 1]);
    assert line == x + line[|x|..];
    TrimRightStops(x, line[|x|..], Space());
  }

  /** A printed line with anything behind it shows its label. */
  lemma PrintedShows(line: string, l: Label, v: string)
    requires Clean(v) && Line(l, v) <= line
    ensures ValueOf(line, l).Some?
  {
    BareKeeps(line, l, v);
    StillLabelled(Bare(line), l, v);
  }

  lemma {:induction false} PutKeeps(got: map<Label, string>, values: Label -> Option<string>, labels: seq<Label>,
                                    l: Label)
    requires l in got || (l in labels && values(l).Some?)
    ensures l in PutAll(got, values, labels)
  {
    if labels != [] {
      var front, m := labels[..|labels| - 1], labels[|labels| - 1];
      assert labels == front + [m];
      if l in got || l in front {
        PutKeeps(got, values, front, l);
      }
    }
  }

  lemma GotOneMore(lines: seq<string>, line: string, l: Label, labels: seq<Label>)
    requires l in Got(lines, labels) || (l in labels && ValueOf(line, l).Some?)
    ensures l in Got(lines + [line], labels)
  {
    GotStep(lines, line, labels);
    PutKeeps(Got(lines, labels), ValuesOf(line), labels, l);
  }

  lemma {:induction false} GotKeeps(lines: seq<string>, more: seq<string>, l: Label, labels: seq<Label>)
    requires l in Got(lines, labels)
    ensures l in Got(lines + more, labels)
  {
    if more == [] {
      assert lines + more == lines;
    } else {
      var front, line := more[..|more| - 1], more[|more| - 1];
      GotKeeps(lines, front, l, labels);
      GotOneMore(lines + front, line, l, labels);
      assert lines + more == (lines + front) + [line];
    }
  }

  lemma ShownIsGot(lines: seq<string>, line: string, rest: seq<string>, all: seq<string>, l: Label, labels: seq<Label>)
    requires all == (lines + [line]) + rest && l in labels && ValueOf(line, l).Some?
    ensures l in Got(all, labels)
  {
    GotOneMore(lines, line, l, labels);
    GotKeeps(lines + [line], rest, l, labels);
  }

  lemma FirstBehind(lines: seq<string>, more: seq<string>)
    requires more != []
    ensures lines + more == (lines + [more[0]]) + more[1..]
  {
  }

  /** A printed line at the start of a line, whatever stands before and behind it. */
  lemma PrintedIsGot(before: string, l: Label, v: string, behind: string, labels: seq<Label>)
    requires Clean(v) && l in labels
    ensures l in Got(Split(before + ['\n'] + (Line(l, v) + behind), '\n'), labels)
  {
    var x := Line(l, v);
    LineReadsBack(l, v);
    SplitConcat(before, x + behind, '\n');
    SplitStart(x, behind, '\n');
    var lines, more := Split(before, '\n'), Split(x + behind, '\n');
    FirstBehind(lines, more);
    PrintedShows(more[0], l, v);
    ShownIsGot(lines, more[0], more[1..], lines + more, l, labels);
  }

  /** A reply that contains a printed line behind another line shows its label. */
  lemma PrintedInside(out: string, a: string, t: string, b: string, f: string, l: Label, v: string, labels: seq<Label>)
    requires out == a + t + b && t == f + ['\n'] + Line(l, v) && Clean(v) && l in labels
    ensures l in Got(Split(out, '\n'), labels)
  {
    Regroup(a, f, ['\n'], Line(l, v), b);
    PrintedIsGot(a + f, l, v, b, labels);
  }

  lemma Regroup(a: string, f: string, s: string, x: string, b: string)
    ensures a + (f + s + x) + b == (a + f) + s + (x + b)
  {
  }

  lemma JoinLast(p: seq<string>, t: string)
    requires |p| >= 2 && t == Join(p, '\n')
    ensures t == Join(p[..|p| - 1], '\n') + ['\n'] + p[|p| - 1]
  {
  }

  lemma LastLineShows(out: string, t: string, p: seq<string>, l: Label, v: string, labels: seq<Label>)
    requires t == Stripped(out) && t == Join(p, '\n') && |p| >= 2 && p[|p| - 1] == Line(l, v)
    requires Clean(v) && l in labels
    ensures l in Got(Split(out, '\n'), labels)
  {
    var a, b := StrippedInside(out, t);
    JoinLast(p, t);
    PrintedInside(out, a, t, b, Join(p[..|p| - 1], '\n'), l, v, labels);
  }

  /** Two or more printed lines cannot come from a reply in which no label is seen. */
  lemma TwoLinesShow(out: string, t: string, got: map<Label, string>, p: seq<string>, labels: seq<Label>)
    requires t == Stripped(out) && AllClean(got) && p == Print(got, labels) && t == Join(p, '\n')
    requires |p| >= 2
    ensures Got(Split(out, '\n'), labels) != map[]
  {
    var l, v := LastPrinted(got, p, labels);
    LastLineShows(out, t, p, l, v, labels);
  }

  lemma OneIsPrinted(t: string, got: map<Label, string>, p: seq<string>, labels: seq<Label>)
    requires AllClean(got) && p == Print(got, labels) && t == Join(p, '\n') && |p| == 1
    ensures PrintedLine(t)
  {
    var l, v := LastPrinted(got, p, labels);
    LineIsPrinted(l, v);
  }

  /** A label is uncovered, and normalising leaves it alone: then it is one printed line. */
  lemma UncoveredIsPrinted(out: string, t: string, got: map<Label, string>, labels: seq<Label>)
    requires Complete(labels) && Got(Split(out, '\n'), labels) == map[] && t == Stripped(out)
    requires got == Got(Split(t, '\n'), labels) && got != map[] && t == Join(Print(got, labels), '\n')
    ensures PrintedLine(t)
  {
    var p := Print(got, labels);
    GotIsClean(Split(t, '\n'), labels);
    SomethingPrinted(got, labels);
    if |p| >= 2 {
      TwoLinesShow(out, t, got, p, labels);
      assert false;
    }
    OneIsPrinted(t, got, p, labels);
  }

  lemma PrintedReads(t: string, l: Label, v: string, got: map<Label, string>, labels: seq<Label>)
    requires Complete(labels) && Clean(v) && t == Line(l, v) && got == map[l := v]
    ensures Got(Split(t, '\n'), labels) == got
  {
    LineReadsBack(l, v);
    GotOfOne(t, labels);
    PrintedLinePuts(map[], l, v, labels);
  }

  lemma PrintedNormalizes(t: string, l: Label, v: string, got: map<Label, string>, labels: seq<Label>)
    requires Complete(labels) && Clean(v) && t == Line(l, v) && got == map[l := v]
    ensures NormalizedBy(t, labels) == t
  {
    PrintedReads(t, l, v, got, labels);
    PrintOne(l, v, labels);
    assert l in got;
    LabelNormalizes(t, got, t, labels);
  }

  /** A printed line normalises to itself. */
  lemma PrintedIsKept(t: string, labels: seq<Label>)
    requires Complete(labels) && PrintedLine(t)
    ensures NormalizedBy(t, labels) == t
  {
    var l: Label :| PrintedAs(t, l);
    var v := t[|Word(l)| + 2..];
    PrintedNormalizes(t, l, v, map[l := v], labels);
  }

  lemma TrimSpaceShortens(s: string)
    ensures |TrimSpace(s)| <= |s|
  {
  }

  /** Without a label normalising leaves a trimmed text alone exactly if no quote stands at
      either end of it. */
  lemma TrimmedSettles(t: string)
    requires Trimmed(t)
    ensures Stripped(t) == t <==> QuoteFree(t)
  {
    TrimmedKeeps(t);
    if QuoteFree(t) {
      TrimCharKeeps(t, '"');
    } else {
      TrimCharShortens(t, '"');
      TrimSpaceShortens(TrimChar(t, '"'));
    }
  }

  lemma PlainIdempotent(out: string, t: string, labels: seq<Label>)
    requires Complete(labels) && Got(Split(out, '\n'), labels) == map[] && t == Stripped(out)
    ensures NormalizedBy(t, labels) == t <==>
              PrintedLine(t) || (Got(Split(t, '\n'), labels) == map[] && QuoteFree(t))
  {
    if PrintedLine(t) {
      PrintedIsKept(t, labels);
    } else if Got(Split(t, '\n'), labels) == map[] {
      TrimSpaceTrims(TrimChar(TrimSpace(out), '"'));
      TrimmedSettles(t);
    } else if NormalizedBy(t, labels) == t {
      UncoveredIsPrinted(out, t, Got(Split(t, '\n'), labels), labels);
    }
  }

  /** For every reply: normalising twice is normalising once if and only if a label is seen in
      it, or what stripping leaves is one printed line, or shows no label and no outer quote. */
  lemma IdempotentExactly(out: string)
    ensures var t := Stripped(out);
            Normalized(Normalized(out)) == Normalized(out) <==>
              || Got(Split(out, '\n'), LABELS) != map[]
              || PrintedLine(t)
              || (Got(Split(t, '\n'), LABELS) == map[] && QuoteFree(t))
  {
    LabelsComplete();
    if Got(Split(out, '\n'), LABELS) != map[] {
      NormalizeIsIdempotent(out);
    } else {
      PlainIdempotent(out, Stripped(out), LABELS);
    }
  }
}
