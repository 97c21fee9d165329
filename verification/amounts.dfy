/** Amounts as people write them, and what maxNum of srv/jobs/signals.go makes of them. */
module Amounts {
  import opened Decimal
  import opened Salary

  // ----- written amounts ----------------------------------------------------------------

  function Concat(groups: seq<string>): string {
    if groups == [] then "" else Concat(groups[..|groups| - 1]) + groups[|groups| - 1]
  }

  /** Every group with the separator in front. */
  function Separated(groups: seq<string>, sep: char): string {
    if groups == [] then "" else Separated(groups[..|groups| - 1], sep) + [sep] + groups[|groups| - 1]
  }

  predicate IsHead(s: string) {
    s != "" && AllDigits(s)
  }

  predicate IsGroup(s: string) {
    |s| == 3 && AllDigits(s)
  }

  predicate IsDecimal(s: string) {
    s == "" || (|s| == 3 && IsMark(s[0]) && AllDigits(s[1..]))
  }

  /** An amount as people write it: leading digits, groups of three behind a separator,
      and "" or a decimal mark with two digits. */
  datatype Amount = Amount(head: string, groups: seq<string>, sep: char, cents: string) {
    function Text(): string {
      head + Separated(groups, sep) + cents
    }

    function Value(): int {
      100 * ReadNat(head + Concat(groups)) + if cents == "" then 0 else ReadNat(cents[1..])
    }

    predicate Valid() {
      && IsHead(head) && (forall i :: 0 <= i < |groups| ==> IsGroup(groups[i])) && IsDecimal(cents)
      && (IsMark(sep) || IsBlank(sep))
    }
  }

  lemma NoBlanksInCents(cents: string)
    requires IsDecimal(cents)
    ensures forall i :: 0 <= i < |cents| ==> !IsBlank(cents[i])
  {
    forall i | 0 <= i < |cents| ensures !IsBlank(cents[i]) {
      if i > 0 {
        assert cents[1..][i - 1] == cents[i];
      }
    }
  }

  lemma {:induction false} SeparatedNoBlanks(groups: seq<string>, sep: char)
    requires !IsBlank(sep) && forall i :: 0 <= i < |groups| ==> AllDigits(groups[i])
    ensures forall i :: 0 <= i < |Separated(groups, sep)| ==> !IsBlank(Separated(groups, sep)[i])
  {
    if groups != [] {
      SeparatedNoBlanks(groups[..|groups| - 1], sep);
    }
  }

  lemma NoBlanks(a: Amount)
    requires a.Valid() && (IsMark(a.sep) || a.groups == [])
    ensures forall i :: 0 <= i < |a.Text()| ==> !IsBlank(a.Text()[i])
  {
    if a.groups != [] {
      SeparatedNoBlanks(a.groups, a.sep);
    }
    NoBlanksInCents(a.cents);
  }

  lemma {:induction false} DropSeparated(groups: seq<string>, sep: char)
    requires IsMark(sep) && forall i :: 0 <= i < |groups| ==> IsGroup(groups[i])
    ensures DropMarks(Separated(groups, sep)) == Concat(groups) && AllDigits(Concat(groups))
  {
    if groups != [] {
      var front, g := groups[..|groups| - 1], groups[|groups| - 1];
      DropSeparated(front, sep);
      DropConcat(Separated(front, sep) + [sep], g);
      DropConcat(Separated(front, sep), [sep]);
      DropDigits(g);
      assert [sep][..0] == "" && DropMarks([sep]) == "";
    }
  }

  /** An amount without blanks between its groups. */
  predicate Passed(a: Amount) {
    a.Valid() && IsMark(a.sep)
  }

  /** The digits an amount keeps when its marks are dropped. */
  lemma WholeDigits(a: Amount)
    requires Passed(a)
    ensures DropMarks(a.head + Separated(a.groups, a.sep)) == a.head + Concat(a.groups)
    ensures AllDigits(a.head + Concat(a.groups))
  {
    DropSeparated(a.groups, a.sep);
    DropConcat(a.head, Separated(a.groups, a.sep));
    DropDigits(a.head);
    DigitsConcat(a.head, Concat(a.groups));
  }

  /** Where the last separator of an amount stands. */
  lemma WholeLastMark(a: Amount)
    requires Passed(a)
    ensures var x := a.head + Separated(a.groups, a.sep);
            && IsDigit(x[|x| - 1])
            && LastMark(x) == if a.groups == [] then -1 else |x| - 4
  {
    var x := a.head + Separated(a.groups, a.sep);
    if a.groups == [] {
      assert x == a.head;
      LastMarkIs(x, -1);
    } else {
      var g := a.groups[|a.groups| - 1];
      assert x[|x| - 3..] == g && x[|x| - 4] == a.sep;
      assert forall k :: |x| - 3 <= k < |x| ==> x[k] == g[k - (|x| - 3)];
      LastMarkIs(x, |x| - 4);
    }
  }

  lemma WholePart(a: Amount)
    requires Passed(a)
    ensures var x := a.head + Separated(a.groups, a.sep);
            && DropMarks(x) == a.head + Concat(a.groups) && AllDigits(a.head + Concat(a.groups))
            && (forall i :: 0 <= i < |x| ==> IsDigit(x[i]) || IsMark(x[i]))
            && IsDigit(x[0]) && IsDigit(x[|x| - 1])
            && (a.groups == [] ==> LastMark(x) == -1) && (a.groups != [] ==> LastMark(x) == |x| - 4)
  {
    WholeDigits(a);
    WholeLastMark(a);
    SeparatedChars(a.groups, a.sep);
  }

  lemma {:induction false} SeparatedChars(groups: seq<string>, sep: char)
    requires IsMark(sep) && forall i :: 0 <= i < |groups| ==> IsGroup(groups[i])
    ensures forall i :: 0 <= i < |Separated(groups, sep)| ==>
              IsDigit(Separated(groups, sep)[i]) || IsMark(Separated(groups, sep)[i])
  {
    if groups != [] {
      SeparatedChars(groups[..|groups| - 1], sep);
    }
  }

  lemma AmountIsNumber(a: Amount)
    requires Passed(a)
    ensures IsNumber(a.Text())
  {
    WholePart(a);
    var x := a.head + Separated(a.groups, a.sep);
    forall i | 0 <= i < |a.cents| ensures IsDigit(a.cents[i]) || IsMark(a.cents[i]) {
      if i > 0 {
        assert a.cents[1..][i - 1] == a.cents[i];
      }
    }
    if a.cents != "" {
      assert a.cents[1..][1] == a.cents[2];
    }
  }

  lemma WholeAmountCents(a: Amount)
    requires Passed(a) && a.cents == "" && TrimMarks(a.Text()) == a.Text()
    ensures Cents(a.Text()) == a.Value()
  {
    var x := a.head + Separated(a.groups, a.sep);
    Empty(x);
    WholePart(a);
    WholeCents(x, LastMark(x));
  }

  lemma DecimalAmountCents(a: Amount)
    requires Passed(a) && a.cents != "" && TrimMarks(a.Text()) == a.Text()
    ensures Cents(a.Text()) == a.Value()
  {
    WholePart(a);
    DecimalCents(a.head + Separated(a.groups, a.sep), a.cents);
  }

  lemma ValuePositive(a: Amount)
    requires a.Valid()
    ensures a.Value() >= 0
  {
    ConcatDigits(a.groups);
    DigitsConcat(a.head, Concat(a.groups));
  }

  /** The match is worth exactly the amount. */
  lemma AmountCents(a: Amount, marks: string)
    requires Passed(a) && forall i :: 0 <= i < |marks| ==> IsMark(marks[i])
    ensures Cents(a.Text() + marks) == a.Value() >= 0
  {
    ValuePositive(a);
    AmountIsNumber(a);
    CentsIgnoresMarks(a.Text(), marks);
    if a.cents == "" {
      WholeAmountCents(a);
    } else {
      DecimalAmountCents(a);
    }
  }

  lemma {:induction false} ConcatDigits(groups: seq<string>)
    requires forall i :: 0 <= i < |groups| ==> IsGroup(groups[i])
    ensures AllDigits(Concat(groups))
  {
    if groups != [] {
      ConcatDigits(groups[..|groups| - 1]);
    }
  }

  // ----- blank-separated groups -------------------------------------------------------------

  /** Digit strings with a blank in between, and t behind the last. */
  function Spaced(xs: seq<string>, b: char, t: string): string
    requires xs != []
  {
    if |xs| == 1 then xs[0] + t else xs[0] + ([b] + Spaced(xs[1..], b, t))
  }

  lemma {:induction false} SpacedSnoc(xs: seq<string>, g: string, b: char, t: string)
    requires xs != []
    ensures Spaced(xs + [g], b, t) == Spaced(xs, b, [b] + (g + t))
  {
    assert (xs + [g])[1..] == xs[1..] + [g];
    if |xs| == 1 {
      assert xs[1..] + [g] == [g];
    } else {
      SpacedSnoc(xs[1..], g, b, t);
    }
  }

  lemma {:induction false} SeparatedIsSpaced(head: string, groups: seq<string>, b: char, t: string)
    ensures head + Separated(groups, b) + t == Spaced([head] + groups, b, t)
  {
    if groups == [] {
      assert head + "" == head && [head] + [] == [head];
    } else {
      var front, g := groups[..|groups| - 1], groups[|groups| - 1];
      SeparatedIsSpaced(head, front, b, [b] + (g + t));
      SpacedSnoc([head] + front, g, b, t);
      assert [head] + groups == ([head] + front) + [g];
      assert head + (Separated(front, b) + [b] + g) + t == head + Separated(front, b) + ([b] + (g + t));
    }
  }

  ghost predicate Heads(xs: seq<string>) {
    xs != [] && forall i :: 0 <= i < |xs| ==> IsHead(xs[i])
  }

  /** What one pass leaves of digit strings with blanks in between: a blank goes if three
      digits and then no further word character follow; the next blank is then out of
      reach, because its digit was used up.  `ends` tells whether the last string is
      followed by no word character. */
  function OnePass(xs: seq<string>, ends: bool): (ys: seq<string>)
    requires Heads(xs)
    ensures Heads(ys)
    decreases |xs|
  {
    if |xs| == 1 then xs
    else if |xs[1]| == 3 && (|xs| > 2 || ends) then
      if |xs| == 2 then [xs[0] + xs[1]] else [xs[0] + xs[1]] + OnePass(xs[2..], ends)
    else [xs[0]] + OnePass(xs[1..], ends)
  }

  function TwoPasses(xs: seq<string>, ends: bool): (ys: seq<string>)
    requires Heads(xs)
    ensures Heads(ys)
  {
    OnePass(OnePass(xs, ends), ends)
  }

  /** What stands behind the last digits of an amount: nothing a pass could reach into. */
  predicate Behind(t: string) {
    Loose(t) && (t == "" || !IsDigit(t[0]))
  }

  lemma SpacedCons(x: string, ys: seq<string>, b: char, t: string)
    requires ys != []
    ensures Spaced([x] + ys, b, t) == x + ([b] + Spaced(ys, b, t))
  {
    assert ([x] + ys)[1..] == ys;
  }

  /** What follows the second of several strings. */
  function After(xs: seq<string>, b: char, t: string): string
    requires |xs| >= 2
  {
    if |xs| == 2 then t else [b] + Spaced(xs[2..], b, t)
  }

  lemma SecondThenRest(xs: seq<string>, b: char, t: string)
    requires |xs| >= 2
    ensures Spaced(xs, b, t) == xs[0] + ([b] + (xs[1] + After(xs, b, t)))
  {
    assert xs[1..][1..] == xs[2..];
  }

  /** Otherwise than in OnePass's condition no gap is closable. */
  lemma NoSplit(xs: seq<string>, c: char, b: char, t: string)
    requires Heads(xs) && |xs| >= 2 && IsBlank(b) && Behind(t) && IsDigit(c)
    requires !(|xs[1]| == 3 && (|xs| > 2 || Bounded(t)))
    ensures !Splits([c] + ([b] + Spaced(xs[1..], b, t)))
  {
    var x, r := xs[1], After(xs, b, t);
    var s := [c] + ([b] + Spaced(xs[1..], b, t));
    assert xs[1..][1..] == xs[2..];
    assert s == [c] + ([b] + (x + r));
    assert r != "" ==> !IsDigit(r[0]);
    if |x| < 3 {
      assert r != "" ==> s[2 + |x|] == r[0];
      assert |s| >= 5 ==> s[2..5][|x|] == s[2 + |x|];
    } else if |x| > 3 {
      assert s[5] == x[3];
    } else {
      assert s[5] == t[0];
    }
  }

  lemma PassLast(p: string, x: string, t: string)
    requires NoDigits(p) && IsHead(x) && Behind(t)
    ensures Squeeze(p + (x + t)) == p + (x + Squeeze(t))
  {
    PassKeeps(p, x, t);
    Assoc(p, x, t);
    Assoc(p, x, Squeeze(t));
  }

  lemma PassAside(p: string, x: string, rest: string, passed: string)
    requires NoDigits(p) && IsHead(x) && !Splits([x[|x| - 1]] + rest) && Squeeze(rest) == passed
    ensures Squeeze(p + (x + rest)) == p + (x + passed)
  {
    PassLeaves(p, x, rest);
    Assoc(p, x, rest);
    Assoc(p, x, passed);
  }

  lemma AssocGroup(p: string, x: string, b: string, g: string, r: string)
    ensures p + (x + (b + (g + r))) == p + (x + b + g) + r
  {
  }

  lemma PassPiecesJoin(p: string, xs: seq<string>, b: char, t: string)
    requires NoDigits(p) && Heads(xs) && |xs| >= 2 && IsBlank(b) && Behind(t)
    requires |xs[1]| == 3 && (|xs| > 2 || Bounded(t))
    ensures Squeeze(p + Spaced(xs, b, t)) == p + ((xs[0] + xs[1]) + Squeeze(After(xs, b, t)))
  {
    var x, g, r := xs[0], xs[1], After(xs, b, t);
    SecondThenRest(xs, b, t);
    PassGroup(p, x, b, g, r);
    AssocGroup(p, x, [b], g, r);
    Assoc(p, x + g, Squeeze(r));
  }

  lemma JoinThenRest(p: string, xs: seq<string>, ys: seq<string>, b: char, t: string)
    requires NoDigits(p) && Heads(xs) && |xs| > 2 && |xs[1]| == 3 && IsBlank(b) && Behind(t) && ys != []
    requires Squeeze([b] + Spaced(xs[2..], b, t)) == [b] + Spaced(ys, b, Squeeze(t))
    ensures Squeeze(p + Spaced(xs, b, t)) == p + Spaced([xs[0] + xs[1]] + ys, b, Squeeze(t))
  {
    PassPiecesJoin(p, xs, b, t);
    SpacedCons(xs[0] + xs[1], ys, b, Squeeze(t));
  }

  lemma AsideThenRest(p: string, xs: seq<string>, ys: seq<string>, b: char, t: string)
    requires NoDigits(p) && Heads(xs) && |xs| >= 2 && IsBlank(b) && Behind(t) && ys != []
    requires !(|xs[1]| == 3 && (|xs| > 2 || Bounded(t)))
    requires Squeeze([b] + Spaced(xs[1..], b, t)) == [b] + Spaced(ys, b, Squeeze(t))
    ensures Squeeze(p + Spaced(xs, b, t)) == p + Spaced([xs[0]] + ys, b, Squeeze(t))
  {
    NoSplit(xs, xs[0][|xs[0]| - 1], b, t);
    PassAside(p, xs[0], [b] + Spaced(xs[1..], b, t), [b] + Spaced(ys, b, Squeeze(t)));
    SpacedCons(xs[0], ys, b, Squeeze(t));
  }

  /** One pass over digit strings with blanks in between, wherever they stand. */
  lemma {:induction false} PassPieces(p: string, xs: seq<string>, b: char, t: string)
    requires NoDigits(p) && Heads(xs) && IsBlank(b) && Behind(t)
    ensures Squeeze(p + Spaced(xs, b, t)) == p + Spaced(OnePass(xs, Bounded(t)), b, Squeeze(t))
    decreases |xs|
  {
    if |xs| == 1 {
      PassLast(p, xs[0], t);
    } else if !(|xs[1]| == 3 && (|xs| > 2 || Bounded(t))) {
      PassPieces([b], xs[1..], b, t);
      AsideThenRest(p, xs, OnePass(xs[1..], Bounded(t)), b, t);
    } else if |xs| > 2 {
      PassPieces([b], xs[2..], b, t);
      JoinThenRest(p, xs, OnePass(xs[2..], Bounded(t)), b, t);
    } else {
      PassPiecesJoin(p, xs, b, t);
    }
  }

  lemma BehindStays(t: string)
    requires Behind(t)
    ensures Behind(Squeeze(t)) && (Bounded(t) <==> Bounded(Squeeze(t)))
  {
    SqueezeKeepsStart(t);
  }

  lemma TwicePieces(p: string, xs: seq<string>, b: char, t: string)
    requires NoDigits(p) && Heads(xs) && IsBlank(b) && Behind(t)
    ensures Squeeze(Squeeze(p + Spaced(xs, b, t))) == p + Spaced(TwoPasses(xs, Bounded(t)), b, Squeeze(Squeeze(t)))
  {
    PassPieces(p, xs, b, t);
    BehindStays(t);
    PassPieces(p, OnePass(xs, Bounded(t)), b, Squeeze(t));
  }

  // ----- what the passes make of an amount -----------------------------------------------------

  /** The last group of a blank-separated amount ends where a pass can see it. */
  predicate Ends(a: Amount, after: string) {
    a.cents != "" || Bounded(after)
  }

  /** The digit strings that stand apart after the passes. */
  function Pieces(a: Amount, ends: bool): (ys: seq<string>)
    requires a.Valid()
    ensures Heads(ys)
  {
    TwoPasses([a.head] + a.groups, ends)
  }

  /** An amount as the passes leave it, and t behind it. */
  function Left(a: Amount, ends: bool, t: string): string
    requires a.Valid()
  {
    if IsMark(a.sep) then a.Text() + t else Spaced(Pieces(a, ends), a.sep, a.cents + t)
  }

  lemma CentsPass(cents: string, tail: string)
    requires IsDecimal(cents) && Behind(tail)
    ensures Squeeze(cents + tail) == cents + Squeeze(tail) && Behind(cents + tail)
  {
    NoBlanksInCents(cents);
    PassKeeps("", cents, tail);
    Empty(cents);
    assert cents == "" ==> cents + tail == tail;
  }

  /** The two passes over an amount, wherever it stands. */
  lemma PassesLeave(p: string, a: Amount, tail: string)
    requires NoDigits(p) && a.Valid() && Behind(tail)
    ensures Squeeze(Squeeze(p + a.Text() + tail)) == p + Left(a, Ends(a, tail), Squeeze(Squeeze(tail)))
  {
    var once := Squeeze(tail);
    BehindStays(tail);
    if IsMark(a.sep) {
      NoBlanks(a);
      PassKeeps(p, a.Text(), tail);
      PassKeeps(p, a.Text(), once);
      assert p + (a.Text() + Squeeze(once)) == p + a.Text() + Squeeze(once);
    } else {
      BlankPassesLeave(p, a, tail);
    }
  }

  lemma CentsTwice(cents: string, tail: string)
    requires IsDecimal(cents) && Behind(tail)
    ensures Squeeze(Squeeze(cents + tail)) == cents + Squeeze(Squeeze(tail)) && Behind(cents + tail)
  {
    CentsPass(cents, tail);
    BehindStays(tail);
    CentsPass(cents, Squeeze(tail));
  }

  lemma EndsBounded(a: Amount, tail: string)
    requires IsDecimal(a.cents)
    ensures Bounded(a.cents + tail) == Ends(a, tail)
  {
    assert a.cents == "" ==> a.cents + tail == tail;
  }

  lemma AssocText(p: string, x: string, cents: string, tail: string)
    ensures p + (x + cents) + tail == p + (x + (cents + tail))
  {
  }

  lemma TextIsSpaced(p: string, a: Amount, tail: string)
    ensures p + a.Text() + tail == p + Spaced([a.head] + a.groups, a.sep, a.cents + tail)
  {
    AssocText(p, a.head + Separated(a.groups, a.sep), a.cents, tail);
    SeparatedIsSpaced(a.head, a.groups, a.sep, a.cents + tail);
  }

  lemma BlankPassesLeave(p: string, a: Amount, tail: string)
    requires NoDigits(p) && a.Valid() && IsBlank(a.sep) && Behind(tail)
    ensures Squeeze(Squeeze(p + a.Text() + tail))
            == p + Spaced(Pieces(a, Ends(a, tail)), a.sep, a.cents + Squeeze(Squeeze(tail)))
  {
    TextIsSpaced(p, a, tail);
    CentsTwice(a.cents, tail);
    EndsBounded(a, tail);
    TwicePieces(p, [a.head] + a.groups, a.sep, a.cents + tail);
  }

  // ----- the numbers in it -----------------------------------------------------------------------

  function Hundredths(cents: string): int {
    if cents == "" then 0 else ReadNat(cents[1..])
  }

  function Max(a: int, b: int): int {
    if a >= b then a else b
  }

  /** The matches in digit strings that stand apart; the last has the cents and marks. */
  function Matches(ys: seq<string>, end: string): seq<string>
    requires ys != []
  {
    if |ys| == 1 then [ys[0] + end] else [ys[0]] + Matches(ys[1..], end)
  }

  /** The largest of them. */
  function Most(ys: seq<string>, cents: string): int
    requires ys != []
  {
    if |ys| == 1 then 100 * ReadNat(ys[0]) + Hundredths(cents)
    else Max(100 * ReadNat(ys[0]), Most(ys[1..], cents))
  }

  /** The number with cents as an amount of its own. */
  function Plain(y: string, cents: string): Amount {
    Amount(y, [], '.', cents)
  }

  lemma PlainFacts(y: string, cents: string)
    requires IsHead(y) && IsDecimal(cents)
    ensures Passed(Plain(y, cents)) && Plain(y, cents).Text() == y + cents
    ensures Plain(y, cents).Value() == 100 * ReadNat(y) + Hundredths(cents)
  {
    assert y + Separated([], '.') == y && y + Concat([]) == y;
  }

  lemma PlainCents(y: string, cents: string, marks: string)
    requires IsHead(y) && IsDecimal(cents) && forall i :: 0 <= i < |marks| ==> IsMark(marks[i])
    ensures IsNumber(y + cents) && Cents(y + cents + marks) == 100 * ReadNat(y) + Hundredths(cents) >= 0
  {
    PlainFacts(y, cents);
    AmountIsNumber(Plain(y, cents));
    AmountCents(Plain(y, cents), marks);
  }

  lemma BlankHasNoMarks(b: char)
    requires IsBlank(b)
    ensures NumberEnd([b]) == 0 && Marks([b]) == "" && NoDigits([b])
  {
  }

  lemma LastPieceNumber(p: string, y: string, cents: string, q: string, rest: string)
    requires NoDigits(p) && IsHead(y) && IsDecimal(cents) && NoDigits(q) && (rest == "" || NumberEnd(q) < |q|)
    ensures Numbers(p + (y + (cents + (q + rest)))) == [y + (cents + Marks(q))] + Numbers(rest)
  {
    PlainCents(y, cents, "");
    NumberFound(p, y + cents, q, rest);
    Assoc(y, cents, q + rest);
    Assoc(y, cents, Marks(q));
  }

  lemma PieceNumber(p: string, y: string, b: char, s: string)
    requires NoDigits(p) && IsHead(y) && IsBlank(b)
    ensures Numbers(p + (y + ([b] + s))) == [y] + Numbers(s)
  {
    PlainCents(y, "", "");
    Empty(y);
    BlankHasNoMarks(b);
    NumberFound(p, y, [b], s);
  }

  lemma {:induction false} PieceNumbers(p: string, ys: seq<string>, b: char, cents: string, q: string, rest: string)
    requires NoDigits(p) && Heads(ys) && IsBlank(b) && IsDecimal(cents)
    requires NoDigits(q) && (rest == "" || NumberEnd(q) < |q|)
    ensures Numbers(p + Spaced(ys, b, cents + (q + rest))) == Matches(ys, cents + Marks(q)) + Numbers(rest)
    decreases |ys|
  {
    if |ys| == 1 {
      LastPieceNumber(p, ys[0], cents, q, rest);
    } else {
      var s, m := Spaced(ys[1..], b, cents + (q + rest)), Matches(ys[1..], cents + Marks(q));
      PieceNumber(p, ys[0], b, s);
      PieceNumbers("", ys[1..], b, cents, q, rest);
      Empty(s);
      AssocParts([ys[0]], m, Numbers(rest));
    }
  }

  lemma AssocParts(a: seq<string>, b: seq<string>, c: seq<string>)
    ensures a + (b + c) == (a + b) + c
  {
  }

  lemma LargestLast(a: seq<string>, x: string)
    ensures Largest(a + [x]) == Max(Largest(a), Cents(x))
  {
    assert (a + [x])[..|a|] == a;
  }

  lemma {:induction false} LargestConcat(a: seq<string>, b: seq<string>)
    ensures Largest(a + b) == Max(Largest(a), Largest(b))
  {
    if b == [] {
      assert a + b == a;
    } else {
      var front, x := b[..|b| - 1], b[|b| - 1];
      assert a + b == (a + front) + [x] && b == front + [x];
      LargestConcat(a, front);
      LargestLast(a + front, x);
      LargestLast(front, x);
    }
  }

  lemma LargestOfOne(x: string)
    requires Cents(x) >= 0
    ensures Largest([x]) == Cents(x) && Largest([x] + Numbers("")) == Cents(x)
  {
    assert [x][..0] == [] && [x] + Numbers("") == [x];
  }

  lemma PieceCents(y: string, cents: string, marks: string)
    requires IsHead(y) && IsDecimal(cents) && forall i :: 0 <= i < |marks| ==> IsMark(marks[i])
    ensures Cents(y + (cents + marks)) == 100 * ReadNat(y) + Hundredths(cents) >= 0
  {
    PlainCents(y, cents, marks);
    Assoc(y, cents, marks);
  }

  lemma LargestOfPiece(y: string, cents: string, marks: string)
    requires IsHead(y) && IsDecimal(cents) && forall i :: 0 <= i < |marks| ==> IsMark(marks[i])
    ensures Largest([y + (cents + marks)]) == 100 * ReadNat(y) + Hundredths(cents)
  {
    PieceCents(y, cents, marks);
    LargestOfOne(y + (cents + marks));
  }

  lemma {:induction false} LargestMatch(ys: seq<string>, cents: string, marks: string)
    requires Heads(ys) && IsDecimal(cents) && forall i :: 0 <= i < |marks| ==> IsMark(marks[i])
    ensures Largest(Matches(ys, cents + marks)) == Most(ys, cents)
    decreases |ys|
  {
    if |ys| == 1 {
      LargestOfPiece(ys[0], cents, marks);
    } else {
      LargestOfPiece(ys[0], "", "");
      assert ys[0] + ("" + "") == ys[0];
      LargestMatch(ys[1..], cents, marks);
      LargestConcat([ys[0]], Matches(ys[1..], cents + marks));
    }
  }

  /** What is read of an amount with `after` behind it. */
  function Reading(a: Amount, after: string): int
    requires a.Valid()
  {
    if IsMark(a.sep) then a.Value() else Most(Pieces(a, Ends(a, after)), a.cents)
  }

  /** The matches in an amount with text q behind it. */
  function Found(a: Amount, q: string): seq<string>
    requires a.Valid()
  {
    if IsMark(a.sep) then [a.Text() + Marks(q)] else Matches(Pieces(a, Ends(a, q)), a.cents + Marks(q))
  }

  lemma AmountNumbers(p: string, a: Amount, q: string, rest: string)
    requires NoDigits(p) && a.Valid() && NoDigits(q) && (rest == "" || NumberEnd(q) < |q|)
    ensures Numbers(p + Left(a, Ends(a, q), q + rest)) == Found(a, q) + Numbers(rest)
    ensures Largest(Found(a, q)) == Reading(a, q) >= 0
  {
    if IsMark(a.sep) {
      AmountIsNumber(a);
      NumberFound(p, a.Text(), q, rest);
      AmountCents(a, Marks(q));
      LargestOfOne(a.Text() + Marks(q));
    } else {
      PieceNumbers(p, Pieces(a, Ends(a, q)), a.sep, a.cents, q, rest);
      LargestMatch(Pieces(a, Ends(a, q)), a.cents, Marks(q));
    }
  }

  lemma TextBehind(q: string)
    requires NoDigits(q)
    ensures Squeeze(q) == q && Behind(q)
  {
    NoDigitsKept(q);
  }

  /** The value read of any amount alone among text without digits. */
  lemma AmountRead(p: string, a: Amount, q: string)
    requires NoDigits(p) && a.Valid() && NoDigits(q)
    ensures MaxCents(p + a.Text() + q) == Reading(a, q)
  {
    TextBehind(q);
    PassesLeave(p, a, q);
    AmountNumbers(p, a, q, "");
    Empty(q);
    LargestConcat(Found(a, q), Numbers(""));
  }

  // ----- when it is the amount ----------------------------------------------------------------------

  /** How many of n digit strings with blanks in between stand in front of the last blank
      that two passes leave. */
  function Front(n: nat, ends: bool): nat {
    if n <= 1 then 0
    else if !ends then n - 1
    else if n <= 3 then 0
    else if n % 2 == 0 then n - 2 else n - 3
  }

  /** The digits that the last number read does not hold. */
  function Hidden(a: Amount, after: string): string
    requires a.Valid()
  {
    if IsMark(a.sep) then "" else Concat(([a.head] + a.groups)[..Front(|a.groups| + 1, Ends(a, after))])
  }

  lemma ConcatLast(a: seq<string>, x: string)
    ensures Concat(a + [x]) == Concat(a) + x
  {
    assert (a + [x])[..|a|] == a;
  }

  lemma {:induction false} ConcatAppend(a: seq<string>, b: seq<string>)
    ensures Concat(a + b) == Concat(a) + Concat(b)
  {
    if b == [] {
      assert a + b == a;
    } else {
      var front, x := b[..|b| - 1], b[|b| - 1];
      assert b == front + [x] && a + b == (a + front) + [x];
      ConcatAppend(a, front);
      ConcatLast(a + front, x);
      ConcatLast(front, x);
    }
  }

  lemma ConcatOne(x: string)
    ensures Concat([x]) == x
  {
    assert [x][..0] == [];
  }

  /** The groups behind the head. */
  ghost predicate Grouped(xs: seq<string>) {
    Heads(xs) && forall i :: 1 <= i < |xs| ==> |xs[i]| == 3
  }

  /** The last of the strings ys is what xs has from the k-th on, the others what is in
      front of it. */
  ghost predicate Splitting(xs: seq<string>, k: nat, ys: seq<string>) {
    && k <= |xs| && ys != []
    && Concat(ys[..|ys| - 1]) == Concat(xs[..k]) && ys[|ys| - 1] == Concat(xs[k..])
  }

  /** The first two strings are joined by the first pass and stay apart from the rest. */
  lemma TwicePeels(xs: seq<string>, ends: bool)
    requires Grouped(xs) && (|xs| >= 5 || (|xs| == 4 && ends))
    ensures Grouped(xs[2..]) && TwoPasses(xs, ends) == [xs[0] + xs[1]] + TwoPasses(xs[2..], ends)
  {
    var rest := xs[2..];
    var ys := OnePass(rest, ends);
    assert ys[0] == rest[0] + rest[1] && |ys[0]| == 6;
    assert OnePass(xs, ends) == [xs[0] + xs[1]] + ys;
    assert ([xs[0] + xs[1]] + ys)[1..] == ys;
  }

  lemma PairConcat(x: string, y: string, rest: seq<string>)
    ensures Concat([x, y] + rest) == Concat([x + y] + rest)
  {
    ConcatAppend([x, y], rest);
    ConcatAppend([x + y], rest);
    ConcatAppend([x], [y]);
    assert [x, y] == [x] + [y];
    ConcatOne(x);
    ConcatOne(y);
    ConcatOne(x + y);
  }

  lemma SplittingShifts(xs: seq<string>, k: nat, ys: seq<string>)
    requires |xs| >= 2 && Splitting(xs[2..], k, ys)
    ensures Splitting(xs, k + 2, [xs[0] + xs[1]] + ys)
  {
    var x, y, rest := xs[0], xs[1], xs[2..];
    var zs := [x + y] + ys;
    assert xs[..k + 2] == [x, y] + rest[..k] && xs[k + 2..] == rest[k..];
    assert zs[..|zs| - 1] == [x + y] + ys[..|ys| - 1];
    PairConcat(x, y, rest[..k]);
    ConcatAppend([x + y], rest[..k]);
    ConcatAppend([x + y], ys[..|ys| - 1]);
  }

  lemma FrontGrows(n: nat, ends: bool)
    requires n >= 5 || (n == 4 && ends)
    ensures Front(n, ends) == Front(n - 2, ends) + 2
  {
  }

  lemma {:induction false} FrontSplits(xs: seq<string>, ends: bool)
    requires Grouped(xs)
    ensures Splitting(xs, Front(|xs|, ends), TwoPasses(xs, ends))
    decreases |xs|
  {
    if |xs| >= 5 || (|xs| == 4 && ends) {
      TwicePeels(xs, ends);
      FrontSplits(xs[2..], ends);
      FrontGrows(|xs|, ends);
      SplittingShifts(xs, Front(|xs| - 2, ends), TwoPasses(xs[2..], ends));
    } else if ends {
      JoinsAll(xs);
    } else {
      LastApart(xs);
    }
  }

  /** Up to two blanks go when the last group ends visibly. */
  lemma JoinsAll(xs: seq<string>)
    requires Grouped(xs) && |xs| <= 3
    ensures Splitting(xs, 0, TwoPasses(xs, true))
  {
    var all := Concat(xs);
    assert xs[..0] == [] && xs[0..] == xs;
    ConcatOne(xs[0]);
    if |xs| == 1 {
      assert xs == [xs[0]];
    } else if |xs| == 2 {
      assert xs == [xs[0]] + [xs[1]];
      ConcatAppend([xs[0]], [xs[1]]);
      ConcatOne(xs[1]);
    } else {
      assert xs[2..] == [xs[2]] && xs == [xs[0]] + [xs[1]] + [xs[2]];
      ConcatAppend([xs[0]] + [xs[1]], [xs[2]]);
      ConcatAppend([xs[0]], [xs[1]]);
      ConcatOne(xs[1]);
      ConcatOne(xs[2]);
      assert OnePass(xs, true) == [xs[0] + xs[1]] + [xs[2]];
    }
    assert TwoPasses(xs, true) == [all] && [all][..0] == [];
  }

  /** A last group that does not end visibly stays apart from the others. */
  lemma LastApart(xs: seq<string>)
    requires Grouped(xs) && |xs| <= 4
    ensures Splitting(xs, Front(|xs|, false), TwoPasses(xs, false))
  {
    var n := |xs|;
    ConcatOne(xs[0]);
    if n == 1 {
      assert xs[..0] == [] && xs[0..] == [xs[0]] && xs[..0] == TwoPasses(xs, false)[..0];
    } else {
      var l := xs[n - 1];
      assert xs[n - 1..] == [l];
      ConcatOne(l);
      ApartFrom(xs);
      var front := Concat(xs[..n - 1]);
      assert [front, l][..1] == [front];
      ConcatOne(front);
    }
  }

  lemma ApartFrom(xs: seq<string>)
    requires Grouped(xs) && 2 <= |xs| <= 4
    ensures TwoPasses(xs, false) == [Concat(xs[..|xs| - 1]), xs[|xs| - 1]]
  {
    ConcatOne(xs[0]);
    if |xs| == 2 {
      assert xs[..1] == [xs[0]] && xs == [xs[0], xs[1]];
      assert OnePass(xs, false) == [xs[0]] + OnePass(xs[1..], false) == xs;
    } else if |xs| == 3 {
      assert xs[..2] == [xs[0]] + [xs[1]] && xs[2..] == [xs[2]];
      ConcatAppend([xs[0]], [xs[1]]);
      ConcatOne(xs[1]);
      var ys := [xs[0] + xs[1], xs[2]];
      assert OnePass(xs, false) == ys;
      assert ys[1..] == [xs[2]] && OnePass(ys, false) == ys;
    } else {
      var front, rest := xs[..3], xs[2..];
      assert front == [xs[0]] + [xs[1]] + [xs[2]];
      ConcatAppend([xs[0]] + [xs[1]], [xs[2]]);
      ConcatAppend([xs[0]], [xs[1]]);
      ConcatOne(xs[1]);
      ConcatOne(xs[2]);
      assert rest == [xs[2], xs[3]] && rest[1..] == [xs[3]] && OnePass(rest, false) == rest;
      var ys := [xs[0] + xs[1], xs[2], xs[3]];
      assert OnePass(xs, false) == ys;
      assert ys[2..] == [xs[3]] && OnePass(ys, false) == [xs[0] + xs[1] + xs[2], xs[3]];
    }
  }

  lemma TimesAtLeast(n: int, k: nat)
    requires n >= 0 && k > 0
    ensures n * k >= n
  {
  }

  lemma ReadParts(a: string, b: string)
    requires AllDigits(a) && AllDigits(b)
    ensures ReadNat(a + b) >= ReadNat(a) && ReadNat(a + b) >= ReadNat(b)
    ensures ReadNat(a) == 0 ==> ReadNat(a + b) == ReadNat(b)
  {
    ReadConcat(a, b);
    TimesAtLeast(ReadNat(a), Pow10(|b|));
  }

  lemma {:induction false} HeadsConcat(xs: seq<string>)
    requires forall i :: 0 <= i < |xs| ==> IsHead(xs[i])
    ensures AllDigits(Concat(xs)) && (xs != [] ==> Concat(xs) != "")
  {
    if xs != [] {
      HeadsConcat(xs[..|xs| - 1]);
    }
  }

  lemma BoundsStep(y: int, front: int, l: int, most: int, v: int)
    requires 0 <= y <= l && 0 <= front <= l && v <= most <= Max(100 * front, v)
    requires front == 0 && v >= 0 ==> most == v
    ensures v <= Max(100 * y, most) <= Max(100 * l, v) && (l == 0 && v >= 0 ==> Max(100 * y, most) == v)
  {
  }

  /** The largest of the numbers read lies between the last number and what the digits in
      front of it denote. */
  ghost predicate Between(l: int, v: int, most: int) {
    l >= 0 && v <= most <= Max(100 * l, v) && (l == 0 && v >= 0 ==> most == v)
  }

  lemma InFront(y: string, ys: seq<string>)
    requires Heads(ys) && IsHead(y)
    ensures var l := ReadNat(Concat(([y] + ys)[..|ys|]));
            0 <= ReadNat(y) <= l && 0 <= ReadNat(Concat(ys[..|ys| - 1])) <= l
  {
    var front := ys[..|ys| - 1];
    assert ([y] + ys)[..|ys|] == [y] + front;
    HeadsConcat(front);
    ConcatAppend([y], front);
    ConcatOne(y);
    ReadParts(y, Concat(front));
  }

  lemma {:induction false} MostBounds(ys: seq<string>, cents: string)
    requires Heads(ys)
    ensures Between(ReadNat(Concat(ys[..|ys| - 1])), 100 * ReadNat(ys[|ys| - 1]) + Hundredths(cents), Most(ys, cents))
    decreases |ys|
  {
    if |ys| == 1 {
      assert ys[..0] == [];
    } else {
      var rest := ys[1..];
      MostBounds(rest, cents);
      assert ys == [ys[0]] + rest && |rest| == |ys| - 1;
      InFront(ys[0], rest);
      BoundsStep(ReadNat(ys[0]), ReadNat(Concat(rest[..|rest| - 1])), ReadNat(Concat(ys[..|rest|])),
                 Most(rest, cents), 100 * ReadNat(rest[|rest| - 1]) + Hundredths(cents));
    }
  }

  lemma LastCounts(l: string, last: string, c: int, most: int)
    requires AllDigits(l) && IsHead(last) && c >= 0 && Between(ReadNat(l), 100 * ReadNat(last) + c, most)
    ensures var total := 100 * ReadNat(l + last) + c; most <= total && (most == total <==> ReadNat(l) == 0)
  {
    ReadConcat(l, last);
    TenTimes(ReadNat(l), Pow10(|last| - 1));
  }

  lemma TenTimes(n: int, k: nat)
    requires n >= 0 && k > 0
    ensures n * (10 * k) >= 10 * n
  {
    TimesAtLeast(10 * n, k);
    assert (10 * n) * k == n * (10 * k);
  }

  lemma CutAt(xs: seq<string>, k: nat)
    requires k <= |xs|
    ensures Concat(xs) == Concat(xs[..k]) + Concat(xs[k..])
  {
    assert xs == xs[..k] + xs[k..];
    ConcatAppend(xs[..k], xs[k..]);
  }

  lemma HeadFirst(h: string, groups: seq<string>)
    ensures Concat([h] + groups) == h + Concat(groups)
  {
    ConcatAppend([h], groups);
    ConcatOne(h);
  }

  /** The digits of the amount are those in front of the last number and those in it. */
  lemma DigitsInTwo(a: Amount, ends: bool)
    requires a.Valid()
    ensures var k, ys := Front(|a.groups| + 1, ends), Pieces(a, ends);
            var l := Concat(([a.head] + a.groups)[..k]);
            && AllDigits(l) && a.head + Concat(a.groups) == l + ys[|ys| - 1]
            && l == Concat(ys[..|ys| - 1])
  {
    var xs, k := [a.head] + a.groups, Front(|a.groups| + 1, ends);
    FrontSplits(xs, ends);
    CutAt(xs, k);
    HeadFirst(a.head, a.groups);
    HeadsConcat(xs[..k]);
  }

  lemma HundredthsPositive(cents: string)
    requires IsDecimal(cents)
    ensures Hundredths(cents) >= 0
  {
  }

  lemma MostExact(a: Amount, ends: bool)
    requires a.Valid()
    ensures var l, most := Concat(([a.head] + a.groups)[..Front(|a.groups| + 1, ends)]), Most(Pieces(a, ends), a.cents);
            most <= a.Value() && (most == a.Value() <==> ReadNat(l) == 0)
  {
    var ys := Pieces(a, ends);
    DigitsInTwo(a, ends);
    MostBounds(ys, a.cents);
    HundredthsPositive(a.cents);
    LastCounts(Concat(ys[..|ys| - 1]), ys[|ys| - 1], Hundredths(a.cents), Most(ys, a.cents));
  }

  /** What is read never exceeds the amount, and is the amount exactly when the digits in
      front of the last number read are zeros. */
  lemma ReadingExact(a: Amount, after: string)
    requires a.Valid()
    ensures Reading(a, after) <= a.Value()
    ensures Reading(a, after) == a.Value() <==> ReadNat(Hidden(a, after)) == 0
  {
    MostExact(a, Ends(a, after));
  }

  /** Any amount, alone among text without digits, is read back exactly if and only if
      the digits that stay apart in front are zeros; otherwise less is read. */
  lemma AmountReadsBack(p: string, a: Amount, q: string)
    requires NoDigits(p) && a.Valid() && NoDigits(q)
    ensures MaxCents(p + a.Text() + q) <= a.Value()
    ensures MaxCents(p + a.Text() + q) == a.Value() <==> ReadNat(Hidden(a, q)) == 0
  {
    AmountRead(p, a, q);
    ReadingExact(a, q);
  }

  /** With dots, commas, or at most two blanks and a visible end, no digits stay apart. */
  lemma ShortAmountReadsBack(p: string, a: Amount, q: string)
    requires NoDigits(p) && a.Valid() && NoDigits(q)
    requires IsMark(a.sep) || a.groups == [] || (|a.groups| <= 2 && Ends(a, q))
    ensures MaxCents(p + a.Text() + q) == a.Value()
  {
    assert ([a.head] + a.groups)[..0] == [];
    AmountReadsBack(p, a, q);
  }

  /** Of blank-separated groups the last of which is glued to a unit, that group is read
      apart: the amount is read only if nothing but zeros stand in front of it. */
  lemma GluedUnitMisread(p: string, a: Amount, q: string)
    requires NoDigits(p) && a.Valid() && NoDigits(q) && IsBlank(a.sep) && a.groups != [] && !Ends(a, q)
    ensures var front := a.head + Concat(a.groups[..|a.groups| - 1]);
            MaxCents(p + a.Text() + q) == a.Value() <==> ReadNat(front) == 0
  {
    var k := |a.groups|;
    assert ([a.head] + a.groups)[..k] == [a.head] + a.groups[..k - 1];
    ConcatAppend([a.head], a.groups[..k - 1]);
    ConcatOne(a.head);
    AmountReadsBack(p, a, q);
  }

  lemma TwoPieces(xs: seq<string>, y: string, z: string)
    requires Heads(xs) && xs == [y, z] && |z| == 3
    ensures TwoPasses(xs, true) == [y + z]
  {
    assert OnePass(xs, true) == [y + z];
  }

  lemma FourPieces(xs: seq<string>, ys: seq<string>, h: string, x: string, y: string, z: string)
    requires Grouped(xs) && xs == [h, x, y, z] && ys == TwoPasses(xs, true)
    ensures ys == [h + x, y + z]
  {
    TwicePeels(xs, true);
    TwoPieces(xs[2..], y, z);
  }

  lemma MostOfTwo(ys: seq<string>, x: string, y: string, cents: string)
    requires ys == [x, y]
    ensures Most(ys, cents) == Max(100 * ReadNat(x), 100 * ReadNat(y) + Hundredths(cents))
  {
    assert ys[1..] == [y];
  }

  lemma TwoConcat(x: string, y: string)
    ensures Concat([x] + [y]) == x + y
  {
    ConcatAppend([x], [y]);
    ConcatOne(x);
    ConcatOne(y);
  }

  lemma FourRead(xs: seq<string>, ys: seq<string>, h: string, x: string, y: string, z: string, cents: string)
    requires Grouped(xs) && xs == [h, x, y, z] && ys == TwoPasses(xs, true)
    ensures Most(ys, cents) == Max(100 * ReadNat(h + x), 100 * ReadNat(y + z) + Hundredths(cents))
  {
    FourPieces(xs, ys, h, x, y, z);
    MostOfTwo(ys, h + x, y + z, cents);
  }

  lemma FirstTwo(xs: seq<string>, h: string, x: string)
    requires |xs| >= 2 && xs[0] == h && xs[1] == x
    ensures Concat(xs[..2]) == h + x
  {
    assert xs[..2] == [h] + [x];
    TwoConcat(h, x);
  }

  lemma ThreeGroups(a: Amount, after: string)
    requires a.Valid() && IsBlank(a.sep) && |a.groups| == 3 && Ends(a, after)
    ensures var front, last := a.head + a.groups[0], a.groups[1] + a.groups[2];
            && Hidden(a, after) == front
            && Reading(a, after) == Max(100 * ReadNat(front), 100 * ReadNat(last) + Hundredths(a.cents))
  {
    var g, xs := a.groups, [a.head] + a.groups;
    assert Grouped(xs) && xs == [a.head, g[0], g[1], g[2]];
    FirstTwo(xs, a.head, g[0]);
    FourRead(xs, TwoPasses(xs, true), a.head, g[0], g[1], g[2], a.cents);
  }

  /** Three blanks are one too many for two passes that do not overlap: head and first
      group are read apart from the other two. */
  lemma TenDigitsMisread(p: string, a: Amount, q: string)
    requires NoDigits(p) && a.Valid() && NoDigits(q) && IsBlank(a.sep) && |a.groups| == 3 && Ends(a, q)
    ensures var front, last := a.head + a.groups[0], a.groups[1] + a.groups[2];
            && MaxCents(p + a.Text() + q) == Max(100 * ReadNat(front), 100 * ReadNat(last) + Hundredths(a.cents))
            && (MaxCents(p + a.Text() + q) == a.Value() <==> ReadNat(front) == 0)
  {
    AmountReadsBack(p, a, q);
    AmountRead(p, a, q);
    ThreeGroups(a, q);
  }

  const BILLION := Amount("1", ["234", "567", "890"], ' ', "")

  lemma BillionText()
    ensures "KES " + BILLION.Text() + "" == "KES 1 234 567 890"
  {
    var groups := BILLION.groups;
    assert groups[..2] == ["234", "567"] && groups[..2][..1] == ["234"] && groups[..1][..0] == [];
    assert Separated(groups[..2][..1], ' ') == " 234";
    assert Separated(groups[..2], ' ') == " 234 567";
    assert Separated(groups, ' ') == " 234 567 890";
  }

  lemma BillionNumbers()
    ensures ReadNat("1" + "234") == 1234 && ReadNat("567" + "890") == 567890
  {
    ReadThree('2', '3', '4');
    ReadThree('5', '6', '7');
    ReadThree('8', '9', '0');
    ReadConcat("1", "234");
    ReadConcat("567", "890");
    ReadLast("", '1');
    assert Pow10(1) == 10 && Pow10(2) == 100 && Pow10(3) == 1000;
    assert "" + ['1'] == "1";
  }

  lemma ReadThree(x: char, y: char, z: char)
    ensures ReadNat([x, y, z]) == 100 * (x as int) + 10 * (y as int) + (z as int) - 111 * ('0' as int)
  {
    ReadLast("", x);
    ReadLast([x], y);
    ReadLast([x, y], z);
    assert "" + [x] == [x] && [x] + [y] == [x, y] && [x, y] + [z] == [x, y, z];
  }

  /** Such a text as the page check can find: of over a billion shillings 567890 are read. */
  lemma BillionMisread()
    ensures MaxCents("KES 1 234 567 890") == 56_789_000 < BILLION.Value()
  {
    TenDigitsMisread("KES ", BILLION, "");
    BillionText();
    BillionNumbers();
    AmountReadsBack("KES ", BILLION, "");
  }

  /** Text between two amounts that keeps them apart. */
  predicate Keeps(mid: string) {
    NoDigits(mid) && NumberEnd(mid) < |mid| && !(|mid| == 1 && IsBlank(mid[0]))
  }

  lemma RangeBehind(a: Amount, mid: string, b: Amount, q: string)
    requires Keeps(mid)
    ensures Behind(mid + b.Text() + q) && Ends(a, mid + b.Text() + q) == Ends(a, mid)
  {
    var t := mid + b.Text() + q;
    assert t[0] == mid[0] && (|mid| >= 2 ==> t[1] == mid[1]);
  }

  /** The two passes over a range; `end` is what they leave of its second amount. */
  lemma RangeLeaves(p: string, a: Amount, mid: string, b: Amount, q: string, t: string, end: string)
    requires NoDigits(p) && a.Valid() && Keeps(mid) && b.Valid() && NoDigits(q)
    requires t == mid + b.Text() + q && end == Left(b, Ends(b, q), q)
    ensures Squeeze(Squeeze(p + a.Text() + t)) == p + Left(a, Ends(a, mid), mid + end)
  {
    TextBehind(q);
    PassesLeave(mid, b, q);
    RangeBehind(a, mid, b, q);
    PassesLeave(p, a, t);
  }

  lemma EndNumbers(b: Amount, q: string, end: string)
    requires b.Valid() && NoDigits(q) && end == Left(b, Ends(b, q), q)
    ensures Largest(Numbers(end)) == Reading(b, q) >= 0
  {
    AmountNumbers("", b, q, "");
    Empty(q);
    Empty(end);
    LargestConcat(Found(b, q), Numbers(""));
  }

  /** Of a range the larger end is read, each end as it would be alone. */
  lemma RangeReadsLarger(p: string, a: Amount, mid: string, b: Amount, q: string)
    requires NoDigits(p) && a.Valid() && Keeps(mid) && b.Valid() && NoDigits(q)
    ensures MaxCents(p + a.Text() + (mid + b.Text() + q)) == Max(Reading(a, mid), Reading(b, q))
  {
    var end := Left(b, Ends(b, q), q);
    RangeLeaves(p, a, mid, b, q, mid + b.Text() + q, end);
    EndNumbers(b, q, end);
    AmountNumbers(p, a, mid, end);
    LargestConcat(Found(a, mid), Numbers(end));
  }
}
