/** Reading the largest amount out of a salary text: maxNum of srv/jobs/signals.go, with
    its two passes of space removal.  Amounts are in cents. */
module Salary {
  import opened Decimal

  /** \s of the regexp package. */
  predicate IsBlank(c: char) {
    c in {' ', '\t', '\n', '\r', '\U{000c}'}
  }

  predicate IsMark(c: char) {
    c == '.' || c == ','
  }

  /** A character \b does not separate from a digit. */
  predicate IsWordChar(c: char) {
    IsDigit(c) || 'a' <= c <= 'z' || 'A' <= c <= 'Z' || c == '_'
  }

  lemma DigitsConcat(a: string, b: string)
    requires AllDigits(a) && AllDigits(b)
    ensures AllDigits(a + b)
  {
  }

  predicate NoDigits(s: string) {
    forall i :: 0 <= i < |s| ==> !IsDigit(s[i])
  }

  /** The match of (\d)\s(\d{3})\b at the start of s. */
  predicate Splits(s: string) {
    && |s| >= 5 && IsDigit(s[0]) && IsBlank(s[1]) && AllDigits(s[2..5])
    && (|s| == 5 || !IsWordChar(s[5]))
  }

  /** One ReplaceAll: every non-overlapping match, left to right, loses its blank. */
  function Squeeze(s: string): string
    decreases |s|
  {
    if s == "" then ""
    else if Splits(s) then [s[0]] + s[2..5] + Squeeze(s[5..])
    else [s[0]] + Squeeze(s[1..])
  }

  /** Length of the longest prefix of digits, dots and commas. */
  function NumberEnd(s: string): (k: nat)
    ensures k <= |s|
    ensures forall i :: 0 <= i < k ==> IsDigit(s[i]) || IsMark(s[i])
    ensures k < |s| ==> !IsDigit(s[k]) && !IsMark(s[k])
  {
    if s == "" || !(IsDigit(s[0]) || IsMark(s[0])) then 0 else 1 + NumberEnd(s[1..])
  }

  /** The matches of \d[\d.,]* in s. */
  function Numbers(s: string): seq<string>
    decreases |s|
  {
    if s == "" then []
    else if IsDigit(s[0]) then [s[..NumberEnd(s)]] + Numbers(s[NumberEnd(s)..])
    else Numbers(s[1..])
  }

  function TrimMarks(s: string): (t: string)
    ensures t <= s
  {
    if s != "" && IsMark(s[|s| - 1]) then TrimMarks(s[..|s| - 1]) else s
  }

  /** strings.LastIndexAny for dots and commas. */
  function LastMark(s: string): (i: int)
    ensures -1 <= i < |s|
    ensures i >= 0 ==> IsMark(s[i])
    ensures forall k :: i < k < |s| ==> !IsMark(s[k])
  {
    if s == "" then -1 else if IsMark(s[|s| - 1]) then |s| - 1 else LastMark(s[..|s| - 1])
  }

  function DropMarks(s: string): string {
    if s == "" then "" else
      var d, c := DropMarks(s[..|s| - 1]), s[|s| - 1];
      if IsMark(c) then d else d + [c]
  }

  /** The value of a match without marks behind it, in cents: the last mark is a decimal
      mark exactly when two digits follow it; all other marks are dropped. */
  function CentsOf(m: string): int {
    var i := LastMark(m);
    if i >= 0 && |m| - i - 1 == 2 then 100 * ReadNat(DropMarks(m[..i])) + ReadNat(m[i + 1..])
    else 100 * ReadNat(DropMarks(m))
  }

  function Cents(number: string): int {
    CentsOf(TrimMarks(number))
  }

  function Largest(numbers: seq<string>): nat {
    if numbers == [] then 0 else
      var best, v := Largest(numbers[..|numbers| - 1]), Cents(numbers[|numbers| - 1]);
      if v > best then v else best
  }

  function MaxCents(s: string): nat {
    Largest(Numbers(Squeeze(Squeeze(s))))
  }

  method ComputeMaxCents(s: string) returns (best: nat)
    ensures best == MaxCents(s)
  {
    best := 0;
    var numbers := Numbers(Squeeze(Squeeze(s)));
    for k := 0 to |numbers|
      invariant best == Largest(numbers[..k])
    {
      assert numbers[..k + 1][..k] == numbers[..k];
      var v := Cents(numbers[k]);
      if v > best {
        best := v;
      }
    }
    assert numbers[..|numbers|] == numbers;
  }

  // ----- the passes ------------------------------------------------------------------------

  /** Digit, blank, digit: the only place where a pass can change something. */
  predicate Gap(s: string, i: nat) {
    i + 2 < |s| && IsDigit(s[i]) && IsBlank(s[i + 1]) && IsDigit(s[i + 2])
  }

  lemma SplitsAtGap(s: string)
    ensures Splits(s) ==> Gap(s, 0)
  {
    if Splits(s) {
      assert s[2..5][0] == s[2];
    }
  }

  lemma SqueezeOne(c: char, t: string)
    requires !Gap([c] + t, 0)
    ensures Squeeze([c] + t) == [c] + Squeeze(t)
  {
    SplitsAtGap([c] + t);
    assert ([c] + t)[1..] == t;
  }

  lemma GapsShift(c: char, t: string, n: nat)
    requires forall i: nat :: i < n + 1 ==> !Gap([c] + t, i)
    ensures forall i: nat :: i < n ==> !Gap(t, i)
  {
    forall i: nat | i < n ensures !Gap(t, i) {
      assert !Gap([c] + t, i + 1);
    }
  }

  lemma {:induction false} SqueezeSkips(s: string, n: nat)
    requires n <= |s| && forall i: nat :: i < n ==> !Gap(s, i)
    ensures Squeeze(s) == s[..n] + Squeeze(s[n..])
  {
    if n > 0 {
      var c, t := s[0], s[1..];
      assert s == [c] + t && s[..n] == [c] + t[..n - 1] && s[n..] == t[n - 1..];
      GapsShift(c, t, n - 1);
      SqueezeSkips(t, n - 1);
      SqueezeOne(c, t);
    } else {
      assert s[..0] == "" && s[0..] == s;
    }
  }

  /** The first character stays, and a first character that is no digit keeps the
      second in place too. */
  lemma SqueezeKeepsStart(s: string)
    ensures s == "" <==> Squeeze(s) == ""
    ensures s != "" ==> Squeeze(s)[0] == s[0]
    ensures |s| >= 2 && !IsDigit(s[0]) ==> |Squeeze(s)| >= 2 && Squeeze(s)[1] == s[1]
    ensures |s| == 1 ==> |Squeeze(s)| == 1
  {
    if s != "" && !IsDigit(s[0]) {
      assert Squeeze(s) == [s[0]] + Squeeze(s[1..]);
    }
  }

  /** What may follow an amount: no blank and digit that a pass could glue to it. */
  predicate Loose(tail: string) {
    !(|tail| >= 2 && IsBlank(tail[0]) && IsDigit(tail[1]))
  }

  /** What must follow the last group of three for a pass to see where it ends. */
  predicate Bounded(tail: string) {
    tail == "" || !IsWordChar(tail[0])
  }

  lemma GroupSplits(c: char, b: char, g: string, rest: string)
    requires IsDigit(c) && IsBlank(b) && |g| == 3 && AllDigits(g) && Bounded(rest)
    ensures var t := [c] + ([b] + (g + rest)); Splits(t) && t[0] == c && t[2..5] == g && t[5..] == rest
  {
    var t := [c] + ([b] + (g + rest));
    assert t[2..5] == g && t[5..] == rest;
    assert |t| > 5 ==> t[5] == rest[0];
  }

  lemma PassTakes(c: char, b: char, g: string, rest: string)
    requires IsDigit(c) && IsBlank(b) && |g| == 3 && AllDigits(g) && Bounded(rest)
    ensures Squeeze([c] + ([b] + (g + rest))) == [c] + (g + Squeeze(rest))
  {
    GroupSplits(c, b, g, rest);
    assert [c] + g + Squeeze(rest) == [c] + (g + Squeeze(rest));
  }

  lemma PassSkips(x: string, t: string)
    requires forall i: nat :: i < |x| ==> !Gap(x + t, i)
    ensures Squeeze(x + t) == x + Squeeze(t)
  {
    SqueezeSkips(x + t, |x|);
    assert (x + t)[..|x|] == x && (x + t)[|x|..] == t;
  }

  /** No gap begins in text without digits, nor in digits that more digits follow. */
  lemma NoGapBefore(p: string, d: string, t: string)
    requires NoDigits(p) && AllDigits(d) && t != "" && IsDigit(t[0])
    ensures forall i: nat :: i < |p + d| ==> !Gap(p + d + t, i)
  {
    var s := p + d + t;
    forall i: nat | i < |p + d| ensures !Gap(s, i) {
      if i < |p| {
        assert s[i] == p[i];
      } else if i + 1 < |p| + |d| {
        assert s[i + 1] == d[i + 1 - |p|];
      } else {
        assert s[i + 1] == t[0];
      }
    }
  }

  /** A pass closes the gap behind the digits d and goes on behind the group. */
  lemma PassCloses(p: string, d: string, c: char, b: char, g: string, rest: string)
    requires NoDigits(p) && AllDigits(d) && IsDigit(c) && IsBlank(b) && |g| == 3 && AllDigits(g)
    requires Bounded(rest)
    ensures Squeeze(p + d + ([c] + ([b] + (g + rest)))) == p + d + ([c] + (g + Squeeze(rest)))
  {
    var t := [c] + ([b] + (g + rest));
    NoGapBefore(p, d, t);
    PassSkips(p + d, t);
    PassTakes(c, b, g, rest);
  }

  /** A pass leaves alone text without digits, an amount without blanks, and goes on
      behind it. */
  lemma PassKeeps(p: string, t: string, tail: string)
    requires NoDigits(p) && (forall i :: 0 <= i < |t| ==> !IsBlank(t[i])) && Loose(tail)
    ensures Squeeze(p + t + tail) == p + t + Squeeze(tail)
  {
    var s := p + t + tail;
    forall i: nat | i < |p + t| ensures !Gap(s, i) {
      if i < |p| {
        assert s[i] == p[i];
      } else if i + 1 < |p + t| {
        assert s[i + 1] == t[i + 1 - |p|];
      } else if i + 2 < |s| {
        assert s[i + 1] == tail[0] && s[i + 2] == tail[1];
      }
    }
    PassSkips(p + t, tail);
  }

  lemma Regroup(p: string, d: string, c: string, b: string, g: string, more: string)
    ensures p + (d + c + b + g) + more == p + d + (c + (b + (g + more)))
    ensures p + d + (c + (g + more)) == p + (d + c + g) + more
  {
  }

  /** A pass over a head and a group, whatever follows. */
  lemma PassGroup(p: string, head: string, b: char, g: string, rest: string)
    requires NoDigits(p) && AllDigits(head) && head != "" && IsBlank(b) && |g| == 3 && AllDigits(g) && Bounded(rest)
    ensures Squeeze(p + (head + [b] + g) + rest) == p + (head + g) + Squeeze(rest)
  {
    var d, c := head[..|head| - 1], head[|head| - 1];
    assert head == d + [c];
    Regroup(p, d, [c], [b], g, rest);
    Regroup(p, d, [c], [b], g, Squeeze(rest));
    PassCloses(p, d, c, b, g, rest);
  }

  /** A pass goes over digits that no closable gap follows. */
  lemma PassLeaves(p: string, x: string, r: string)
    requires NoDigits(p) && AllDigits(x) && x != "" && !Splits([x[|x| - 1]] + r)
    ensures Squeeze(p + x + r) == p + x + Squeeze(r)
  {
    var d, c := x[..|x| - 1], x[|x| - 1];
    assert x == d + [c];
    NoGapBefore(p, d, [c] + r);
    PassSkips(p + d, [c] + r);
    assert p + x + r == p + d + ([c] + r) && p + x + Squeeze(r) == p + d + ([c] + Squeeze(r));
    assert ([c] + r)[1..] == r;
  }

  lemma NoDigitsKept(q: string)
    requires NoDigits(q)
    ensures Squeeze(q) == q && Loose(q)
  {
    PassKeeps(q, "", "");
    assert q + "" + "" == q && Squeeze("") == "";
  }

  // ----- the numbers found -------------------------------------------------------------------

  /** A match as it stands alone: digits and marks, a digit at both ends. */
  predicate IsNumber(t: string) {
    && t != "" && IsDigit(t[0]) && IsDigit(t[|t| - 1])
    && forall i :: 0 <= i < |t| ==> IsDigit(t[i]) || IsMark(t[i])
  }

  lemma {:induction false} NumbersSkip(p: string, s: string)
    requires NoDigits(p)
    ensures Numbers(p + s) == Numbers(s)
  {
    if p == "" {
      assert p + s == s;
    } else {
      assert (p + s)[1..] == p[1..] + s;
      NumbersSkip(p[1..], s);
    }
  }

  lemma {:induction false} NumberEndIs(s: string, k: nat)
    requires k <= |s| && (forall i :: 0 <= i < k ==> IsDigit(s[i]) || IsMark(s[i]))
    requires k < |s| ==> !IsDigit(s[k]) && !IsMark(s[k])
    ensures NumberEnd(s) == k
  {
    if k > 0 {
      NumberEndIs(s[1..], k - 1);
    }
  }

  /** The marks that stand right behind a number and belong to its match. */
  function Marks(q: string): string {
    q[..NumberEnd(q)]
  }

  lemma NumberEndBehind(t: string, q: string, rest: string)
    requires IsNumber(t) && NoDigits(q) && (rest == "" || NumberEnd(q) < |q|)
    ensures NumberEnd(t + (q + rest)) == |t| + NumberEnd(q)
  {
    var s, n := t + (q + rest), |t| + NumberEnd(q);
    forall i | 0 <= i < n ensures IsDigit(s[i]) || IsMark(s[i]) {
      if i >= |t| {
        assert s[i] == q[i - |t|];
      }
    }
    assert n < |s| ==> s[n] == q[n - |t|];
    NumberEndIs(s, n);
  }

  /** A number behind text without digits is one match, together with the marks that
      follow it; the search goes on behind the text after it. */
  lemma NumberFound(p: string, t: string, q: string, rest: string)
    requires NoDigits(p) && IsNumber(t) && NoDigits(q) && (rest == "" || NumberEnd(q) < |q|)
    ensures Numbers(p + (t + (q + rest))) == [t + Marks(q)] + Numbers(rest)
  {
    var s, k := t + (q + rest), NumberEnd(q);
    NumbersSkip(p, s);
    NumberEndBehind(t, q, rest);
    assert s[..|t| + k] == t + q[..k] && s[|t| + k..] == q[k..] + rest;
    NumbersSkip(q[k..], rest);
  }

  lemma Empty(x: string)
    ensures "" + x == x && x + "" == x
  {
  }

  lemma Assoc(x: string, y: string, z: string)
    ensures x + y + z == x + (y + z)
  {
  }

  lemma {:induction false} TrimBack(t: string, marks: string)
    requires t != "" && !IsMark(t[|t| - 1]) && forall i :: 0 <= i < |marks| ==> IsMark(marks[i])
    ensures TrimMarks(t + marks) == t
  {
    if marks == "" {
      assert t + marks == t;
    } else {
      assert (t + marks)[..|t + marks| - 1] == t + marks[..|marks| - 1];
      TrimBack(t, marks[..|marks| - 1]);
    }
  }

  lemma {:induction false} DropConcat(a: string, b: string)
    ensures DropMarks(a + b) == DropMarks(a) + DropMarks(b)
  {
    if b == "" {
      assert a + b == a;
    } else {
      assert (a + b)[..|a + b| - 1] == a + b[..|b| - 1];
      DropConcat(a, b[..|b| - 1]);
    }
  }

  lemma {:induction false} DropDigits(a: string)
    requires AllDigits(a)
    ensures DropMarks(a) == a
  {
    if a != "" {
      DropDigits(a[..|a| - 1]);
    }
  }

  lemma {:induction false} LastMarkIs(s: string, i: int)
    requires -1 <= i < |s| && (i >= 0 ==> IsMark(s[i])) && forall k :: i < k < |s| ==> !IsMark(s[k])
    ensures LastMark(s) == i
  {
    if i < |s| - 1 {
      LastMarkIs(s[..|s| - 1], i);
    }
  }

  /** A number whose last mark is not followed by two digits is a whole amount. */
  lemma WholeCents(x: string, i: int)
    requires TrimMarks(x) == x && LastMark(x) == i && (i < 0 || |x| - i - 1 != 2)
    ensures Cents(x) == 100 * ReadNat(DropMarks(x))
  {
  }

  /** A number ending in a mark and two digits has these as cents. */
  lemma DecimalCents(x: string, cents: string)
    requires |cents| == 3 && IsMark(cents[0]) && AllDigits(cents[1..])
    ensures LastMark(x + cents) == |x|
    ensures TrimMarks(x + cents) == x + cents ==> Cents(x + cents) == 100 * ReadNat(DropMarks(x)) + ReadNat(cents[1..])
  {
    var m := x + cents;
    assert m[..|x|] == x && m[|x| + 1..] == cents[1..];
    assert forall k :: |x| < k < |m| ==> m[k] == cents[1..][k - |x| - 1];
    LastMarkIs(m, |x|);
  }

  lemma CentsIgnoresMarks(t: string, marks: string)
    requires t != "" && !IsMark(t[|t| - 1]) && forall i :: 0 <= i < |marks| ==> IsMark(marks[i])
    ensures Cents(t + marks) == Cents(t) && TrimMarks(t) == t
  {
    TrimBack(t, marks);
    TrimBack(t, "");
    Empty(t);
  }
}
