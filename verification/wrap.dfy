/** Greedy paragraph filling: wrap of srv/jobs/report.go. */
module Wrap {
  import opened Text

  type Line = seq<string>

  /** What a word counts: its bytes for the code, its characters on the page. */
  type Size = string -> nat

  function Bytes(): Size {
    w => ByteLen(w)
  }

  function Chars(): Size {
    w => |w|
  }

  /** Length of a line: its words and one space between neighbours. */
  function LineLen(size: Size, line: Line): nat {
    if line == [] then 0
    else if |line| == 1 then size(line[0])
    else LineLen(size, line[..|line| - 1]) + 1 + size(line[|line| - 1])
  }

  lemma {:induction false} LineLenIsJoined(line: Line)
    ensures ByteLen(Join(line, ' ')) == LineLen(Bytes(), line)
  {
    if |line| > 1 {
      var front, w := line[..|line| - 1], line[|line| - 1];
      LineLenIsJoined(front);
      ByteLenConcat(Join(front, ' '), [' ']);
      ByteLenConcat(Join(front, ' ') + [' '], w);
      assert [' '][..0] == [] && ByteLen([' ']) == 1;
    }
  }

  lemma {:induction false} CharsAreJoined(line: Line)
    ensures |Join(line, ' ')| == LineLen(Chars(), line)
  {
    if |line| > 1 {
      CharsAreJoined(line[..|line| - 1]);
    }
  }

  /** A line may be longer than the width only if it is one word. */
  predicate Legal(size: Size, line: Line, width: int) {
    |line| <= 1 || LineLen(size, line) <= width
  }

  function Flat(lines: seq<Line>): seq<string> {
    if lines == [] then [] else lines[0] + Flat(lines[1..])
  }

  /** The lines made of `line`, the one being filled, and the words still to come. */
  function Fill(size: Size, words: seq<string>, width: int, line: Line): (lines: seq<Line>)
    ensures lines != []
    decreases |words|
  {
    if words == [] then [line]
    else if line != [] && LineLen(size, line) + 1 + size(words[0]) > width
    then [line] + Fill(size, words[1..], width, [words[0]])
    else Fill(size, words[1..], width, line + [words[0]])
  }

  lemma FlatFirst(line: Line, lines: seq<Line>)
    ensures Flat([line] + lines) == line + Flat(lines)
  {
    assert ([line] + lines)[1..] == lines;
  }

  predicate AllLegal(size: Size, lines: seq<Line>, width: int) {
    forall i :: 0 <= i < |lines| ==> Legal(size, lines[i], width)
  }

  lemma LegalFirst(size: Size, line: Line, lines: seq<Line>, width: int)
    requires Legal(size, line, width) && AllLegal(size, lines, width)
    ensures AllLegal(size, [line] + lines, width)
  {
  }

  lemma LegalWithWord(size: Size, line: Line, w: string, width: int)
    requires line == [] || LineLen(size, line) + 1 + size(w) <= width
    ensures Legal(size, line + [w], width)
  {
    assert (line + [w])[..|line|] == line;
  }

  lemma OneWordOver(line: Line, words: seq<string>)
    requires words != []
    ensures line + words == line + ([words[0]] + words[1..]) == (line + [words[0]]) + words[1..]
  {
  }

  lemma {:induction false} FillKeepsWords(size: Size, words: seq<string>, width: int, line: Line)
    requires Legal(size, line, width)
    ensures Flat(Fill(size, words, width, line)) == line + words
    ensures AllLegal(size, Fill(size, words, width, line), width)
    decreases |words|
  {
    if words == [] {
      FlatFirst(line, []);
      assert [line] + [] == [line];
    } else {
      var w, rest := words[0], words[1..];
      OneWordOver(line, words);
      if line != [] && LineLen(size, line) + 1 + size(w) > width {
        FillKeepsWords(size, rest, width, [w]);
        FlatFirst(line, Fill(size, rest, width, [w]));
        LegalFirst(size, line, Fill(size, rest, width, [w]), width);
      } else {
        LegalWithWord(size, line, w, width);
        FillKeepsWords(size, rest, width, line + [w]);
      }
    }
  }

  // ----- greedy is optimal ------------------------------------------------------------------

  lemma {:induction false} SuffixShorter(size: Size, a: Line, b: Line)
    ensures LineLen(size, b) <= LineLen(size, a + b)
  {
    if b == [] {
    } else if |b| == 1 {
      if a != [] {
        assert (a + b)[..|a + b| - 1] == a;
      } else {
        assert a + b == b;
      }
    } else {
      assert (a + b)[..|a + b| - 1] == a + b[..|b| - 1];
      SuffixShorter(size, a, b[..|b| - 1]);
    }
  }

  lemma {:induction false} PrefixShorter(size: Size, a: Line, b: Line)
    ensures LineLen(size, a) <= LineLen(size, a + b)
  {
    if b == [] {
      assert a + b == a;
    } else {
      assert (a + b)[..|a + b| - 1] == a + b[..|b| - 1];
      PrefixShorter(size, a, b[..|b| - 1]);
    }
  }

  lemma HeadInside<T>(first: seq<T>, rest: seq<T>, head: seq<T>, more: seq<T>)
    requires first + rest == head + more && |head| <= |first|
    ensures first == head + first[|head|..]
  {
    assert (first + rest)[..|head|] == first[..|head|];
    assert (head + more)[..|head|] == head;
  }

  lemma HoldsBoth(size: Size, h: Line, line: Line, w: string, tail: Line)
    requires line != []
    ensures LineLen(size, h + (line + [w]) + tail) >= LineLen(size, line) + 1 + size(w)
  {
    PrefixShorter(size, h + (line + [w]), tail);
    SuffixShorter(size, h, line + [w]);
    assert (line + [w])[..|line|] == line;
  }

  /** A legal line cannot hold a whole line and a word that does not fit behind it. */
  lemma FirstLineStops(size: Size, first: Line, rest: seq<string>, h: Line, line: Line, w: string, more: seq<string>,
                       width: int)
    requires Legal(size, first, width) && first + rest == h + (line + [w]) + more
    requires line != [] && LineLen(size, line) + 1 + size(w) > width
    ensures |first| <= |h| + |line|
  {
    var head := h + (line + [w]);
    if |head| <= |first| {
      HeadInside(first, rest, head, more);
      HoldsBoth(size, h, line, w, first[|head|..]);
    }
  }

  /** Greedy stays ahead: while it fills `line`, no legal breaking of the same words,
      possibly with some words `h` still in front, needs fewer lines. */
  lemma {:induction false} GreedyStaysAhead(size: Size, words: seq<string>, width: int, h: Line, line: Line,
                                            other: seq<Line>)
    requires line != [] && Flat(other) == h + line + words
    requires forall i :: 0 <= i < |other| ==> Legal(size, other[i], width)
    ensures |Fill(size, words, width, line)| <= |other|
    decreases |words|
  {
    if words != [] {
      var w, rest := words[0], words[1..];
      assert h + line + words == h + (line + [w]) + rest;
      if LineLen(size, line) + 1 + size(w) > width {
        FirstLineStops(size, other[0], Flat(other[1..]), h, line, w, rest, width);
        var t := (h + line)[|other[0]|..];
        assert Flat(other)[|other[0]|..] == Flat(other[1..]);
        assert Flat(other[1..]) == t + [w] + rest;
        GreedyStaysAhead(size, rest, width, t, [w], other[1..]);
      } else {
        assert h + (line + [w]) + rest == h + line + words;
        GreedyStaysAhead(size, rest, width, h, line + [w], other);
      }
    }
  }

  /** No legal breaking of a non-empty word list has fewer lines than the greedy one. */
  lemma {:induction false} GreedyIsOptimal(size: Size, words: seq<string>, width: int, other: seq<Line>)
    requires words != [] && Flat(other) == words
    requires forall i :: 0 <= i < |other| ==> Legal(size, other[i], width)
    ensures |Fill(size, words, width, [])| <= |other|
  {
    assert [] + [words[0]] == [words[0]];
    assert [] + [words[0]] + words[1..] == words;
    GreedyStaysAhead(size, words[1..], width, [], [words[0]], other);
  }

  // ----- the text -------------------------------------------------------------------------------

  function Texts(lines: seq<Line>): (t: seq<string>)
    ensures |t| == |lines|
  {
    if lines == [] then [] else Texts(lines[..|lines| - 1]) + [Join(lines[|lines| - 1], ' ')]
  }

  function WrapText(s: string, width: int): string {
    Join(Texts(Fill(Bytes(), Fields(s), width, [])), '\n')
  }

  lemma {:induction false} FlatLast(lines: seq<Line>)
    requires lines != []
    ensures Flat(lines) == Flat(lines[..|lines| - 1]) + lines[|lines| - 1]
  {
    if |lines| > 1 {
      FlatLast(lines[1..]);
      assert lines[1..][..|lines| - 2] == lines[..|lines| - 1][1..];
    } else {
      assert Flat(lines[1..]) == [] && Flat(lines[..0]) == [];
    }
  }

  lemma JoinLast(front: seq<Line>, last: Line)
    ensures Join(Texts(front + [last]), '\n') ==
            if front == [] then Join(last, ' ') else Join(Texts(front), '\n') + ['\n'] + Join(last, ' ')
  {
    assert (front + [last])[..|front|] == front;
    assert Texts(front + [last]) == Texts(front) + [Join(last, ' ')];
    assert (Texts(front) + [Join(last, ' ')])[..|front|] == Texts(front);
  }

  lemma FieldsBehind(text: string, front: seq<string>, last: Line)
    requires Fields(text) == front && forall i :: 0 <= i < |last| ==> IsWord(last[i])
    ensures Fields(text + ['\n'] + Join(last, ' ')) == front + last
  {
    FieldsOfLine(last, ' ');
    FieldsSplit(text, '\n', Join(last, ' '));
  }

  predicate AllWords(words: seq<string>) {
    forall i :: 0 <= i < |words| ==> IsWord(words[i])
  }

  lemma WordsInFront(a: seq<string>, b: seq<string>)
    requires AllWords(a + b)
    ensures AllWords(a) && AllWords(b)
  {
    assert forall i :: 0 <= i < |a| ==> a[i] == (a + b)[i];
    assert forall i :: 0 <= i < |b| ==> b[i] == (a + b)[|a| + i];
  }

  lemma {:induction false} FieldsOfText(lines: seq<Line>)
    requires AllWords(Flat(lines))
    ensures Fields(Join(Texts(lines), '\n')) == Flat(lines)
  {
    if lines != [] {
      var front, last := lines[..|lines| - 1], lines[|lines| - 1];
      FlatLast(lines);
      WordsInFront(Flat(front), last);
      JoinLast(front, last);
      assert lines == front + [last];
      if front == [] {
        FieldsOfLine(last, ' ');
      } else {
        FieldsOfText(front);
        FieldsBehind(Join(Texts(front), '\n'), Flat(front), last);
      }
    }
  }

  /** Wrapping changes only white space. */
  lemma WrapKeepsWords(s: string, width: int)
    ensures Fields(WrapText(s, width)) == Fields(s)
  {
    FillKeepsWords(Bytes(), Fields(s), width, []);
    FieldsOfText(Fill(Bytes(), Fields(s), width, []));
  }

  lemma WrapIsIdempotent(s: string, width: int)
    ensures WrapText(WrapText(s, width), width) == WrapText(s, width)
  {
    WrapKeepsWords(s, width);
  }

  // ----- the loop of the source --------------------------------------------------------------------

  /** Text of finished lines, each followed by a line feed, and of the line being filled. */
  function Pending(done: seq<Line>): string {
    if done == [] then "" else Pending(done[..|done| - 1]) + Join(done[|done| - 1], ' ') + "\n"
  }

  lemma {:induction false} PendingPlusLine(done: seq<Line>, line: Line)
    ensures Pending(done) + Join(line, ' ') == Join(Texts(done + [line]), '\n')
  {
    assert (done + [line])[..|done|] == done;
    if done != [] {
      var front, last := done[..|done| - 1], done[|done| - 1];
      PendingPlusLine(front, last);
      assert front + [last] == done;
      assert Texts(done + [line])[..|done|] == Texts(done);
      assert "\n" == ['\n'];
    }
  }

  lemma FillUnfolds(done: seq<Line>, words: seq<string>, i: nat, width: int, line: Line)
    requires i < |words|
    ensures done + Fill(Bytes(), words[i..], width, line) ==
            if line != [] && LineLen(Bytes(), line) + 1 + ByteLen(words[i]) > width
            then (done + [line]) + Fill(Bytes(), words[i + 1..], width, [words[i]])
            else done + Fill(Bytes(), words[i + 1..], width, line + [words[i]])
  {
    assert words[i..][0] == words[i] && words[i..][1..] == words[i + 1..];
  }

  lemma JoinOneMore(line: Line, w: string)
    ensures Join(line + [w], ' ') == if line == [] then w else Join(line, ' ') + [' '] + w
  {
    assert (line + [w])[..|line|] == line;
  }

  /** The builder holds the finished lines, `line` the one being filled. */
  ghost predicate Built(out: string, line: string, done: seq<Line>, current: Line) {
    out == Pending(done) && line == Join(current, ' ') && (current == [] <==> line == "")
  }

  lemma LineBuilt(out: string, line: string, done: seq<Line>, current: Line)
    requires Built(out, line, done, current)
    ensures Built(out + line + "\n", "", done + [current], [])
  {
    assert (done + [current])[..|done|] == done;
  }

  /** Puts a word behind the line being filled. */
  method Append(out: string, line: string, w: string, ghost done: seq<Line>, ghost current: Line)
    returns (line': string)
    requires Built(out, line, done, current) && w != ""
    ensures Built(out, line', done, current + [w])
  {
    JoinOneMore(current, w);
    line' := line;
    if line' != "" {
      line' := line' + [' '];
    }
    line' := line' + w;
  }

  method ComputeWrap(s: string, width: int) returns (text: string)
    ensures text == WrapText(s, width)
  {
    var words := Fields(s);
    var out, line := "", "";
    ghost var done: seq<Line>, current: Line := [], [];
    for i := 0 to |words|
      invariant Built(out, line, done, current)
      invariant done + Fill(Bytes(), words[i..], width, current) == Fill(Bytes(), words, width, [])
    {
      var w := words[i];
      FillUnfolds(done, words, i, width, current);
      LineLenIsJoined(current);
      ByteLenAtLeast(line);
      if ByteLen(line) > 0 && ByteLen(line) + 1 + ByteLen(w) > width {
        LineBuilt(out, line, done, current);
        out := out + line + "\n";
        line := "";
        done, current := done + [current], [];
        assert [] + [w] == [w];
      }
      line := Append(out, line, w, done, current);
      current := current + [w];
    }
    text := out + line;
    PendingPlusLine(done, current);
  }

  /** Every line of the result fits the width in bytes or is one word. */
  lemma WrapFits(s: string, width: int)
    ensures var lines := Fill(Bytes(), Fields(s), width, []);
            && Flat(lines) == Fields(s)
            && forall i :: 0 <= i < |lines| ==>
                 (ByteLen(Texts(lines)[i]) <= width || |lines[i]| <= 1) && Texts(lines)[i] == Join(lines[i], ' ')
  {
    var lines := Fill(Bytes(), Fields(s), width, []);
    FillKeepsWords(Bytes(), Fields(s), width, []);
    forall i | 0 <= i < |lines|
      ensures (ByteLen(Texts(lines)[i]) <= width || |lines[i]| <= 1) && Texts(lines)[i] == Join(lines[i], ' ')
    {
      TextsAt(lines, i);
      LineLenIsJoined(lines[i]);
    }
  }

  lemma {:induction false} TextsAt(lines: seq<Line>, i: nat)
    requires i < |lines|
    ensures Texts(lines)[i] == Join(lines[i], ' ')
  {
    if i < |lines| - 1 {
      TextsAt(lines[..|lines| - 1], i);
    }
  }

  // ----- bytes and columns --------------------------------------------------------------------------

  /** Every line after the first begins with a word that would not fit behind the line
      before it. */
  predicate BreaksFull(size: Size, lines: seq<Line>, width: int) {
    forall i :: 0 < i < |lines| ==>
      lines[i] != [] && LineLen(size, lines[i - 1]) + 1 + size(lines[i][0]) > width
  }

  lemma BreaksFirst(size: Size, line: Line, lines: seq<Line>, width: int)
    requires lines != [] && lines[0] != []
    ensures BreaksFull(size, [line] + lines, width) <==>
              BreaksFull(size, lines, width) && LineLen(size, line) + 1 + size(lines[0][0]) > width
  {
    var all := [line] + lines;
    assert all[0] == line && all[1] == lines[0];
    if BreaksFull(size, all, width) {
      forall i | 0 < i < |lines|
        ensures lines[i] != [] && LineLen(size, lines[i - 1]) + 1 + size(lines[i][0]) > width
      {
        assert all[i + 1] == lines[i] && all[i] == lines[i - 1];
      }
    }
  }

  lemma {:induction false} FillStarts(size: Size, words: seq<string>, width: int, line: Line)
    requires line != []
    ensures var first := Fill(size, words, width, line)[0]; first != [] && first[0] == line[0]
    decreases |words|
  {
    if words != [] {
      FillStarts(size, words[1..], width, line + [words[0]]);
    }
  }

  /** Greedy filling breaks full lines only. */
  lemma {:induction false} FillBreaksFull(size: Size, words: seq<string>, width: int, line: Line)
    requires line != []
    ensures BreaksFull(size, Fill(size, words, width, line), width)
    decreases |words|
  {
    if words != [] {
      var w, rest := words[0], words[1..];
      if LineLen(size, line) + 1 + size(w) > width {
        FillBreaksFull(size, rest, width, [w]);
        FillStarts(size, rest, width, [w]);
        BreaksFirst(size, line, Fill(size, rest, width, [w]), width);
      } else {
        FillBreaksFull(size, rest, width, line + [w]);
      }
    }
  }

  lemma {:induction false} CharsShorter(line: Line)
    ensures LineLen(Chars(), line) <= LineLen(Bytes(), line)
  {
    if line != [] {
      ByteLenAtLeast(line[|line| - 1]);
      CharsShorter(line[..|line| - 1]);
    }
  }

  /** The code's filling that breaks full lines only is the filling by columns. */
  lemma {:induction false} FullIsGreedy(words: seq<string>, width: int, line: Line)
    requires line != [] && BreaksFull(Chars(), Fill(Bytes(), words, width, line), width)
    ensures Fill(Chars(), words, width, line) == Fill(Bytes(), words, width, line)
    decreases |words|
  {
    if words != [] {
      var w, rest := words[0], words[1..];
      if LineLen(Bytes(), line) + 1 + Bytes()(w) > width {
        FillStarts(Bytes(), rest, width, [w]);
        BreaksFirst(Chars(), line, Fill(Bytes(), rest, width, [w]), width);
        FullIsGreedy(rest, width, [w]);
      } else {
        CharsShorter(line);
        ByteLenAtLeast(w);
        FullIsGreedy(rest, width, line + [w]);
      }
    }
  }

  lemma FillFromFirst(size: Size, words: seq<string>, width: int)
    requires words != []
    ensures Fill(size, words, width, []) == Fill(size, words[1..], width, [words[0]])
  {
    assert [] + [words[0]] == [words[0]];
  }

  /** The code, which counts bytes, breaks the lines where counting columns would break
      them if and only if each of its lines is full in columns, too. */
  lemma FillingExactly(words: seq<string>, width: int)
    ensures Fill(Bytes(), words, width, []) == Fill(Chars(), words, width, []) <==>
              BreaksFull(Chars(), Fill(Bytes(), words, width, []), width)
  {
    if words != [] {
      FillFromFirst(Bytes(), words, width);
      FillFromFirst(Chars(), words, width);
      FillBreaksFull(Chars(), words[1..], width, [words[0]]);
      if BreaksFull(Chars(), Fill(Bytes(), words, width, []), width) {
        FullIsGreedy(words[1..], width, [words[0]]);
      }
    }
  }

  predicate Ascii(w: string) {
    forall i :: 0 <= i < |w| ==> w[i] as int < 0x80
  }

  lemma {:induction false} AsciiLength(line: Line)
    requires forall i :: 0 <= i < |line| ==> Ascii(line[i])
    ensures LineLen(Chars(), line) == LineLen(Bytes(), line)
  {
    if line != [] {
      AsciiBytes(line[|line| - 1]);
      AsciiLength(line[..|line| - 1]);
    }
  }

  /** ASCII words are counted alike. */
  lemma {:induction false} AsciiIsFull(words: seq<string>, width: int, line: Line)
    requires forall i :: 0 <= i < |words| ==> Ascii(words[i])
    requires forall i :: 0 <= i < |line| ==> Ascii(line[i])
    ensures Fill(Bytes(), words, width, line) == Fill(Chars(), words, width, line)
    decreases |words|
  {
    if words != [] {
      var w, rest := words[0], words[1..];
      AsciiLength(line);
      AsciiBytes(w);
      if line != [] && LineLen(Bytes(), line) + 1 + Bytes()(w) > width {
        AsciiIsFull(rest, width, [w]);
      } else {
        AsciiIsFull(rest, width, line + [w]);
      }
    }
  }

  lemma TwoBytes(v: string)
    requires |v| == 1 && 0x80 <= v[0] as int < 0x800
    ensures ByteLen(v) == 2 && LineLen(Bytes(), [v]) == 2
  {
    assert v[..0] == [] && [v][..0] == [];
  }
}
