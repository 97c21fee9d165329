/** The wrapped text itself, line feed by line feed. */
module WrapLaws {
  import opened Text
  import opened Trim
  import opened Wrap

  // ----- the lines of the text -----------------------------------------------------------------

  lemma {:induction false} JoinedHasNone(words: seq<string>, c: char)
    requires AllWords(words) && IsSpace(c) && c != ' '
    ensures c !in Join(words, ' ')
  {
    if |words| == 1 {
      assert IsWord(words[0]);
    } else if |words| > 1 {
      JoinedHasNone(words[..|words| - 1], c);
      assert IsWord(words[|words| - 1]);
    }
  }

  lemma {:induction false} InFlat(lines: seq<Line>, i: nat)
    requires i < |lines| && AllWords(Flat(lines))
    ensures AllWords(lines[i])
  {
    WordsInFront(lines[0], Flat(lines[1..]));
    if i > 0 {
      InFlat(lines[1..], i - 1);
    }
  }

  /** Splitting the text gives the lines that were filled. */
  lemma SplitsIntoLines(s: string, width: int)
    ensures Split(WrapText(s, width), '\n') == Texts(Fill(Bytes(), Fields(s), width, []))
  {
    var lines := Fill(Bytes(), Fields(s), width, []);
    FillKeepsWords(Bytes(), Fields(s), width, []);
    assert [] + Fields(s) == Fields(s);
    forall i | 0 <= i < |lines| ensures '\n' !in Texts(lines)[i] {
      InFlat(lines, i);
      TextsAt(lines, i);
      JoinedHasNone(lines[i], '\n');
    }
    SplitJoin(Texts(lines), '\n');
  }

  /** The lines of the text are, one by one, the words of a legal breaking with single spaces
      between them; each fits the width in bytes or is one word. */
  lemma LinesFit(s: string, width: int, i: nat)
    requires i < |Split(WrapText(s, width), '\n')|
    ensures var line := Split(WrapText(s, width), '\n')[i];
            && line == Join(Fields(line), ' ')
            && (ByteLen(line) <= width || |Fields(line)| <= 1)
            && (|line| <= width || |Fields(line)| <= 1)
  {
    var lines := Fill(Bytes(), Fields(s), width, []);
    SplitsIntoLines(s, width);
    WrapFits(s, width);
    InFlat(lines, i);
    FieldsOfLine(lines[i], ' ');
    ByteLenAtLeast(Texts(lines)[i]);
  }

  // ----- no text has fewer lines -----------------------------------------------------------------

  /** The words of each line. */
  function WordsOf(lines: seq<string>): (ws: seq<Line>)
    ensures |ws| == |lines| && forall i :: 0 <= i < |ws| ==> ws[i] == Fields(lines[i])
  {
    seq(|lines|, i requires 0 <= i < |lines| => Fields(lines[i]))
  }

  lemma {:induction false} FlatConcat(a: seq<Line>, b: seq<Line>)
    ensures Flat(a + b) == Flat(a) + Flat(b)
  {
    if a == [] {
      assert a + b == b;
    } else {
      assert (a + b)[1..] == a[1..] + b;
      FlatConcat(a[1..], b);
    }
  }

  lemma FlatOne(line: Line)
    ensures Flat([line]) == line
  {
    FlatFirst(line, []);
    assert [line] + [] == [line];
  }

  lemma CutAt(t: string, k: nat)
    requires k < |t|
    ensures t == t[..k] + [t[k]] + t[k + 1..]
  {
  }

  lemma WordsOfTwo(t: string, a: string, b: string)
    requires t == a + ['\n'] + b
    requires Flat(WordsOf(Split(a, '\n'))) == Fields(a) && Flat(WordsOf(Split(b, '\n'))) == Fields(b)
    ensures Flat(WordsOf(Split(t, '\n'))) == Fields(t)
  {
    SplitConcat(a, b, '\n');
    FieldsSplit(a, '\n', b);
    WordsConcat(Split(a, '\n'), Split(b, '\n'));
    FlatConcat(WordsOf(Split(a, '\n')), WordsOf(Split(b, '\n')));
  }

  lemma WordsConcat(a: seq<string>, b: seq<string>)
    ensures WordsOf(a + b) == WordsOf(a) + WordsOf(b)
  {
  }

  lemma WordsOfOne(t: string)
    requires '\n' !in t
    ensures Flat(WordsOf(Split(t, '\n'))) == Fields(t)
  {
    SplitClean(t, '\n');
    FlatOne(Fields(t));
    assert WordsOf([t]) == [Fields(t)];
  }

  /** Splitting a text at line feeds loses no word. */
  lemma {:induction false} WordsOfLines(t: string)
    ensures Flat(WordsOf(Split(t, '\n'))) == Fields(t)
    decreases |t|
  {
    if '\n' !in t {
      WordsOfOne(t);
    } else {
      var k :| 0 <= k < |t| && t[k] == '\n';
      var a, b := t[..k], t[k + 1..];
      WordsOfLines(a);
      WordsOfLines(b);
      CutAt(t, k);
      WordsOfTwo(t, a, b);
    }
  }

  /** A string is at least as long as its words with single spaces between them, whether bytes
      or characters are counted. */
  ghost predicate Additive(size: Size) {
    size("") == 0 && (forall a, b :: size(a + b) == size(a) + size(b)) && forall c: char :: size([c]) >= 1
  }

  lemma {:induction false} WordsShorter(size: Size, t: string)
    requires Additive(size)
    ensures LineLen(size, Fields(t)) <= size(t)
    decreases |t|
  {
    if t != "" {
      if IsSpace(t[0]) {
        WordsShorter(size, t[1..]);
        assert t == [t[0]] + t[1..];
      } else {
        var k := WordEnd(t);
        if k == |t| {
          FieldsOfWord(t);
        } else {
          WordsShorter(size, t[k + 1..]);
          CutAt(t, k);
          WordThenRest(size, t, t[..k], t[k], t[k + 1..]);
        }
      }
    }
  }

  lemma WordThenRest(size: Size, t: string, w: string, c: char, rest: string)
    requires Additive(size) && t == w + [c] + rest && IsWord(w) && IsSpace(c)
    requires LineLen(size, Fields(rest)) <= size(rest)
    ensures LineLen(size, Fields(t)) <= size(t)
  {
    FieldsSplit(w, c, rest);
    FieldsOfWord(w);
    WordInFront(size, w, Fields(rest));
  }

  lemma {:induction false} WordInFront(size: Size, w: string, line: Line)
    ensures LineLen(size, [w] + line) == size(w) + if line == [] then 0 else 1 + LineLen(size, line)
  {
    if line == [] {
      assert [w] + line == [w];
    } else {
      assert ([w] + line)[..|line|] == [w] + line[..|line| - 1];
      WordInFront(size, w, line[..|line| - 1]);
    }
  }

  lemma BytesAdd()
    ensures Additive(Bytes())
  {
    forall a, b ensures Bytes()(a + b) == Bytes()(a) + Bytes()(b) {
      ByteLenConcat(a, b);
    }
    forall c: char ensures Bytes()([c]) >= 1 {
      ByteLenAtLeast([c]);
    }
  }

  lemma CharsAdd()
    ensures Additive(Chars())
  {
  }

  /** A text whose lines fit, or are one word, is a legal breaking of its words. */
  lemma LegalText(size: Size, t: string, width: int)
    requires Additive(size)
    requires forall i :: 0 <= i < |Split(t, '\n')| ==>
               size(Split(t, '\n')[i]) <= width || |Fields(Split(t, '\n')[i])| <= 1
    ensures AllLegal(size, WordsOf(Split(t, '\n')), width)
  {
    var lines := Split(t, '\n');
    forall i | 0 <= i < |lines| ensures Legal(size, WordsOf(lines)[i], width) {
      WordsShorter(size, lines[i]);
    }
  }

  lemma NoWordsOneLine(s: string, width: int)
    requires Fields(s) == []
    ensures |Split(WrapText(s, width), '\n')| == 1
  {
    SplitsIntoLines(s, width);
  }

  /** No text with the same words whose lines all fit in bytes, or are one word, has fewer
      lines than the wrapped one. */
  lemma FewestLines(s: string, width: int, t: string)
    requires Fields(t) == Fields(s)
    requires forall i :: 0 <= i < |Split(t, '\n')| ==>
               ByteLen(Split(t, '\n')[i]) <= width || |Fields(Split(t, '\n')[i])| <= 1
    ensures |Split(WrapText(s, width), '\n')| <= |Split(t, '\n')|
  {
    if Fields(s) == [] {
      NoWordsOneLine(s, width);
    } else {
      BytesAdd();
      LegalText(Bytes(), t, width);
      WordsOfLines(t);
      SplitsIntoLines(s, width);
      GreedyIsOptimal(Bytes(), Fields(s), width, WordsOf(Split(t, '\n')));
    }
  }

  // ----- columns ---------------------------------------------------------------------------------

  /** Every line after the first begins with a word that would not fit, in characters, behind
      the line before it. */
  ghost predicate LinesFull(lines: seq<string>, width: int) {
    forall i :: 0 < i < |lines| ==>
      Fields(lines[i]) != [] && |lines[i - 1]| + 1 + |Fields(lines[i])[0]| > width
  }

  lemma FullLines(lines: seq<Line>, width: int)
    requires AllWords(Flat(lines))
    ensures LinesFull(Texts(lines), width) <==> BreaksFull(Chars(), lines, width)
  {
    forall i | 0 <= i < |lines|
      ensures Fields(Texts(lines)[i]) == lines[i] && |Texts(lines)[i]| == LineLen(Chars(), lines[i])
    {
      InFlat(lines, i);
      TextsAt(lines, i);
      FieldsOfLine(lines[i], ' ');
      CharsAreJoined(lines[i]);
    }
  }

  /** The text wrapped by counting characters. */
  function ColumnText(s: string, width: int): string {
    Join(Texts(Fill(Chars(), Fields(s), width, [])), '\n')
  }

  lemma {:induction false} TextsDiffer(a: seq<Line>, b: seq<Line>)
    requires AllWords(Flat(a)) && AllWords(Flat(b)) && Texts(a) == Texts(b)
    ensures a == b
  {
    forall i | 0 <= i < |a| ensures a[i] == b[i] {
      InFlat(a, i);
      InFlat(b, i);
      TextsAt(a, i);
      TextsAt(b, i);
      FieldsOfLine(a[i], ' ');
      FieldsOfLine(b[i], ' ');
    }
  }

  lemma ColumnLines(s: string, width: int)
    ensures Split(ColumnText(s, width), '\n') == Texts(Fill(Chars(), Fields(s), width, []))
  {
    var lines := Fill(Chars(), Fields(s), width, []);
    FillKeepsWords(Chars(), Fields(s), width, []);
    assert [] + Fields(s) == Fields(s);
    forall i | 0 <= i < |lines| ensures '\n' !in Texts(lines)[i] {
      InFlat(lines, i);
      TextsAt(lines, i);
      JoinedHasNone(lines[i], '\n');
    }
    SplitJoin(Texts(lines), '\n');
  }

  lemma SameFilling(s: string, width: int)
    ensures WrapText(s, width) == ColumnText(s, width) <==>
              Fill(Bytes(), Fields(s), width, []) == Fill(Chars(), Fields(s), width, [])
  {
    if WrapText(s, width) == ColumnText(s, width) {
      SplitsIntoLines(s, width);
      ColumnLines(s, width);
      FillKeepsWords(Bytes(), Fields(s), width, []);
      FillKeepsWords(Chars(), Fields(s), width, []);
      assert [] + Fields(s) == Fields(s);
      TextsDiffer(Fill(Bytes(), Fields(s), width, []), Fill(Chars(), Fields(s), width, []));
    }
  }

  /** Counting bytes gives the text that counting characters would give if and only if each
      of its lines is full in characters, too. */
  lemma ColumnsExactly(s: string, width: int)
    ensures WrapText(s, width) == ColumnText(s, width) <==> LinesFull(Split(WrapText(s, width), '\n'), width)
  {
    var lines := Fill(Bytes(), Fields(s), width, []);
    SameFilling(s, width);
    FillingExactly(Fields(s), width);
    FillKeepsWords(Bytes(), Fields(s), width, []);
    assert [] + Fields(s) == Fields(s);
    FullLines(lines, width);
    SplitsIntoLines(s, width);
  }

  /** Then no text with the same words whose lines fit the columns has fewer lines. */
  lemma FewestColumns(s: string, width: int, t: string)
    requires Fields(t) == Fields(s) && LinesFull(Split(WrapText(s, width), '\n'), width)
    requires forall i :: 0 <= i < |Split(t, '\n')| ==>
               |Split(t, '\n')[i]| <= width || |Fields(Split(t, '\n')[i])| <= 1
    ensures |Split(WrapText(s, width), '\n')| <= |Split(t, '\n')|
  {
    if Fields(s) == [] {
      NoWordsOneLine(s, width);
    } else {
      CharsAdd();
      LegalText(Chars(), t, width);
      WordsOfLines(t);
      ColumnsExactly(s, width);
      ColumnLines(s, width);
      GreedyIsOptimal(Chars(), Fields(s), width, WordsOf(Split(t, '\n')));
    }
  }

  /** ASCII words are as long in characters as in bytes: the text is the one that counting
      characters gives, and no text with the same words that fits the columns has fewer lines. */
  lemma AsciiIsOptimal(s: string, width: int, t: string)
    requires forall i :: 0 <= i < |Fields(s)| ==> Ascii(Fields(s)[i])
    ensures WrapText(s, width) == ColumnText(s, width)
    ensures && Fields(t) == Fields(s)
            && (forall i :: 0 <= i < |Split(t, '\n')| ==>
                  |Split(t, '\n')[i]| <= width || |Fields(Split(t, '\n')[i])| <= 1)
            ==> |Split(WrapText(s, width), '\n')| <= |Split(t, '\n')|
  {
    AsciiIsFull(Fields(s), width, []);
    if && Fields(t) == Fields(s)
       && (forall i :: 0 <= i < |Split(t, '\n')| ==>
             |Split(t, '\n')[i]| <= width || |Fields(Split(t, '\n')[i])| <= 1) {
      ColumnsExactly(s, width);
      FewestColumns(s, width, t);
    }
  }

  lemma TwoLetters(v: string, w: string)
    requires |v| == |w| == 1 && 0x80 <= v[0] as int < 0x800 && 0x80 <= w[0] as int < 0x800
    ensures Fill(Bytes(), [v, w], 3, []) == [[v], [w]]
  {
    TwoBytes(v);
    TwoBytes(w);
    assert [] + [v] == [v] && [v, w][1..] == [w];
    assert Fill(Bytes(), [v, w], 3, []) == Fill(Bytes(), [w], 3, [v]) == [[v]] + Fill(Bytes(), [], 3, [w]);
  }

  /** Otherwise a line may be broken although it fits the columns: two letters of two bytes
      each and a space are three characters, but five bytes. */
  lemma ColumnsLost(v: string, w: string, s: string)
    requires |v| == |w| == 1 && 0x80 <= v[0] as int < 0x800 && 0x80 <= w[0] as int < 0x800
    requires IsWord(v) && IsWord(w) && s == v + [' '] + w
    ensures |s| == 3 && WrapText(s, 3) == v + ['\n'] + w
  {
    FieldsSplit(v, ' ', w);
    FieldsOfWord(v);
    FieldsOfWord(w);
    assert [v] + [w] == [v, w];
    TwoLetters(v, w);
    JoinLast([], [v]);
    JoinLast([[v]], [w]);
    assert [] + [[v]] == [[v]] && [[v]] + [[w]] == [[v], [w]];
    assert Join([v], ' ') == v && Join([w], ' ') == w;
  }
}
