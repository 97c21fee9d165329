/** The parts of Go's strings and unicode packages the text code relies on.  A string
    is a sequence of Unicode characters standing for their UTF-8 encoding. */
module Text {

  /** Bytes of the UTF-8 encoding. */
  function RuneLen(c: char): nat {
    var n := c as int;
    if n < 0x80 then 1 else if n < 0x800 then 2 else if n < 0x10000 then 3 else 4
  }

  /** len(s) in Go. */
  function ByteLen(s: string): nat {
    if s == [] then 0 else ByteLen(s[..|s| - 1]) + RuneLen(s[|s| - 1])
  }

  lemma {:induction false} ByteLenConcat(a: string, b: string)
    ensures ByteLen(a + b) == ByteLen(a) + ByteLen(b)
  {
    if b == [] {
      assert a + b == a;
    } else {
      assert (a + b)[..|a + b| - 1] == a + b[..|b| - 1];
      ByteLenConcat(a, b[..|b| - 1]);
    }
  }

  lemma {:induction false} ByteLenAtLeast(s: string)
    ensures ByteLen(s) >= |s|
  {
    if s != [] {
      ByteLenAtLeast(s[..|s| - 1]);
    }
  }

  /** On ASCII text bytes are characters. */
  lemma {:induction false} AsciiBytes(s: string)
    requires forall i :: 0 <= i < |s| ==> s[i] as int < 0x80
    ensures ByteLen(s) == |s|
  {
    if s != [] {
      AsciiBytes(s[..|s| - 1]);
    }
  }

  /** unicode.IsSpace */
  predicate IsSpace(c: char) {
    var n := c as int;
    || 0x09 <= n <= 0x0d || n == 0x20 || n == 0x85 || n == 0xa0 || n == 0x1680 || 0x2000 <= n <= 0x200a
    || n == 0x2028 || n == 0x2029 || n == 0x202f || n == 0x205f || n == 0x3000
  }

  /** A non-empty string without white space. */
  predicate IsWord(w: string) {
    w != [] && forall i :: 0 <= i < |w| ==> !IsSpace(w[i])
  }

  /** Length of the longest prefix without white space. */
  function WordEnd(s: string): (k: nat)
    ensures k <= |s| && (forall i :: 0 <= i < k ==> !IsSpace(s[i])) && (k < |s| ==> IsSpace(s[k]))
  {
    if s == [] || IsSpace(s[0]) then 0 else 1 + WordEnd(s[1..])
  }

  /** strings.Fields */
  function Fields(s: string): (words: seq<string>)
    ensures forall i :: 0 <= i < |words| ==> IsWord(words[i])
    decreases |s|
  {
    if s == [] then []
    else if IsSpace(s[0]) then Fields(s[1..])
    else [s[..WordEnd(s)]] + Fields(s[WordEnd(s)..])
  }

  lemma WordEndIs(s: string, k: nat)
    requires k <= |s| && (forall i :: 0 <= i < k ==> !IsSpace(s[i])) && (k < |s| ==> IsSpace(s[k]))
    ensures WordEnd(s) == k
  {
  }

  /** A white-space character separates whatever stands on its two sides. */
  lemma {:induction false} FieldsSplit(a: string, c: char, b: string)
    requires IsSpace(c)
    ensures Fields(a + [c] + b) == Fields(a) + Fields(b)
    decreases |a|
  {
    var s := a + [c] + b;
    if a == [] {
      assert s[1..] == b;
    } else if IsSpace(a[0]) {
      assert s[1..] == a[1..] + [c] + b;
      FieldsSplit(a[1..], c, b);
    } else {
      var k := WordEnd(a);
      WordEndIs(s, k);
      assert s[..k] == a[..k];
      assert s[k..] == a[k..] + [c] + b;
      FieldsSplit(a[k..], c, b);
    }
  }

  lemma FieldsOfWord(w: string)
    requires IsWord(w)
    ensures Fields(w) == [w]
  {
    WordEndIs(w, |w|);
    assert w[..|w|] == w && w[|w|..] == [];
  }

  /** strings.Join with a one-character separator. */
  function Join(parts: seq<string>, sep: char): string {
    if parts == [] then ""
    else if |parts| == 1 then parts[0]
    else Join(parts[..|parts| - 1], sep) + [sep] + parts[|parts| - 1]
  }

  lemma {:induction false} FieldsOfLine(words: seq<string>, sep: char)
    requires IsSpace(sep) && forall i :: 0 <= i < |words| ==> IsWord(words[i])
    ensures Fields(Join(words, sep)) == words
  {
    if |words| == 1 {
      FieldsOfWord(words[0]);
    } else if |words| > 1 {
      var front, w := words[..|words| - 1], words[|words| - 1];
      FieldsOfLine(front, sep);
      FieldsSplit(Join(front, sep), sep, w);
      FieldsOfWord(w);
    }
  }
}

/** Splitting and trimming. */
module Trim {
  import opened Text

  /** strings.Split with a one-character separator. */
  function Split(s: string, sep: char): (parts: seq<string>)
    ensures |parts| > 0
    ensures forall i :: 0 <= i < |parts| ==> sep !in parts[i]
  {
    if s == [] then [""] else
      var p, c := Split(s[..|s| - 1], sep), s[|s| - 1];
      if c == sep then p + [""] else p[|p| - 1 := p[|p| - 1] + [c]]
  }

  lemma {:induction false} SplitClean(s: string, sep: char)
    requires sep !in s
    ensures Split(s, sep) == [s]
  {
    if s != [] {
      assert s[|s| - 1] in s && forall c :: c in s[..|s| - 1] ==> c in s;
      SplitClean(s[..|s| - 1], sep);
      assert s[..|s| - 1] + [s[|s| - 1]] == s;
    }
  }

  /** A separator splits what stands on its two sides. */
  lemma {:induction false} SplitConcat(a: string, b: string, sep: char)
    ensures Split(a + [sep] + b, sep) == Split(a, sep) + Split(b, sep)
  {
    var s := a + [sep] + b;
    if b == [] {
      assert s[..|s| - 1] == a;
    } else {
      var front := b[..|b| - 1];
      assert s[..|s| - 1] == a + [sep] + front;
      SplitConcat(a, front, sep);
    }
  }

  lemma SplitAppend(a: string, b: string, sep: char)
    requires sep !in b
    ensures Split(a + [sep] + b, sep) == Split(a, sep) + [b]
  {
    SplitConcat(a, b, sep);
    SplitClean(b, sep);
  }

  /** The first part begins with whatever stands in front of every separator. */
  lemma {:induction false} SplitStart(a: string, b: string, sep: char)
    requires sep !in a
    ensures a <= Split(a + b, sep)[0]
  {
    if b == [] {
      assert a + b == a;
      SplitClean(a, sep);
    } else {
      assert (a + b)[..|a + b| - 1] == a + b[..|b| - 1];
      SplitStart(a, b[..|b| - 1], sep);
    }
  }

  /** Splitting undoes joining when no part holds the separator. */
  lemma {:induction false} SplitJoin(parts: seq<string>, sep: char)
    requires parts != [] && forall i :: 0 <= i < |parts| ==> sep !in parts[i]
    ensures Split(Join(parts, sep), sep) == parts
  {
    if |parts| == 1 {
      SplitClean(parts[0], sep);
    } else {
      var front, last := parts[..|parts| - 1], parts[|parts| - 1];
      SplitJoin(front, sep);
      SplitAppend(Join(front, sep), last, sep);
      assert front + [last] == parts;
    }
  }

  function TrimLeft(s: string, cut: char -> bool): (t: string)
    ensures |t| <= |s| && t == s[|s| - |t|..]
    ensures t != [] ==> !cut(t[0])
  {
    if s != [] && cut(s[0]) then TrimLeft(s[1..], cut) else s
  }

  function TrimRight(s: string, cut: char -> bool): (t: string)
    ensures t <= s
    ensures t != [] ==> !cut(t[|t| - 1])
    ensures s != [] && !cut(s[0]) ==> t != []
  {
    if s != [] && cut(s[|s| - 1]) then TrimRight(s[..|s| - 1], cut) else s
  }

  lemma {:induction false} TrimRightStops(a: string, b: string, cut: char -> bool)
    requires a != [] && !cut(a[|a| - 1])
    ensures a <= TrimRight(a + b, cut)
  {
    if b == [] {
      assert a + b == a;
    } else {
      assert (a + b)[..|a + b| - 1] == a + b[..|b| - 1];
      TrimRightStops(a, b[..|b| - 1], cut);
    }
  }

  lemma SuffixParts(s: string, l: string)
    requires |l| <= |s| && l == s[|s| - |l|..]
    ensures s == s[..|s| - |l|] + l
  {
  }

  lemma PrefixParts(l: string, t: string)
    requires t <= l
    ensures l == t + l[|t|..]
  {
  }

  /** Trimming only takes away at the two ends. */
  lemma TrimInside(s: string, t: string, cut: char -> bool) returns (a: string, b: string)
    requires t == TrimRight(TrimLeft(s, cut), cut)
    ensures s == a + (t + b)
  {
    var l := TrimLeft(s, cut);
    a, b := s[..|s| - |l|], l[|t|..];
    SuffixParts(s, l);
    PrefixParts(l, t);
  }

  function Space(): char -> bool {
    c => IsSpace(c)
  }

  /** strings.TrimSpace */
  function TrimSpace(s: string): string {
    TrimRight(TrimLeft(s, Space()), Space())
  }

  /** strings.Trim with the one-character cutset {c}. */
  function TrimChar(s: string, c: char): string {
    TrimRight(TrimLeft(s, Is(c)), Is(c))
  }

  function Is(c: char): char -> bool {
    x => x == c
  }

  lemma TrimCharKeeps(s: string, c: char)
    requires s == [] || (s[0] != c && s[|s| - 1] != c)
    ensures TrimChar(s, c) == s
  {
    TrimKeeps(s, Is(c));
  }

  lemma TrimCharShortens(s: string, c: char)
    requires s != [] && (s[0] == c || s[|s| - 1] == c)
    ensures |TrimChar(s, c)| < |s|
  {
  }

  lemma TrimLeftFirst(c: char, t: string, cut: char -> bool)
    requires cut(c)
    ensures TrimLeft([c] + t, cut) == TrimLeft(t, cut)
  {
    assert ([c] + t)[1..] == t;
  }

  lemma TrimRightLast(t: string, c: char, cut: char -> bool)
    requires cut(c)
    ensures TrimRight(t + [c], cut) == TrimRight(t, cut)
  {
    assert (t + [c])[..|t|] == t;
  }

  lemma TrimKeeps(s: string, cut: char -> bool)
    requires s != [] ==> !cut(s[0]) && !cut(s[|s| - 1])
    ensures TrimLeft(s, cut) == s && TrimRight(s, cut) == s
  {
  }

  lemma TrimOne(s: string, c: char)
    requires s != [] && s[0] != c && s[|s| - 1] != c
    ensures TrimChar([c] + s, c) == s
  {
    TrimKeeps(s, Is(c));
    TrimLeftFirst(c, s, Is(c));
  }

  lemma TrimLeftStops(s: string, t: string, cut: char -> bool)
    requires s != [] && !cut(s[0])
    ensures TrimLeft(s + t, cut) == s + t
  {
    assert (s + t)[0] == s[0];
  }

  lemma TrimBoth(s: string, c: char)
    requires s != [] && s[0] != c && s[|s| - 1] != c
    ensures TrimChar([c] + (s + [c]), c) == s
  {
    TrimKeeps(s, Is(c));
    TrimLeftFirst(c, s + [c], Is(c));
    TrimLeftStops(s, [c], Is(c));
    TrimRightLast(s, c, Is(c));
  }

  predicate Trimmed(s: string) {
    s != [] ==> !IsSpace(s[0]) && !IsSpace(s[|s| - 1])
  }

  lemma TrimSpaceTrims(s: string)
    ensures Trimmed(TrimSpace(s))
    ensures forall c :: c in TrimSpace(s) ==> c in s
  {
    var t := TrimLeft(s, Space());
    assert forall c :: c in t ==> c in s;
    assert TrimSpace(s) <= t;
  }

  lemma TrimSpaceKeeps(s: string)
    requires Trimmed(s)
    ensures TrimSpace(s) == s && TrimSpace([' '] + s) == s
  {
    TrimKeeps(s, Space());
    TrimLeftFirst(' ', s, Space());
  }

  lemma {:induction false} TrimLeftAll(s: string, cut: char -> bool)
    requires s != [] && !cut(s[|s| - 1])
    ensures TrimLeft(s, cut) != []
  {
    if cut(s[0]) {
      TrimLeftAll(s[1..], cut);
    }
  }

  /** A string that ends in a non-space does not trim to nothing. */
  lemma TrimSpaceNonEmpty(s: string)
    requires s != [] && !IsSpace(s[|s| - 1])
    ensures TrimSpace(s) != []
  {
    TrimLeftAll(s, Space());
  }
}
