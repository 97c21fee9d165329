/** Decimal printing of a 64-bit integer into a fixed buffer: itoa of srv/jobs/status.go. */
module Itoa {
  import opened Decimal

  const MIN64 := -0x8000_0000_0000_0000
  const MAX64 := 0x7fff_ffff_ffff_ffff

  /** Unary minus on 64 bits: the least integer is its own negation. */
  function Negate(i: int): int {
    if i == MIN64 then MIN64 else -i
  }

  function Digit(d: nat): char
    requires d < 10
  {
    ('0' as int + d) as char
  }

  /** The digits of n, none for zero. */
  function Digits(n: nat): string {
    if n == 0 then "" else Digits(n / 10) + [Digit(n % 10)]
  }

  /** The usual numeral. */
  function Numeral(n: int): string {
    if n == 0 then "0" else if n < 0 then ['-'] + Digits(-n) else Digits(n)
  }

  /** The value a numeral denotes. */
  function Read(s: string): int {
    if s != "" && s[0] == '-' then -ReadNat(s[1..]) else ReadNat(s)
  }

  lemma DigitRange(d: nat)
    requires d < 10
    ensures Digit(d) as int - '0' as int == d && (d > 0 ==> '1' <= Digit(d) <= '9')
  {
  }

  lemma {:induction false} DigitsRead(n: nat)
    ensures ReadNat(Digits(n)) == n
  {
    if n > 0 {
      DigitsRead(n / 10);
      DigitRange(n % 10);
      ReadLast(Digits(n / 10), Digit(n % 10));
    }
  }

  lemma {:induction false} FirstDigit(n: nat)
    requires n > 0
    ensures Digits(n) != "" && '1' <= Digits(n)[0] <= '9'
  {
    DigitRange(n % 10);
    if n >= 10 {
      FirstDigit(n / 10);
    }
  }

  lemma MinusReads(s: string)
    ensures Read(['-'] + s) == -ReadNat(s)
  {
    assert (['-'] + s)[1..] == s;
  }

  lemma PlainReads(s: string)
    requires s != "" && s[0] != '-'
    ensures Read(s) == ReadNat(s)
  {
  }

  lemma PositiveReadsBack(n: nat)
    requires n > 0
    ensures Read(Digits(n)) == n
  {
    DigitsRead(n);
    FirstDigit(n);
    PlainReads(Digits(n));
  }

  lemma NegativeReadsBack(n: nat)
    ensures Read(['-'] + Digits(n)) == 0 - n
  {
    DigitsRead(n);
    MinusReads(Digits(n));
  }

  lemma ZeroReadsBack()
    ensures Read("0") == 0
  {
    assert "0"[..0] == "";
    PlainReads("0");
  }

  lemma BelowZeroReadsBack(n: int, m: nat)
    requires n < 0 && m == -n
    ensures Read(Numeral(n)) == n
  {
    NegativeReadsBack(m);
    assert Numeral(n) == ['-'] + Digits(m);
  }

  /** Reading the numeral gives the number back. */
  lemma NumeralReadsBack(n: int)
    ensures Read(Numeral(n)) == n
  {
    if n < 0 {
      BelowZeroReadsBack(n, -n);
    } else if n > 0 {
      PositiveReadsBack(n);
    } else {
      ZeroReadsBack();
    }
  }

  /** Digit strings without a leading zero are exactly the numerals: no other such
      string denotes the same number. */
  lemma {:induction false} NumeralIsUnique(s: string)
    requires AllDigits(s) && (s != "" ==> s[0] != '0')
    ensures ReadNat(s) >= 0 && Digits(ReadNat(s)) == s
    ensures s != "" ==> ReadNat(s) > 0
  {
    if s != "" {
      var front, last := s[..|s| - 1], s[|s| - 1];
      NumeralIsUnique(front);
      var d := last as int - '0' as int;
      assert ReadNat(s) == 10 * ReadNat(front) + d;
      assert ReadNat(s) / 10 == ReadNat(front) && ReadNat(s) % 10 == d;
      assert Digit(d) == last;
      assert s == front + [last];
    }
  }

  lemma DigitsUnfold(i: nat, tail: string)
    requires i > 0
    ensures Digits(i) + tail == Digits(i / 10) + ([Digit(i % 10)] + tail)
  {
  }

  lemma OneDigitLess(i: nat, k: nat)
    requires 0 < i < Pow10(k)
    ensures k > 0 && i / 10 < Pow10(k - 1)
  {
  }

  /** The digits left and those written make up the number; there is room for the sign. */
  ghost predicate Written(start: nat, i: nat, tail: string, p: nat) {
    0 < p && i < Pow10(p - 1) && Digits(start) == Digits(i) + tail
  }

  lemma WriteDigit(start: nat, i: nat, tail: string, p: nat)
    requires i > 0 && Written(start, i, tail, p)
    ensures p > 1 && Written(start, i / 10, [Digit(i % 10)] + tail, p - 1)
  {
    OneDigitLess(i, p - 1);
    DigitsUnfold(i, tail);
  }

  lemma NothingWritten(i: nat, tail: string)
    requires i <= MAX64 && tail == ""
    ensures Written(i, i, tail, 20)
  {
    FitsInNineteen();
  }

  /** b[p] = c, in front of what is written already. */
  method Put(b: array<char>, p: nat, c: char)
    requires p < b.Length
    modifies b
    ensures b[p..] == [c] + old(b[p + 1..])
  {
    ghost var tail := b[p + 1..];
    b[p] := c;
    assert b[p + 1..] == tail;
  }

  /** The digits of i, written from the end of the buffer; p is where they begin. */
  method WriteDigits(b: array<char>, n: int) returns (p: nat)
    requires b.Length == 20 && n <= MAX64
    modifies b
    ensures 1 <= p <= 20 && b[p..] == if n > 0 then Digits(n) else ""
  {
    var i := n;
    p := b.Length;
    if n > 0 {
      NothingWritten(n, b[p..]);
    }
    while i > 0
      invariant 1 <= p <= 20
      invariant if n > 0 then i >= 0 && Written(n, i, b[p..], p) else i == n && p == 20
    {
      WriteDigit(n, i, b[p..], p);
      p := p - 1;
      Put(b, p, Digit(i % 10));
      i := i / 10;
    }
  }

  method ComputeItoa(n: int) returns (s: string)
    requires MIN64 <= n <= MAX64
    ensures n != MIN64 ==> s == Numeral(n)
    ensures n == MIN64 ==> s == "-"
  {
    if n == 0 {
      return "0";
    }
    var i := n;
    var neg := i < 0;
    if neg {
      i := Negate(i);
    }
    var b := new char[20];
    var p := WriteDigits(b, i);
    if neg {
      p := p - 1;
      Put(b, p, '-');
    }
    return b[p..];
  }

  lemma FitsInNineteen()
    ensures MAX64 < Pow10(19)
  {
    assert Pow10(5) == 100000;
    assert Pow10(10) == 10000000000;
    assert Pow10(15) == 1000000000000000;
  }
}
