/** What several modules share. */
module Basics {

  datatype Option<+T> = None | Some(value: T)

  function Min(a: nat, b: nat): nat {
    if a <= b then a else b
  }

  /** What holds at 0 and passes from each number to the next holds of every number. */
  lemma {:induction false} FromEachToNext(holds: nat -> bool, k: nat)
    requires holds(0) && forall i: nat, j: nat :: j == i + 1 && holds(i) ==> holds(j)
    ensures holds(k)
  {
    if k > 0 {
      FromEachToNext(holds, k - 1);
    }
  }
}

/** Strings of decimal digits and the numbers they denote. */
module Decimal {

  predicate IsDigit(c: char) {
    '0' <= c <= '9'
  }

  predicate AllDigits(s: string) {
    forall i :: 0 <= i < |s| ==> IsDigit(s[i])
  }

  /** The number a string of digits denotes, 0 for none. */
  function ReadNat(s: string): (n: int)
    ensures AllDigits(s) ==> n >= 0
  {
    if s == "" then 0 else 10 * ReadNat(s[..|s| - 1]) + (s[|s| - 1] as int - '0' as int)
  }

  function Pow10(k: nat): (n: nat)
    ensures n > 0
  {
    if k == 0 then 1 else 10 * Pow10(k - 1)
  }

  lemma ReadLast(s: string, c: char)
    ensures ReadNat(s + [c]) == 10 * ReadNat(s) + (c as int - '0' as int)
  {
    assert (s + [c])[..|s|] == s;
  }

  lemma TimesTen(n: int, k: nat, x: int)
    ensures 10 * (n * k + x) == n * (10 * k) + 10 * x
  {
  }

  /** Digits written behind others shift these by their number. */
  lemma {:induction false} ReadConcat(a: string, b: string)
    ensures ReadNat(a + b) == ReadNat(a) * Pow10(|b|) + ReadNat(b)
  {
    if b == "" {
      assert a + b == a;
    } else {
      var front, c := b[..|b| - 1], b[|b| - 1];
      ReadConcat(a, front);
      assert a + b == (a + front) + [c] && b == front + [c];
      ReadLast(a + front, c);
      ReadLast(front, c);
      TimesTen(ReadNat(a), Pow10(|front|), ReadNat(front));
    }
  }
}
