/** Decimal digit strings and the numbers they denote. */
module Decimal {
  predicate IsDigit(c: char) { '0' <= c <= '9' }

  predicate AllDigits(s: string) { forall i :: 0 <= i < |s| ==> IsDigit(s[i]) }

  function DigitOf(d: nat): (c: char)
    requires d < 10
    ensures IsDigit(c)
  {
    (d + '0' as nat) as char
  }

  function DigitValue(c: char): (d: nat)
    requires IsDigit(c)
    ensures d < 10 && DigitOf(d) == c
  {
    c as nat - '0' as nat
  }

  /** The number a digit string denotes; the empty string denotes zero. */
  function Value(s: string): nat
    requires AllDigits(s)
  {
    if s == [] then 0 else 10 * Value(s[..|s| - 1]) + DigitValue(s[|s| - 1])
  }

  /** Decimal notation without leading zeros. */
  function Itoa(n: nat): (s: string)
    ensures s != [] && AllDigits(s)
  {
    if n < 10 then [DigitOf(n)] else Itoa(n / 10) + [DigitOf(n % 10)]
  }

  lemma {:induction false} ValueOfItoa(n: nat)
    ensures Value(Itoa(n)) == n
  {
    var s := Itoa(n);
    if n < 10 {
      assert s[..0] == [];
    } else {
      ValueOfItoa(n / 10);
      assert s[..|s| - 1] == Itoa(n / 10);
    }
  }

  lemma ItoaInjective(m: nat, n: nat)
    requires Itoa(m) == Itoa(n)
    ensures m == n
  {
    ValueOfItoa(m);
    ValueOfItoa(n);
  }

  /** No superfluous leading zero: the string is "0" or starts with another digit. */
  predicate Plain(s: string) { s != [] && AllDigits(s) && (|s| > 1 ==> s[0] != '0') }

  lemma {:induction false} ItoaPlain(n: nat)
    ensures Plain(Itoa(n)) && (n > 0 ==> Itoa(n)[0] != '0')
  {
    if n >= 10 { ItoaPlain(n / 10); }
  }

  /** A digit string without superfluous zeros is the notation of its value. */
  lemma {:induction false} ItoaOfValue(s: string)
    requires Plain(s)
    ensures Itoa(Value(s)) == s
  {
    var last := |s| - 1;
    if last == 0 {
      assert Value(s[..0]) == 0;
    } else {
      ItoaOfValue(s[..last]);
      PlainPositive(s[..last]);
      assert Value(s) / 10 == Value(s[..last]) && Value(s) % 10 == DigitValue(s[last]);
    }
  }

  lemma {:induction false} PlainPositive(s: string)
    requires s != [] && AllDigits(s) && s[0] != '0'
    ensures Value(s) > 0
  {
    if |s| > 1 { PlainPositive(s[..|s| - 1]); } else { assert Value(s[..0]) == 0; }
  }
}
