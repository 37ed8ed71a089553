/** Decimal numerals (strconv.Itoa and the verb %d on non-negative integers). */
module Decimals {
  predicate Digits(s: string) {
    forall i | 0 <= i < |s| :: '0' <= s[i] <= '9'
  }

  function Itoa(n: nat): (s: string)
    ensures s != [] && Digits(s)
  {
    if n < 10 then ['0' + n as char] else Itoa(n / 10) + ['0' + (n % 10) as char]
  }

  /** The number that a string of digits denotes, with or without leading zeros. */
  function Value(s: string): nat
    requires Digits(s)
  {
    if s == [] then 0
    else 10 * Value(s[..|s| - 1]) + (s[|s| - 1] - '0') as int
  }

  function Pow10(n: nat): (p: nat)
    ensures p > 0
  {
    if n == 0 then 1 else 10 * Pow10(n - 1)
  }

  lemma {:induction false} ItoaValue(n: nat)
    ensures Value(Itoa(n)) == n
  {
    if n >= 10 {
      ItoaValue(n / 10);
      var s := Itoa(n / 10) + ['0' + (n % 10) as char];
      assert s[..|s| - 1] == Itoa(n / 10);
    }
  }

  lemma ItoaInjective(a: nat, b: nat)
    requires Itoa(a) == Itoa(b)
    ensures a == b
  {
    ItoaValue(a);
    ItoaValue(b);
  }

  lemma {:induction false} ItoaLength(n: nat, digits: nat)
    requires digits > 0 && n < Pow10(digits)
    ensures |Itoa(n)| <= digits
  {
    if n >= 10 {
      assert digits > 1;
      ItoaLength(n / 10, digits - 1);
    }
  }

  lemma {:induction false} LeadingZero(s: string)
    requires Digits(s)
    ensures Digits("0" + s) && Value("0" + s) == Value(s)
  {
    if s != [] {
      LeadingZero(s[..|s| - 1]);
      assert ("0" + s)[..|s|] == "0" + s[..|s| - 1];
    }
  }
}
