/**
 Numbers written in base 2^k, and the regrouping of digits from one such base to another: an independent
 definition of what convertBits computes (internal/age/bech32/bech32.go:79-106).
 */
module Radix {
  import opened Nonlinear

  function Pow2(n: nat): (p: nat)
    ensures p >= 1
  {
    if n == 0 then 1 else 2 * Pow2(n - 1)
  }

  lemma {:induction false} Pow2Sum(a: nat, b: nat)
    ensures Pow2(a + b) == Pow2(a) * Pow2(b)
  {
    if a > 0 {
      Pow2Sum(a - 1, b);
      MulAssoc(2, Pow2(a - 1), Pow2(b));
    }
  }

  lemma Pow2Small()
    ensures Pow2(8) == 256 && Pow2(5) == 32
  {
    assert Pow2(2) == 4;
    assert Pow2(4) == 16;
    assert Pow2(6) == 64;
  }

  lemma {:induction false} Pow2Mono(a: nat, b: nat)
    requires a <= b
    ensures Pow2(a) <= Pow2(b)
  {
    if a < b {
      Pow2Mono(a, b - 1);
    }
  }

  // ----- numerals -----

  function Num(s: seq<nat>, k: nat): nat {
    if s == [] then 0 else Num(s[..|s| - 1], k) * Pow2(k) + s[|s| - 1]
  }

  /** The last digit of n in base 2^k, and the number without it. */
  function Last(n: nat, k: nat): (d: nat)
    ensures d < Pow2(k)
  {
    n % Pow2(k)
  }

  function Rest(n: nat, k: nat): nat {
    DivNonNeg(n, Pow2(k));
    n / Pow2(k)
  }

  /** The len-digit numeral of n in base 2^k, most significant digit first. */
  function Digits(n: nat, k: nat, len: nat): (s: seq<nat>)
    ensures |s| == len
    decreases len
  {
    if len == 0 then [] else Digits(Rest(n, k), k, len - 1) + [Last(n, k)]
  }

  /** How many numbers len digits can write. */
  function Room(k: nat, len: nat): (r: nat)
    ensures r >= 1
  {
    if len == 0 then 1 else
      MulPos(Room(k, len - 1), Pow2(k));
      Room(k, len - 1) * Pow2(k)
  }

  lemma {:induction false} RoomIsPower(k: nat, len: nat)
    ensures k * len >= 0 && Room(k, len) == Pow2(k * len)
  {
    if len > 0 {
      RoomIsPower(k, len - 1);
      MulDistrib(len - 1, 1, k);
      Pow2Sum(k * (len - 1), k);
    }
  }

  predicate Fits(s: seq<nat>, k: nat) {
    forall i | 0 <= i < |s| :: s[i] < Pow2(k)
  }

  lemma RestLast(n: nat, k: nat)
    ensures n == Rest(n, k) * Pow2(k) + Last(n, k)
  {
    DivMod(n, Pow2(k));
  }

  lemma RestLastUnique(q: nat, d: nat, k: nat)
    requires d < Pow2(k)
    ensures q * Pow2(k) + d >= 0
    ensures Rest(q * Pow2(k) + d, k) == q && Last(q * Pow2(k) + d, k) == d
  {
    MulNonNeg(q, Pow2(k));
    DivUnique(q * Pow2(k) + d, Pow2(k), q, d);
  }

  lemma NumSnoc(s: seq<nat>, d: nat, k: nat)
    ensures Num(s + [d], k) == Num(s, k) * Pow2(k) + d
  {
    assert (s + [d])[..|s|] == s;
  }

  lemma {:induction false} DigitsFit(n: nat, k: nat, len: nat)
    ensures Fits(Digits(n, k, len), k)
    decreases len
  {
    hide Rest, Last;
    if len > 0 {
      DigitsFit(Rest(n, k), k, len - 1);
    }
  }

  lemma {:induction false} NumBound(s: seq<nat>, k: nat)
    requires Fits(s, k)
    ensures Num(s, k) < Room(k, |s|)
  {
    if s != [] {
      var n := |s| - 1;
      NumBound(s[..n], k);
      DigitBound(Num(s[..n], k), s[n], Room(k, n), Pow2(k));
    }
  }

  lemma {:induction false} DigitsOfNum(s: seq<nat>, k: nat)
    requires Fits(s, k)
    ensures Digits(Num(s, k), k, |s|) == s
  {
    hide Rest, Last;
    if s != [] {
      var n := |s| - 1;
      DigitsOfNum(s[..n], k);
      RestLastUnique(Num(s[..n], k), s[n], k);
      assert s == s[..n] + [s[n]];
    }
  }

  lemma {:induction false} NumOfDigits(n: nat, k: nat, len: nat)
    requires n < Room(k, len)
    ensures Num(Digits(n, k, len), k) == n
    decreases len
  {
    hide Rest, Last;
    if len > 0 {
      RestLast(n, k);
      RestBound(n, k, Room(k, len - 1));
      NumOfDigits(Rest(n, k), k, len - 1);
      NumSnoc(Digits(Rest(n, k), k, len - 1), Last(n, k), k);
    }
  }

  lemma RestBound(n: nat, k: nat, room: nat)
    requires n < room * Pow2(k)
    ensures Rest(n, k) < room
  {
    RestLast(n, k);
    if Rest(n, k) >= room {
      MulMono(room, Rest(n, k), Pow2(k));
    }
  }
}
