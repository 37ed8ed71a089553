/** The few facts about products and remainders that the numeral proofs rest on. */
module Nonlinear {
  lemma MulNonNeg(a: int, b: int)
    requires a >= 0 && b >= 0
    ensures a * b >= 0
  {
  }

  lemma MulDistrib(a: int, b: int, c: int)
    ensures (a + b) * c == a * c + b * c
  {
  }

  lemma MulAssoc(a: int, b: int, c: int)
    ensures a * b * c == a * (b * c)
  {
  }

  lemma MulPos(d: int, m: int)
    requires d >= 1 && m > 0
    ensures d * m >= m
  {
    MulDistrib(d - 1, 1, m);
    MulNonNeg(d - 1, m);
  }

  lemma MulMono(a: int, b: int, c: int)
    requires a <= b && c >= 0
    ensures a * c <= b * c
  {
    MulDistrib(b - a, a, c);
    MulNonNeg(b - a, c);
  }

  lemma SmallMultiple(d: int, m: int)
    requires m > 0 && -m < d * m < m
    ensures d == 0
  {
    if d >= 1 {
      MulPos(d, m);
    }
    if d <= -1 {
      MulDistrib(d, -d, m);
      MulPos(-d, m);
    }
  }

  lemma DivUnique(x: int, m: int, q: int, r: int)
    requires m > 0 && 0 <= r < m && x == q * m + r
    ensures x / m == q && x % m == r
  {
    var q', r' := x / m, x % m;
    assert x == q' * m + r';
    MulDistrib(q, -q', m);
    assert (-q') * m == -(q' * m);
    SmallMultiple(q + -q', m);
  }

  /** A high digit below h and a low part below m make a number below h * m. */
  lemma DigitBound(a: int, b: int, h: int, m: int)
    requires 0 <= a < h && 0 <= b < m
    ensures 0 <= a * m + b < h * m
  {
    MulDistrib(a, 1, m);
    MulDistrib(h - (a + 1), a + 1, m);
    MulNonNeg(h - (a + 1), m);
    MulNonNeg(a, m);
  }

  lemma DivMod(x: int, m: int)
    requires m > 0
    ensures x == (x / m) * m + x % m && 0 <= x % m < m
  {
  }

  lemma DivNonNeg(x: nat, m: int)
    requires m > 0
    ensures x / m >= 0
  {
    DivMod(x, m);
    if x / m < 0 {
      MulMono(x / m, -1, m);
    }
  }

  /** Splitting off the digit above position p. */
  lemma ModSplit(x: nat, p: nat, q: nat)
    requires p > 0 && q > 0
    ensures p * q > 0 && x % (p * q) == ((x / p) % q) * p + x % p
  {
    var a, b := x / p, x % p;
    var c, d := a / q, a % q;
    DivMod(x, p);
    DivMod(a, q);
    MulDistrib(c * q, d, p);
    MulAssoc(c, q, p);
    MulPos(p, q);
    assert q * p == p * q;
    DigitBound(d, b, q, p);
    DivUnique(x, p * q, c, d * p + b);
  }

  lemma ModMultiple(x: int, q: int, m: nat)
    requires m > 0
    ensures (q * m + x) % m == x % m
  {
    DivMod(x, m);
    MulDistrib(q, x / m, m);
    DivUnique(q * m + x, m, q + x / m, x % m);
  }

  /** Appending a digit below q to the number with high part r and low part below p. */
  lemma ScaleAdd(r: int, p: int, low: int, q: int, v: int)
    requires 0 <= low < p && 0 <= v < q
    ensures (r * p + low) * q + v == r * (p * q) + (low * q + v)
    ensures 0 <= low * q + v < p * q
  {
    MulDistrib(r * p, low, q);
    MulAssoc(r, p, q);
    DigitBound(low, v, p, q);
  }
}
