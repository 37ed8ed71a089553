/**
 Rejection sampling: secrets drawn from a byte stream (internal/usm/usm.go:204-235, internal/usm/rule.go) and pairing
 codes (internal/sync/pairing.go:12-43).
 */
module Sampling {
  import opened Bytes
  import opened Nonlinear
  import opened Results

  const LOWERCASE := "abcdefghijklmnopqrstuvwxyz"
  const UPPERCASE := "ABCDEFGHIJKLMNOPQRSTUVWXYZ"
  const DIGITS := "0123456789"
  const SYMBOLS := "!\"#$%&'()*+,-./:;<=>?@[\\]^_`{|}~"

  // ----- password rules -----

  /** Bit number k of a format. */
  predicate Has(format: int, k: nat) {
    (format / (if k == 0 then 1 else if k == 1 then 2 else if k == 2 then 4 else 8)) % 2 == 1
  }

  /** The characters of one class. */
  predicate InClass(c: char, k: nat) {
    if k == 0 then 'a' <= c <= 'z'
    else if k == 1 then 'A' <= c <= 'Z'
    else if k == 2 then '0' <= c <= '9'
    else '!' <= c <= '/' || ':' <= c <= '@' || '[' <= c <= '`' || '{' <= c <= '~'
  }

  /** The characters of the classes that a format enables. */
  function Enabled(format: int): set<char> {
    EnabledBelow(format, 4)
  }

  function EnabledBelow(format: int, k: nat): set<char> {
    set c: char | EnabledAt(format, k, c)
  }

  predicate EnabledAt(format: int, k: nat, c: char) {
    exists i: nat | i < k :: Has(format, i) && InClass(c, i)
  }

  function Class(k: nat): set<char> {
    set c: char | InClass(c, k)
  }

  /** t lists exactly the characters of s, each once. */
  predicate Lists(t: string, s: set<char>) {
    && (forall c | c in t :: c in s) && (forall c | c in s :: c in t)
    && (forall i, j | 0 <= i < j < |t| :: t[i] != t[j])
  }

  /** The characters of t that are not in the filter, in order. */
  function Kept(t: string, filter: string): string {
    if t == [] then []
    else Kept(t[..|t| - 1], filter) + (if t[|t| - 1] in filter then [] else [t[|t| - 1]])
  }

  predicate InRange(first: char, n: nat, c: char) {
    first as int <= c as int < first as int + n
  }

  function Range(first: char, n: nat): set<char> {
    set c: char | InRange(first, n, c)
  }

  lemma RangeLists(t: string, first: char, n: nat)
    requires |t| == n && first as int + n < 128 && forall i | 0 <= i < n :: t[i] as int == first as int + i
    ensures Lists(t, Range(first, n))
  {
    forall c | c in Range(first, n)
      ensures c in t
    {
      assert t[c as int - first as int] == c;
    }
  }

  /** Two lists without a common character, one after the other. */
  lemma Joined(a: string, b: string, s: set<char>, u: set<char>)
    requires Lists(a, s) && Lists(b, u) && s !! u
    ensures Lists(a + b, s + u)
  {
    var t := a + b;
    assert forall i | 0 <= i < |t| :: t[i] == if i < |a| then a[i] else b[i - |a|];
    forall i, j | 0 <= i < |a| && |a| <= j < |t|
      ensures t[i] != t[j]
    {
      assert t[i] in a && t[j] in b;
    }
  }

  lemma LetterLists()
    ensures Lists(LOWERCASE, Class(0)) && Lists(UPPERCASE, Class(1)) && Lists(DIGITS, Class(2))
  {
    hide Lists;
    RangeLists(LOWERCASE, 'a', 26);
    RangeLists(UPPERCASE, 'A', 26);
    RangeLists(DIGITS, '0', 10);
    assert Class(0) == Range('a', 26) && Class(1) == Range('A', 26) && Class(2) == Range('0', 10);
  }

  lemma SymbolParts() returns (a: string, b: string, c: string, d: string)
    ensures SYMBOLS == a + b + c + d
    ensures Lists(a, Range('!', 15)) && Lists(b, Range(':', 7)) && Lists(c, Range('[', 6)) && Lists(d, Range('{', 4))
  {
    hide Lists;
    a, b, c, d := "!\"#$%&'()*+,-./", ":;<=>?@", "[\\]^_`", "{|}~";
    RangeLists(a, '!', 15);
    RangeLists(b, ':', 7);
    RangeLists(c, '[', 6);
    RangeLists(d, '{', 4);
  }

  lemma SymbolLists()
    ensures Lists(SYMBOLS, Class(3))
  {
    hide Lists, SYMBOLS;
    var a, b, c, d := SymbolParts();
    Joined(a, b, Range('!', 15), Range(':', 7));
    Joined(a + b, c, Range('!', 15) + Range(':', 7), Range('[', 6));
    Joined(a + b + c, d, Range('!', 15) + Range(':', 7) + Range('[', 6), Range('{', 4));
    assert Class(3) == Range('!', 15) + Range(':', 7) + Range('[', 6) + Range('{', 4);
  }

  function ClassText(k: nat): string
    requires k < 4
  {
    if k == 0 then LOWERCASE else if k == 1 then UPPERCASE else if k == 2 then DIGITS else SYMBOLS
  }

  /** The template of NewRule after its first k conditions: the enabled classes, one after the other. */
  function Classes(format: int, k: nat): string
    requires k <= 4
  {
    if k == 0 then "" else Classes(format, k - 1) + (if Has(format, k - 1) then ClassText(k - 1) else "")
  }

  lemma ClassLists(k: nat)
    requires k < 4
    ensures Lists(ClassText(k), Class(k))
  {
    hide Lists, LOWERCASE, UPPERCASE, DIGITS, SYMBOLS;
    LetterLists();
    SymbolLists();
  }

  /** The template holds exactly the characters of the enabled classes, each once. */
  lemma {:induction false} TemplateLists(format: int, k: nat)
    requires k <= 4
    ensures Lists(Classes(format, k), EnabledBelow(format, k))
  {
    hide Lists, Has, ClassText, InClass;
    if k == 0 {
      NoneListed();
      assert EnabledBelow(format, 0) == {};
    } else {
      TemplateLists(format, k - 1);
      ClassLists(k - 1);
      NoneListed();
      ClassesApart(format, k - 1);
      var text, added := if Has(format, k - 1) then ClassText(k - 1) else "", if Has(format, k - 1) then Class(k - 1) else {};
      Joined(Classes(format, k - 1), text, EnabledBelow(format, k - 1), added);
      assert EnabledBelow(format, k) == EnabledBelow(format, k - 1) + added;
    }
  }

  lemma NoneListed()
    ensures Lists("", {})
  {
  }

  lemma ClassesApart(format: int, k: nat)
    requires k < 4
    ensures EnabledBelow(format, k) !! Class(k)
  {
    hide Has;
  }

  /** A filter takes its characters out of what a template lists. */
  lemma KeptLists(t: string, filter: string, s: set<char>)
    requires Lists(t, s)
    ensures Lists(Kept(t, filter), s - (set c | c in filter))
  {
    hide Kept;
    KeptIn(t, filter);
    KeptDistinct(t, filter);
  }

  /** What Template returns for a rule: every enabled character that is not filtered out, each exactly once. */
  lemma RuleTemplate(format: int, filter: string)
    ensures Lists(Kept(Classes(format, 4), filter), Enabled(format) - (set c | c in filter))
  {
    hide Lists, Classes;
    TemplateLists(format, 4);
    KeptLists(Classes(format, 4), filter, Enabled(format));
  }

  lemma {:induction false} KeptIn(t: string, filter: string)
    ensures forall c :: c in Kept(t, filter) <==> c in t && c !in filter
  {
    if t != [] {
      KeptIn(t[..|t| - 1], filter);
      assert t == t[..|t| - 1] + [t[|t| - 1]];
    }
  }

  lemma {:induction false} KeptDistinct(t: string, filter: string)
    requires forall i, j | 0 <= i < j < |t| :: t[i] != t[j]
    ensures var k := Kept(t, filter); forall i, j | 0 <= i < j < |k| :: k[i] != k[j]
  {
    if t != [] {
      var m := |t| - 1;
      KeptDistinct(t[..m], filter);
      KeptIn(t[..m], filter);
      assert forall i | 0 <= i < |Kept(t[..m], filter)| :: Kept(t[..m], filter)[i] in t[..m];
    }
  }

  lemma {:induction false} KeptAll(t: string)
    ensures Kept(t, "") == t
  {
    if t != [] {
      KeptAll(t[..|t| - 1]);
    }
  }

  class Rule {
    var length: int
    var tpl: string
    var filter: string

    constructor NewRule(length: int, format: int)
      ensures this.length == length && tpl == Classes(format, 4) && filter == ""
    {
      this.length, tpl, filter := length, "", "";
      new;
      hide Has, LOWERCASE, UPPERCASE, DIGITS, SYMBOLS;
      if Has(format, 0) {
        tpl := tpl + LOWERCASE;
      }
      assert tpl == Classes(format, 1);
      if Has(format, 1) {
        tpl := tpl + UPPERCASE;
      }
      assert tpl == Classes(format, 2);
      if Has(format, 2) {
        tpl := tpl + DIGITS;
      }
      assert tpl == Classes(format, 3);
      if Has(format, 3) {
        tpl := tpl + SYMBOLS;
      }
    }

    method WithFilter(filter: string)
      modifies this`filter
      ensures this.filter == if filter == "" then old(this.filter) else filter
    {
      if |filter| == 0 {
        return;
      }
      this.filter := filter;
    }

    method Template() returns (t: string)
      ensures t == Kept(tpl, filter)
    {
      KeptAll(tpl);
      if |filter| == 0 {
        return tpl;
      }
      t := "";
      for i := 0 to |tpl|
        invariant t == Kept(tpl[..i], filter)
      {
        assert tpl[..i + 1][..i] == tpl[..i];
        if tpl[i] in filter {
          continue;
        }
        t := t + [tpl[i]];
      }
      assert tpl[..|tpl|] == tpl;
    }
  }

  // ----- drawing bytes -----

  /** The bytes of a stream that are accepted, in order. */
  function Accepted(stream: seq<byte>, accept: byte -> bool): (r: seq<byte>)
    ensures |r| <= |stream|
  {
    if stream == [] then []
    else
      var b := stream[|stream| - 1];
      Accepted(stream[..|stream| - 1], accept) + (if accept(b) then [b] else [])
  }

  lemma AcceptedSnoc(stream: seq<byte>, i: nat, accept: byte -> bool)
    requires i < |stream|
    ensures Accepted(stream[..i + 1], accept) == Accepted(stream[..i], accept) + (if accept(stream[i]) then [stream[i]] else [])
  {
    assert stream[..i + 1][..i] == stream[..i];
  }

  lemma {:induction false} AcceptedPrefix(stream: seq<byte>, i: nat, n: nat, accept: byte -> bool)
    requires i <= n <= |stream|
    ensures Accepted(stream[..i], accept) <= Accepted(stream[..n], accept)
    decreases n - i
  {
    if i < n {
      AcceptedSnoc(stream, n - 1, accept);
      AcceptedPrefix(stream, i, n - 1, accept);
    }
  }

  /** Every accepted byte is kept as often as the stream holds it, and nothing else is. */
  lemma {:induction false} AcceptedCounts(stream: seq<byte>, accept: byte -> bool, b: byte)
    ensures multiset(Accepted(stream, accept))[b] == if accept(b) then multiset(stream)[b] else 0
  {
    if stream != [] {
      var m := |stream| - 1;
      AcceptedCounts(stream[..m], accept, b);
      assert stream == stream[..m] + [stream[m]];
    }
  }

  function OneOf(chars: seq<byte>): byte -> bool {
    b => b in chars
  }

  function Below(limit: int): byte -> bool {
    b => b < limit
  }

  datatype SecretError = EmptyTemplate | StreamEnded | TooManyIterations

  /** How many bytes Secret may read. */
  function Reads(stream: seq<byte>, len: int): nat {
    if len <= 0 then 0 else if |stream| < 256 * len then |stream| else 256 * len
  }

  /** chars are the bytes of the seeder's template, stream is what the key derivation yields before it ends. */
  method Secret(chars: seq<byte>, stream: seq<byte>, len: int) returns (r: Result<seq<byte>, SecretError>)
    ensures chars == [] ==> r == Err(EmptyTemplate)
    ensures chars != [] ==>
              var found := Accepted(stream[..Reads(stream, len)], OneOf(chars));
              r == if len >= 1 && |found| >= len then Ok(found[..len])
                   else if len >= 1 && |stream| < 256 * len then Err(StreamEnded)
                   else Err(TooManyIterations)
  {
    hide Accepted;
    if |chars| == 0 {
      return Err(EmptyTemplate);
    }
    var maxIterations := len * 256;
    var secret: seq<byte> := [];
    ghost var accept := OneOf(chars);
    var i := 0;
    while i < maxIterations
      invariant 0 <= i && (i > 0 ==> i <= maxIterations) && i <= |stream|
      invariant secret == Accepted(stream[..i], accept) && (len >= 1 ==> |secret| < len)
      decreases maxIterations - i
    {
      if i == |stream| {
        return Err(StreamEnded);
      }
      AcceptedSnoc(stream, i, accept);
      if stream[i] in chars {
        secret := secret + [stream[i]];
        if |secret| == len {
          AcceptedPrefix(stream, i + 1, Reads(stream, len), accept);
          assert secret == Accepted(stream[..Reads(stream, len)], accept)[..len];
          return Ok(secret);
        }
      }
      i := i + 1;
    }
    return Err(TooManyIterations);
  }

  // ----- pairing codes -----

  const PAIRING_ALPHABET := "23456789ABCDEFGHJKMNPQRSTUVWXYZ"
  const PAIRING_CODE_LENGTH := 6

  function MaxUnbiased(n: nat): nat
    requires 0 < n < 256
  {
    256 - 256 % n
  }

  /** stream is what the key derivation yields before it ends. */
  method GeneratePairingCode(stream: seq<byte>) returns (r: Result<string, string>)
    ensures var found := Accepted(stream, Below(MaxUnbiased(|PAIRING_ALPHABET|)));
            if |found| >= PAIRING_CODE_LENGTH then
              && r.Ok? && |r.value| == PAIRING_CODE_LENGTH
              && forall i | 0 <= i < PAIRING_CODE_LENGTH :: r.value[i] == PAIRING_ALPHABET[found[i] % |PAIRING_ALPHABET|]
            else r.Err?
  {
    hide Accepted;
    var alphabetLen := |PAIRING_ALPHABET|;
    var maxUnbiased := 256 - 256 % alphabetLen;
    ghost var accept := Below(MaxUnbiased(|PAIRING_ALPHABET|));
    var code: string := "";
    var next := 0;
    assert stream[..|stream|] == stream;
    while |code| < PAIRING_CODE_LENGTH
      invariant next <= |stream| && |code| <= PAIRING_CODE_LENGTH && |Accepted(stream[..next], accept)| == |code|
      invariant forall i | 0 <= i < |code| :: code[i] == PAIRING_ALPHABET[Accepted(stream[..next], accept)[i] % alphabetLen]
      decreases PAIRING_CODE_LENGTH - |code|
    {
      while true
        invariant next <= |stream| && |Accepted(stream[..next], accept)| == |code|
        invariant forall i | 0 <= i < |code| :: code[i] == PAIRING_ALPHABET[Accepted(stream[..next], accept)[i] % alphabetLen]
        decreases |stream| - next
      {
        if next == |stream| {
          return Err("could not derive pairing code");
        }
        var b := stream[next];
        AcceptedSnoc(stream, next, accept);
        next := next + 1;
        if b < maxUnbiased {
          code := code + [PAIRING_ALPHABET[b % alphabetLen]];
          break;
        }
      }
    }
    AcceptedPrefix(stream, next, |stream|, accept);
    return Ok(code);
  }

  /** The accepted byte values that select symbol k of an alphabet of n symbols. */
  function Selecting(n: nat, k: nat, limit: nat): set<int>
    requires 0 < n
  {
    set b | 0 <= b < limit && b % n == k
  }

  lemma {:induction false} SelectingBlocks(n: nat, k: nat, q: nat, limit: nat)
    requires 0 < n && k < n && limit == q * n
    ensures |Selecting(n, k, limit)| == q
    decreases q
  {
    if q == 0 {
      assert Selecting(n, k, limit) == {};
    } else {
      MulDistrib(q - 1, 1, n);
      MulNonNeg(q - 1, n);
      SelectingBlocks(n, k, q - 1, limit - n);
      OneMoreBlock(n, k, q - 1, limit - n);
    }
  }

  lemma OneMoreBlock(n: nat, k: nat, q: nat, before: nat)
    requires 0 < n && k < n && before == q * n
    ensures Selecting(n, k, before + n) == Selecting(n, k, before) + {before + k}
    ensures before + k !in Selecting(n, k, before)
  {
    forall b: int | before <= b < before + n
      ensures b % n == b - before
    {
      DivUnique(b, n, q, b - before);
    }
  }

  /** Every symbol is selected by the same number of accepted byte values: no symbol of a code is more likely. */
  lemma Unbiased(n: nat, k: nat)
    requires 0 < n < 256 && k < n
    ensures |Selecting(n, k, MaxUnbiased(n))| == 256 / n
  {
    DivMod(256, n);
    DivNonNeg(256, n);
    SelectingBlocks(n, k, 256 / n, MaxUnbiased(n));
  }

  // ----- the format bits -----

  function Format(lower: bool, upper: bool, digits: bool, symbols: bool, more: int): int {
    16 * more + (if lower then 1 else 0) + (if upper then 2 else 0) + (if digits then 4 else 0) + (if symbols then 8 else 0)
  }

  lemma LowBits(lower: bool, upper: bool, digits: bool, symbols: bool, more: int)
    ensures var f := Format(lower, upper, digits, symbols, more);
            Has(f, 0) == lower && Has(f, 1) == upper && Has(f, 2) == digits && Has(f, 3) == symbols
  {
    var f := Format(lower, upper, digits, symbols, more);
    assert f / 8 == 2 * more + if symbols then 1 else 0;
    assert f / 4 == 4 * more + (if digits then 1 else 0) + if symbols then 2 else 0;
    assert f / 2 == 8 * more + (if upper then 1 else 0) + (if digits then 2 else 0) + if symbols then 4 else 0;
  }

  /** Bits 0 to 3 of a format enable lower case, upper case, digits and symbols; higher bits mean nothing. */
  lemma FormatBits(lower: bool, upper: bool, digits: bool, symbols: bool, more: int, c: char)
    ensures c in Enabled(Format(lower, upper, digits, symbols, more)) <==>
              || (lower && 'a' <= c <= 'z') || (upper && 'A' <= c <= 'Z') || (digits && '0' <= c <= '9')
              || (symbols && 33 <= c as int <= 126 && !('a' <= c <= 'z') && !('A' <= c <= 'Z') && !('0' <= c <= '9'))
  {
    hide Has, Format;
    LowBits(lower, upper, digits, symbols, more);
    var f := Format(lower, upper, digits, symbols, more);
    assert EnabledAt(f, 4, c) <==>
      (lower && InClass(c, 0)) || (upper && InClass(c, 1)) || (digits && InClass(c, 2)) || (symbols && InClass(c, 3)) by {
      FourClasses(f, c);
    }
  }

  lemma FourClasses(f: int, c: char)
    ensures EnabledAt(f, 4, c) <==>
              || (Has(f, 0) && InClass(c, 0)) || (Has(f, 1) && InClass(c, 1))
              || (Has(f, 2) && InClass(c, 2)) || (Has(f, 3) && InClass(c, 3))
  {
    hide Has, InClass;
    if i: nat :| i < 4 && Has(f, i) && InClass(c, i) {
      assert i == 0 || i == 1 || i == 2 || i == 3;
    }
  }

  // ----- order -----

  /** A filter works character by character, so it keeps the order. */
  lemma {:induction false} KeptInOrder(a: string, b: string, filter: string)
    ensures Kept(a + b, filter) == Kept(a, filter) + Kept(b, filter)
  {
    if b == "" {
      assert a + b == a;
    } else {
      var m := |b| - 1;
      KeptInOrder(a, b[..m], filter);
      assert (a + b)[..|a + b| - 1] == a + b[..m];
    }
  }

  lemma KeptOne(c: char, filter: string)
    ensures Kept([c], filter) == if c in filter then "" else [c]
  {
    assert [c][..0] == "";
  }

  /** A template lists lower case before upper case before digits before symbols. */
  lemma ClassesInOrder(lower: bool, upper: bool, digits: bool, symbols: bool, more: int)
    ensures Classes(Format(lower, upper, digits, symbols, more), 4)
         == (if lower then "abcdefghijklmnopqrstuvwxyz" else "") + (if upper then "ABCDEFGHIJKLMNOPQRSTUVWXYZ" else "")
            + (if digits then "0123456789" else "") + (if symbols then SYMBOLS else "")
  {
    hide Has, Format, SYMBOLS;
    LowBits(lower, upper, digits, symbols, more);
    var f := Format(lower, upper, digits, symbols, more);
    assert Classes(f, 1) == if lower then LOWERCASE else "";
    assert Classes(f, 2) == Classes(f, 1) + if upper then UPPERCASE else "";
    assert Classes(f, 3) == Classes(f, 2) + if digits then DIGITS else "";
  }

  /** Digits and upper-case letters that cannot be taken for one another. */
  predicate PairingChar(c: char) {
    ('0' <= c <= '9' || 'A' <= c <= 'Z') && c != '0' && c != '1' && c != 'I' && c != 'L' && c != 'O'
  }

  /** Pairing codes use each such character, and nothing else. */
  lemma PairingAlphabet()
    ensures |PAIRING_ALPHABET| == 31 && Lists(PAIRING_ALPHABET, set c: char | PairingChar(c))
  {
    hide Lists, PAIRING_ALPHABET;
    var a, b, c, d, e := PairingParts();
    Joined(a, b, Range('2', 8), Range('A', 8));
    Joined(a + b, c, Range('2', 8) + Range('A', 8), Range('J', 2));
    Joined(a + b + c, d, Range('2', 8) + Range('A', 8) + Range('J', 2), Range('M', 2));
    Joined(a + b + c + d, e, Range('2', 8) + Range('A', 8) + Range('J', 2) + Range('M', 2), Range('P', 11));
    assert (set c: char | PairingChar(c))
        == Range('2', 8) + Range('A', 8) + Range('J', 2) + Range('M', 2) + Range('P', 11);
  }

  lemma PairingParts() returns (a: string, b: string, c: string, d: string, e: string)
    ensures PAIRING_ALPHABET == a + b + c + d + e && |PAIRING_ALPHABET| == 31
    ensures Lists(a, Range('2', 8)) && Lists(b, Range('A', 8)) && Lists(c, Range('J', 2)) && Lists(d, Range('M', 2))
    ensures Lists(e, Range('P', 11))
  {
    hide Lists;
    a, b, c, d, e := "23456789", "ABCDEFGH", "JK", "MN", "PQRSTUVWXYZ";
    RangeLists(a, '2', 8);
    RangeLists(b, 'A', 8);
    RangeLists(c, 'J', 2);
    RangeLists(d, 'M', 2);
    RangeLists(e, 'P', 11);
  }
}
