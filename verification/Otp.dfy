/** One-time passwords (internal/otp/otp.go): truncation and padding as in sections 5.3 and 5.4 of RFC 4226. */
module Otp {
  import opened Bytes
  import opened Results
  import opened Decimals
  import opened Nonlinear

  /** The integer that a byte string denotes, high-order byte first. */
  function BigEndian(s: seq<byte>): nat {
    if s == [] then 0 else 256 * BigEndian(s[..|s| - 1]) + s[|s| - 1] as int
  }

  /** DT of section 5.3: the last 31 bits of the four bytes at the offset given by the last four bits of the MAC. */
  function Truncated(mac: seq<byte>): nat
    requires |mac| >= 19
  {
    var offset := mac[|mac| - 1] % 16;
    BigEndian(mac[offset..offset + 4]) % 0x8000_0000
  }

  /** binary.BigEndian.Uint32 */
  function Uint32(b: seq<byte>): nat
    requires |b| == 4
  {
    0x100_0000 * (b[0] as int) + 0x1_0000 * (b[1] as int) + 0x100 * (b[2] as int) + b[3] as int
  }

  lemma BigEndianSnoc(s: seq<byte>, b: byte)
    ensures BigEndian(s + [b]) == 256 * BigEndian(s) + b as int && BigEndian([]) == 0 && [] + [b] == [b]
  {
    assert (s + [b])[..|s|] == s;
  }

  lemma BigEndianFour(a: byte, b: byte, c: byte, d: byte)
    ensures BigEndian([a, b, c, d]) == Uint32([a, b, c, d])
  {
    BigEndianSnoc([], a);
    BigEndianSnoc([a], b);
    BigEndianSnoc([a, b], c);
    BigEndianSnoc([a, b, c], d);
    assert [a] + [b] == [a, b] && [a, b] + [c] == [a, b, c] && [a, b, c] + [d] == [a, b, c, d];
  }

  /** Clearing the top bit of the first byte takes the integer modulo 2^31. */
  lemma MaskedCode(s: seq<byte>, t: seq<byte>)
    requires |s| == 4 && t == s[0 := s[0] % 128]
    ensures BigEndian(t) == BigEndian(s) % 0x8000_0000
  {
    hide BigEndian;
    BigEndianFour(s[0], s[1], s[2], s[3]);
    BigEndianFour(t[0], t[1], t[2], t[3]);
    assert s == [s[0], s[1], s[2], s[3]] && t == [t[0], t[1], t[2], t[3]];
    HighBit(s, t);
    DivUnique(Uint32(s), 0x8000_0000, (s[0] / 128) as int, Uint32(t));
  }

  lemma HighBit(s: seq<byte>, t: seq<byte>)
    requires |s| == 4 && t == s[0 := s[0] % 128]
    ensures Uint32(s) == (s[0] / 128) as int * 0x8000_0000 + Uint32(t) && Uint32(t) < 0x8000_0000
  {
    assert s[0] == 128 * (s[0] / 128) + s[0] % 128;
  }

  /** The truncation stays inside every MAC exactly when MACs have at least 19 bytes. */
  lemma OffsetInBounds(length: nat)
    requires length > 0
    ensures length >= 19 <==> forall mac: seq<byte> | |mac| == length :: mac[|mac| - 1] % 16 + 4 <= |mac|
  {
    if length < 19 {
      var mac: seq<byte> := seq(length, _ => 15);
      assert mac[|mac| - 1] % 16 + 4 > |mac|;
    }
  }

  /** The power of ten that HOTP converts to 32 bits fits them exactly up to nine digits. */
  lemma {:induction false} PowerFits(digits: nat)
    ensures Pow10(digits) < 0x1_0000_0000 <==> digits <= 9
  {
    PowersGrow(digits, 9);
    PowersGrow(10, digits);
    assert Pow10(5) == 100_000;
  }

  lemma {:induction false} PowersGrow(a: nat, b: nat)
    ensures a <= b ==> Pow10(a) <= Pow10(b)
    decreases b
  {
    if a < b {
      PowersGrow(a, b - 1);
    }
  }

  /** The conversion uint32(p), which is defined for numbers in range only. */
  function Uint32Of(p: nat): nat
    requires p < 0x1_0000_0000
  {
    p
  }

  /** hash is the MAC of the counter, a slice that HOTP owns. */
  method HOTP(hash: array<byte>, digits: int) returns (r: Result<string, string>)
    requires hash.Length >= 19 && digits <= 9
    modifies hash
    ensures r.Ok? <==> digits >= 1
    ensures r.Ok? ==>
              && |r.value| == digits && Digits(r.value)
              && Value(r.value) == Truncated(old(hash[..])) % Pow10(digits)
    ensures forall i | 0 <= i < hash.Length ::
              hash[i] == if digits >= 1 && i == old(hash[hash.Length - 1]) % 16 then old(hash[i]) % 128 else old(hash[i])
  {
    if digits < 1 {
      return Err("digits value must be greater than 0");
    }
    var code := DynamicCode(hash);
    PowerFits(digits);
    var modulus := Uint32Of(Pow10(digits));
    var otp := code % modulus;
    var value := Padded(otp, digits);
    return Ok(value);
  }

  /** The part of HOTP that masks the four bytes in place and reads them. */
  method DynamicCode(hash: array<byte>) returns (code: nat)
    requires hash.Length >= 19
    modifies hash
    ensures code == Truncated(old(hash[..])) && code < 0x8000_0000
    ensures forall i | 0 <= i < hash.Length ::
              hash[i] == if i == old(hash[hash.Length - 1]) % 16 then old(hash[i]) % 128 else old(hash[i])
  {
    hide BigEndian;
    var offset := hash[hash.Length - 1] % 16;
    ghost var dbc := hash[offset..offset + 4];
    hash[offset] := hash[offset] % 128;
    ghost var masked := hash[offset..offset + 4];
    code := Uint32(hash[offset..offset + 4]);
    assert masked == [masked[0], masked[1], masked[2], masked[3]];
    BigEndianFour(masked[0], masked[1], masked[2], masked[3]);
    MaskedCode(dbc, masked);
    assert old(hash[..])[offset..offset + 4] == dbc;
  }

  /** The part of HOTP that writes the number with leading zeros. */
  method Padded(otp: nat, digits: nat) returns (value: string)
    requires digits >= 1 && otp < Pow10(digits)
    ensures |value| == digits && Digits(value) && Value(value) == otp
  {
    value := Itoa(otp);
    ItoaValue(otp);
    ItoaLength(otp, digits);
    while digits - |value| != 0
      invariant |value| <= digits && Digits(value) && Value(value) == otp
      decreases digits - |value|
    {
      LeadingZero(value);
      value := "0" + value;
    }
  }

  /** The one-time password for a MAC. */
  function Password(mac: seq<byte>, digits: nat): nat
    requires |mac| >= 19
  {
    Truncated(mac) % Pow10(digits)
  }

  /** mac maps a counter to its MAC under the shared key; t is the Unix time. */
  method TOTP(mac: nat -> seq<byte>, t: nat, interval: int, digits: int) returns (r: Result<string, string>)
    requires digits <= 9 && forall c :: |mac(c)| >= 19
    ensures r.Ok? <==> interval >= 1 && digits >= 1
    ensures r.Ok? ==> |r.value| == digits && Digits(r.value) && Value(r.value) == Password(mac(t / interval), digits)
  {
    if interval < 1 {
      return Err("interval value must be greater than 0");
    }
    var count := t / interval;
    var m := mac(count);
    var hash := new byte[|m|](i requires 0 <= i < |m| => m[i]);
    assert hash[..] == m;
    r := HOTP(hash, digits);
  }

  /** A password is valid for one whole step: times give the same counter exactly when they lie in the same step. */
  lemma SameStep(t: nat, u: nat, interval: nat)
    requires interval >= 1
    ensures t / interval == u / interval <==> exists c: nat :: InStep(t, c, interval) && InStep(u, c, interval)
  {
    StepOf(t, t / interval, interval);
    StepOf(u, u / interval, interval);
    if c: nat :| InStep(t, c, interval) && InStep(u, c, interval) {
      StepOf(t, c, interval);
      StepOf(u, c, interval);
    }
  }

  predicate InStep(t: nat, c: nat, interval: nat) {
    c * interval <= t < c * interval + interval
  }

  lemma StepOf(t: nat, c: nat, interval: nat)
    requires interval >= 1
    ensures InStep(t, c, interval) <==> c == t / interval
  {
    DivMod(t, interval);
    if InStep(t, c, interval) {
      DivUnique(t, interval, c, t - c * interval);
    }
  }

  /** The padding of TOTPFromBase32. */
  method PadKey(key: string) returns (padded: string)
    ensures |padded| % 8 == 0 && |key| <= |padded| < |key| + 8 && padded[..|key|] == key
    ensures forall i | |key| <= i < |padded| :: padded[i] == '='
  {
    padded := key;
    ghost var missing := (8 - |key| % 8) % 8;
    while |padded| % 8 != 0
      invariant |key| <= |padded| <= |key| + missing && padded[..|key|] == key
      invariant forall i | |key| <= i < |padded| :: padded[i] == '='
      decreases |key| + missing - |padded|
    {
      padded := padded + "=";
    }
  }

  /** The worked example of section 5.4 of RFC 4226: the offset is 10 and the six digits are 872921. */
  lemma ExampleOfStandard(mac: seq<byte>)
    requires mac == [0x1f, 0x86, 0x98, 0x69, 0x0e, 0x02, 0xca, 0x16, 0x61, 0x85, 0x50, 0xef, 0x7f, 0x19, 0xda, 0x8e, 0x94,
                     0x5b, 0x55, 0x5a]
    ensures Truncated(mac) == 0x50ef_7f19 && Truncated(mac) % Pow10(6) == 872_921
  {
    hide BigEndian;
    BigEndianFour(0x50, 0xef, 0x7f, 0x19);
    assert mac[10..14] == [0x50, 0xef, 0x7f, 0x19];
    assert Pow10(3) == 1_000 && Pow10(6) == 1_000_000;
  }
}
