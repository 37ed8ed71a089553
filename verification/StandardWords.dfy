/**
 Published words of BIP 173, section "Test vectors" (the list of internal/age/bech32/bech32_test.go:29-34): they fix the
 generators of the checksum, the alphabet and the expansion of the human-readable part.
 */
module StandardWords {
  import opened Results
  import opened Radix
  import opened Regroup
  import opened Checksum
  import opened Bech32

  // ----- checksums, step by step -----

  lemma FoldAt(c: bv32, s: seq<byte>, k: nat)
    requires k < |s|
    ensures Fold(c, s[..k + 1]) == Step(Fold(c, s[..k]), s[k])
  {
    FoldSnoc(c, s[..k], s[k]);
    assert s[..k] + [s[k]] == s[..k + 1];
  }

  lemma Abcdef1Steps()
    ensures
      && Step(0x1, 3) == 0x23 && Step(0x23, 3) == 0x463 && Step(0x463, 3) == 0x8c63
      && Step(0x8c63, 3) == 0x118c63 && Step(0x118c63, 3) == 0x2318c63 && Step(0x2318c63, 3) == 0x3d5bdbd1
      && Step(0x3d5bdbd1, 0) == 0x4dcbcd9 && Step(0x4dcbcd9, 1) == 0x3dc7154c
      && Step(0x3dc7154c, 2) == 0x17456f7b && Step(0x17456f7b, 3) == 0x8d50561
      && Step(0x8d50561, 4) == 0x401b5de && Step(0x401b5de, 5) == 0x266635a8
      && Step(0x266635a8, 6) == 0x3be80e6a
  {
  }

  lemma Abcdef1(s: seq<byte>)
    requires |s| == 13
    requires
      && s[0] == 3 && s[1] == 3 && s[2] == 3 && s[3] == 3 && s[4] == 3 && s[5] == 3 && s[6] == 0 && s[7] == 1
      && s[8] == 2 && s[9] == 3 && s[10] == 4 && s[11] == 5 && s[12] == 6
    ensures Fold(0x1, s) == 0x3be80e6a
  {
    hide Step, Fold;
    Abcdef1Steps();
    FoldEmpty(0x1);
    assert s[..0] == [] && s[..13] == s;
    FoldAt(0x1, s, 0); FoldAt(0x1, s, 1); FoldAt(0x1, s, 2); FoldAt(0x1, s, 3); FoldAt(0x1, s, 4);
    FoldAt(0x1, s, 5); FoldAt(0x1, s, 6); FoldAt(0x1, s, 7); FoldAt(0x1, s, 8); FoldAt(0x1, s, 9);
    FoldAt(0x1, s, 10); FoldAt(0x1, s, 11); FoldAt(0x1, s, 12);
  }

  lemma Abcdef2Steps()
    ensures
      && Step(0x3be80e6a, 0) == 0xf9cd266 && Step(0xf9cd266, 1) == 0x30018ce4
      && Step(0x30018ce4, 2) == 0x1767cdec && Step(0x1767cdec, 3) == 0xc815781
      && Step(0xc815781, 4) == 0x28db67b3 && Step(0x28db67b3, 5) == 0x2fd98d2c
      && Step(0x2fd98d2c, 6) == 0x12be0710 && Step(0x12be0710, 7) == 0x11e88668
      && Step(0x11e88668, 8) == 0x52fed5 && Step(0x52fed5, 9) == 0xa5fdaa9 && Step(0xa5fdaa9, 10) == 0x2e301b62
      && Step(0x2e301b62, 11) == 0x2f8ccedd && Step(0x2f8ccedd, 12) == 0x1816793a
  {
  }

  lemma Abcdef2(s: seq<byte>)
    requires |s| == 13
    requires
      && s[0] == 0 && s[1] == 1 && s[2] == 2 && s[3] == 3 && s[4] == 4 && s[5] == 5 && s[6] == 6 && s[7] == 7
      && s[8] == 8 && s[9] == 9 && s[10] == 10 && s[11] == 11 && s[12] == 12
    ensures Fold(0x3be80e6a, s) == 0x1816793a
  {
    hide Step, Fold;
    Abcdef2Steps();
    FoldEmpty(0x3be80e6a);
    assert s[..0] == [] && s[..13] == s;
    FoldAt(0x3be80e6a, s, 0); FoldAt(0x3be80e6a, s, 1); FoldAt(0x3be80e6a, s, 2); FoldAt(0x3be80e6a, s, 3);
    FoldAt(0x3be80e6a, s, 4); FoldAt(0x3be80e6a, s, 5); FoldAt(0x3be80e6a, s, 6); FoldAt(0x3be80e6a, s, 7);
    FoldAt(0x3be80e6a, s, 8); FoldAt(0x3be80e6a, s, 9); FoldAt(0x3be80e6a, s, 10); FoldAt(0x3be80e6a, s, 11);
    FoldAt(0x3be80e6a, s, 12);
  }

  lemma Abcdef3Steps()
    ensures
      && Step(0x1816793a, 13) == 0x212c0d6a && Step(0x212c0d6a, 14) == 0xf95cffd
      && Step(0xf95cffd, 15) == 0x31223f8a && Step(0x31223f8a, 16) == 0x3311a03e
      && Step(0x3311a03e, 17) == 0xe08010d && Step(0xe08010d, 18) == 0x29be197
      && Step(0x29be197, 19) == 0x28166541 && Step(0x28166541, 20) == 0x3679d37d
      && Step(0x3679d37d, 21) == 0x556e704 && Step(0x556e704, 22) == 0xc8c6efb
      && Step(0xc8c6efb, 23) == 0x297c48e0 && Step(0x297c48e0, 24) == 0x1b3c6751
      && Step(0x1b3c6751, 25) == 0x3f0597ac
  {
  }

  lemma Abcdef3(s: seq<byte>)
    requires |s| == 13
    requires
      && s[0] == 13 && s[1] == 14 && s[2] == 15 && s[3] == 16 && s[4] == 17 && s[5] == 18 && s[6] == 19
      && s[7] == 20 && s[8] == 21 && s[9] == 22 && s[10] == 23 && s[11] == 24 && s[12] == 25
    ensures Fold(0x1816793a, s) == 0x3f0597ac
  {
    hide Step, Fold;
    Abcdef3Steps();
    FoldEmpty(0x1816793a);
    assert s[..0] == [] && s[..13] == s;
    FoldAt(0x1816793a, s, 0); FoldAt(0x1816793a, s, 1); FoldAt(0x1816793a, s, 2); FoldAt(0x1816793a, s, 3);
    FoldAt(0x1816793a, s, 4); FoldAt(0x1816793a, s, 5); FoldAt(0x1816793a, s, 6); FoldAt(0x1816793a, s, 7);
    FoldAt(0x1816793a, s, 8); FoldAt(0x1816793a, s, 9); FoldAt(0x1816793a, s, 10); FoldAt(0x1816793a, s, 11);
    FoldAt(0x1816793a, s, 12);
  }

  lemma Abcdef4Steps()
    ensures
      && Step(0x3f0597ac, 26) == 0x347f64d1 && Step(0x347f64d1, 27) == 0x3eea4538
      && Step(0x3eea4538, 28) == 0x9853657 && Step(0x9853657, 29) == 0x2e07d307
      && Step(0x2e07d307, 30) == 0x2975c268 && Step(0x2975c268, 31) == 0x1a0d3656
      && Step(0x1a0d3656, 27) == 0x192fb74e && Step(0x192fb74e, 0) == 0x615c3e7
      && Step(0x615c3e7, 0) == 0x1f82a53f && Step(0x1f82a53f, 0) == 0xe8d5418
      && Step(0xe8d5418, 6) == 0x12314323 && Step(0x12314323, 14) == 0x1
  {
  }

  lemma Abcdef4(s: seq<byte>)
    requires |s| == 12
    requires
      && s[0] == 26 && s[1] == 27 && s[2] == 28 && s[3] == 29 && s[4] == 30 && s[5] == 31 && s[6] == 27
      && s[7] == 0 && s[8] == 0 && s[9] == 0 && s[10] == 6 && s[11] == 14
    ensures Fold(0x3f0597ac, s) == 0x1
  {
    hide Step, Fold;
    Abcdef4Steps();
    FoldEmpty(0x3f0597ac);
    assert s[..0] == [] && s[..12] == s;
    FoldAt(0x3f0597ac, s, 0); FoldAt(0x3f0597ac, s, 1); FoldAt(0x3f0597ac, s, 2); FoldAt(0x3f0597ac, s, 3);
    FoldAt(0x3f0597ac, s, 4); FoldAt(0x3f0597ac, s, 5); FoldAt(0x3f0597ac, s, 6); FoldAt(0x3f0597ac, s, 7);
    FoldAt(0x3f0597ac, s, 8); FoldAt(0x3f0597ac, s, 9); FoldAt(0x3f0597ac, s, 10); FoldAt(0x3f0597ac, s, 11);
  }

  lemma EmptySteps()
    ensures
      && Step(0x1, 3) == 0x23 && Step(0x23, 0) == 0x460 && Step(0x460, 1) == 0x8c01
      && Step(0x8c01, 10) == 0x11802a && Step(0x11802a, 28) == 0x230055c && Step(0x230055c, 25) == 0x3d6afc2b
      && Step(0x3d6afc2b, 31) == 0x2f84386 && Step(0x2f84386, 20) == 0x24622766 && Step(0x24622766, 31) == 0x1
  {
  }

  lemma Empty(s: seq<byte>)
    requires |s| == 9
    requires
      && s[0] == 3 && s[1] == 0 && s[2] == 1 && s[3] == 10 && s[4] == 28 && s[5] == 25 && s[6] == 31
      && s[7] == 20 && s[8] == 31
    ensures Fold(0x1, s) == 0x1
  {
    hide Step, Fold;
    EmptySteps();
    FoldEmpty(0x1);
    assert s[..0] == [] && s[..9] == s;
    FoldAt(0x1, s, 0); FoldAt(0x1, s, 1); FoldAt(0x1, s, 2); FoldAt(0x1, s, 3); FoldAt(0x1, s, 4);
    FoldAt(0x1, s, 5); FoldAt(0x1, s, 6); FoldAt(0x1, s, 7); FoldAt(0x1, s, 8);
  }

  // ----- the word without data -----

  lemma EmptyVerifies(hrp: string)
    requires hrp == "a" || hrp == "A"
    ensures Tail(hrp, []) == [10, 28, 25, 31, 20, 31]
  {
    hide Fold, CheckSymbols, Verifies;
    var data, none: seq<nat> := [10, 28, 25, 31, 20, 31], [];
    ShortValues(hrp, data);
    Empty(Bits(Expand(hrp)) + Bits(data));
    VerifiesIs(hrp, data);
    assert none + data == data;
    TailExact(hrp, none, data);
  }

  lemma VerifiesIs(hrp: string, data: seq<nat>)
    requires IsAscii(hrp) && Quintets(data) && Quintets(Expand(hrp)) && Fold(1, Bits(Expand(hrp)) + Bits(data)) == 1
    ensures Verifies(hrp, data)
  {
  }

  lemma ShortValues(hrp: string, data: seq<nat>)
    requires (hrp == "a" || hrp == "A") && data == [10, 28, 25, 31, 20, 31]
    ensures Quintets(Expand(hrp)) && Quintets(data)
    ensures Bits(Expand(hrp)) + Bits(data) == [3, 0, 1, 10, 28, 25, 31, 20, 31]
  {
    assert ToLower(hrp)[0] == 'a';
    assert Expand(hrp) == [3, 0, 1];
  }

  lemma EmptyText(hrp: string)
    requires (hrp == "a" || hrp == "A") && Tail(hrp, []) == [10, 28, 25, 31, 20, 31]
    ensures Body(hrp, []) == "a12uel5l" && ToUpper(Body(hrp, [])) == "A12UEL5L"
    ensures Printable(hrp) && (IsLower(hrp) <==> hrp == "a") && (IsUpper(hrp) <==> hrp == "A")
  {
    hide Tail;
  }

  /** The shortest word of the standard, in both cases. */
  lemma EmptyWord(hrp: string, word: string)
    requires (hrp == "a" && word == "a12uel5l") || (hrp == "A" && word == "A12UEL5L")
    ensures IsAscii(hrp) && IsAscii(word) && Encoded(hrp, []) == Ok(word) && Decoded(word) == Ok((hrp, []))
  {
    hide Decoded, Tail, Regrouped, Body, ToUpper, ToLower, Expand, Chars;
    EmptyVerifies(hrp);
    EmptyText(hrp);
    BytesRoundTrip([]);
    RoundTrip(hrp, []);
  }

  // ----- the word with every symbol -----

  const ALPHABET := "qpzry9x8gf2tvdw0s3jn54khce6mua7l"

  const TAIL: seq<nat> := [27, 0, 0, 0, 6, 14]

  /** The 160-bit number whose five-bit digits are 0 to 31, as bytes. */
  const BYTES: seq<nat> := [0, 68, 50, 20, 199, 66, 84, 182, 53, 207, 132, 101, 58, 86, 215, 198, 117, 190, 119, 223]

  function Count(n: nat): (s: seq<nat>)
    ensures |s| == n && forall i | 0 <= i < n :: s[i] == i
  {
    seq(n, i requires 0 <= i < n => i)
  }

  lemma AlphabetAt(p: nat)
    requires p < 32
    ensures CharAt(p) == ALPHABET[p]
  {
  }

  lemma AllSymbols()
    ensures Quintets(Count(32)) && Chars(Count(32)) == ALPHABET
  {
    hide CharAt;
    forall p: nat | p < 32
      ensures CharAt(p) == ALPHABET[p]
    {
      AlphabetAt(p);
    }
  }

  lemma LongExpand(hrp: string)
    requires hrp == "abcdef"
    ensures ToLower(hrp) == hrp && IsAscii(hrp) && Printable(hrp)
    ensures Expand(hrp) == [3, 3, 3, 3, 3, 3, 0, 1, 2, 3, 4, 5, 6]
  {
    var r := Expand(hrp);
    assert ToLower(hrp) == hrp;
    assert r[0] == 3 && r[1] == 3 && r[2] == 3 && r[3] == 3 && r[4] == 3 && r[5] == 3 && r[6] == 0;
    assert r[7] == 1 && r[8] == 2 && r[9] == 3 && r[10] == 4 && r[11] == 5 && r[12] == 6;
  }

  lemma HeadBits(head: seq<nat>)
    requires head == [3, 3, 3, 3, 3, 3, 0, 1, 2, 3, 4, 5, 6]
    ensures Quintets(head) && Bits(head) == [3, 3, 3, 3, 3, 3, 0, 1, 2, 3, 4, 5, 6]
  {
  }

  /** Symbols that count up from 0 to 31 and end in TAIL. */
  predicate Counting(data: seq<nat>) {
    |data| == 38 && (forall i | 0 <= i < 32 :: data[i] == i) && data[32..] == TAIL
  }

  function CountingAt(i: nat): nat
    requires i < 38
  {
    if i < 32 then i else TAIL[i - 32]
  }

  lemma CountingQuintets(data: seq<nat>)
    requires Counting(data)
    ensures Quintets(data)
  {
    forall i | 0 <= i < |data|
      ensures data[i] < 32
    {
      assert i >= 32 ==> data[i] == TAIL[i - 32];
    }
  }

  lemma CountingBits(data: seq<nat>, i: nat)
    requires Counting(data) && Quintets(data) && i < 38
    ensures Bits(data)[i] == SymbolBits(CountingAt(i))
  {
    assert i >= 32 ==> data[i] == data[32..][i - 32];
  }

  lemma Fold2(data: seq<nat>)
    requires |data| == 38 && Counting(data) && Quintets(data)
    ensures Fold(0x3be80e6a, Bits(data)[0..13]) == 0x1816793a
  {
    hide Fold, Bits, Counting;
    forall i: nat | 0 <= i < 13
      ensures Bits(data)[i] == SymbolBits(CountingAt(i))
    {
      CountingBits(data, i);
    }
    Abcdef2(Bits(data)[0..13]);
  }

  lemma Fold3(data: seq<nat>)
    requires |data| == 38 && Counting(data) && Quintets(data)
    ensures Fold(0x1816793a, Bits(data)[13..26]) == 0x3f0597ac
  {
    hide Fold, Bits, Counting;
    forall i: nat | 13 <= i < 26
      ensures Bits(data)[i] == SymbolBits(CountingAt(i))
    {
      CountingBits(data, i);
    }
    Abcdef3(Bits(data)[13..26]);
  }

  lemma Fold4(data: seq<nat>)
    requires |data| == 38 && Counting(data) && Quintets(data)
    ensures Fold(0x3f0597ac, Bits(data)[26..38]) == 0x1
  {
    hide Fold, Bits, Counting;
    forall i: nat | 26 <= i < 38
      ensures Bits(data)[i] == SymbolBits(CountingAt(i))
    {
      CountingBits(data, i);
    }
    Abcdef4(Bits(data)[26..38]);
  }

  lemma LongFold(head: seq<nat>, data: seq<nat>)
    requires head == [3, 3, 3, 3, 3, 3, 0, 1, 2, 3, 4, 5, 6] && |data| == 38 && Counting(data)
    ensures Quintets(head) && Quintets(data) && Fold(1, Bits(head) + Bits(data)) == 1
  {
    hide Fold, Bits, Counting;
    CountingQuintets(data);
    HeadBits(head);
    var s := Bits(data);
    Abcdef1(Bits(head));
    Fold2(data);
    Fold3(data);
    Fold4(data);
    assert s == s[0..13] + (s[13..26] + s[26..38]);
    FoldConcat(1, Bits(head), s);
    FoldConcat(0x3be80e6a, s[0..13], s[13..26] + s[26..38]);
    FoldConcat(0x1816793a, s[13..26], s[26..38]);
  }

  lemma CountingIs(data: seq<nat>)
    requires data == Count(32) + TAIL
    ensures Counting(data)
  {
  }

  lemma LongVerifies(hrp: string)
    requires hrp == "abcdef" && IsAscii(hrp) && Quintets(Count(32))
    ensures Tail(hrp, Count(32)) == TAIL
  {
    hide Fold, CheckSymbols, Verifies, Expand, Count, Bits;
    LongExpand(hrp);
    CountingIs(Count(32) + TAIL);
    LongFold(Expand(hrp), Count(32) + TAIL);
    VerifiesIs(hrp, Count(32) + TAIL);
    TailExact(hrp, Count(32), TAIL);
  }

  // ----- its data as a number -----

  lemma NumAt(s: seq<nat>, k: nat, base: nat)
    requires k < |s|
    ensures Num(s[..k + 1], base) == Num(s[..k], base) * Pow2(base) + s[k]
  {
    NumSnoc(s[..k], s[k], base);
    assert s[..k] + [s[k]] == s[..k + 1];
  }

  lemma Symbols1(s: seq<nat>)
    requires |s| == 32 && Num(s[..0], 5) == 0
    requires
      && s[0] == 0 && s[1] == 1 && s[2] == 2 && s[3] == 3 && s[4] == 4 && s[5] == 5 && s[6] == 6 && s[7] == 7
      && s[8] == 8 && s[9] == 9 && s[10] == 10 && s[11] == 11 && s[12] == 12 && s[13] == 13 && s[14] == 14
      && s[15] == 15
    ensures Num(s[..16], 5) == 1257987325301383116239
  {
    hide Num, Pow2;
    Pow2Small();
    NumAt(s, 0, 5); NumAt(s, 1, 5); NumAt(s, 2, 5); NumAt(s, 3, 5); NumAt(s, 4, 5); NumAt(s, 5, 5);
    NumAt(s, 6, 5); NumAt(s, 7, 5); NumAt(s, 8, 5); NumAt(s, 9, 5); NumAt(s, 10, 5); NumAt(s, 11, 5);
    NumAt(s, 12, 5); NumAt(s, 13, 5); NumAt(s, 14, 5); NumAt(s, 15, 5);
  }

  lemma Symbols2(s: seq<nat>)
    requires |s| == 32 && Num(s[..16], 5) == 1257987325301383116239
    requires
      && s[16] == 16 && s[17] == 17 && s[18] == 18 && s[19] == 19 && s[20] == 20 && s[21] == 21 && s[22] == 22
      && s[23] == 23 && s[24] == 24 && s[25] == 25 && s[26] == 26 && s[27] == 27 && s[28] == 28 && s[29] == 29
      && s[30] == 30 && s[31] == 31
    ensures Num(s[..32], 5) == 1520813358304789717173449357665226867487963103
  {
    hide Num, Pow2;
    Pow2Small();
    NumAt(s, 16, 5); NumAt(s, 17, 5); NumAt(s, 18, 5); NumAt(s, 19, 5); NumAt(s, 20, 5); NumAt(s, 21, 5);
    NumAt(s, 22, 5); NumAt(s, 23, 5); NumAt(s, 24, 5); NumAt(s, 25, 5); NumAt(s, 26, 5); NumAt(s, 27, 5);
    NumAt(s, 28, 5); NumAt(s, 29, 5); NumAt(s, 30, 5); NumAt(s, 31, 5);
  }

  lemma Bytes1(s: seq<nat>)
    requires |s| == 20 && Num(s[..0], 8) == 0
    requires
      && s[0] == 0 && s[1] == 68 && s[2] == 50 && s[3] == 20 && s[4] == 199 && s[5] == 66 && s[6] == 84
      && s[7] == 182 && s[8] == 53 && s[9] == 207
    ensures Num(s[..10], 8) == 1257987325301383116239
  {
    hide Num, Pow2;
    Pow2Small();
    NumAt(s, 0, 8); NumAt(s, 1, 8); NumAt(s, 2, 8); NumAt(s, 3, 8); NumAt(s, 4, 8); NumAt(s, 5, 8);
    NumAt(s, 6, 8); NumAt(s, 7, 8); NumAt(s, 8, 8); NumAt(s, 9, 8);
  }

  lemma Bytes2(s: seq<nat>)
    requires |s| == 20 && Num(s[..10], 8) == 1257987325301383116239
    requires
      && s[10] == 132 && s[11] == 101 && s[12] == 58 && s[13] == 86 && s[14] == 215 && s[15] == 198
      && s[16] == 117 && s[17] == 190 && s[18] == 119 && s[19] == 223
    ensures Num(s[..20], 8) == 1520813358304789717173449357665226867487963103
  {
    hide Num, Pow2;
    Pow2Small();
    NumAt(s, 10, 8); NumAt(s, 11, 8); NumAt(s, 12, 8); NumAt(s, 13, 8); NumAt(s, 14, 8); NumAt(s, 15, 8);
    NumAt(s, 16, 8); NumAt(s, 17, 8); NumAt(s, 18, 8); NumAt(s, 19, 8);
  }

  lemma SymbolsNumber(symbols: seq<nat>)
    requires symbols == Count(32)
    ensures Num(symbols, 5) == 1520813358304789717173449357665226867487963103
  {
    hide Num, Count;
    assert symbols[..0] == [] && symbols[..32] == symbols;
    NumEmpty();
    Symbols1(symbols);
    Symbols2(symbols);
  }

  lemma BytesNumber(bytes: seq<nat>)
    requires bytes == BYTES
    ensures Num(bytes, 8) == 1520813358304789717173449357665226867487963103
  {
    hide Num;
    assert bytes[..0] == [] && bytes[..20] == bytes;
    NumEmpty();
    Bytes1(bytes);
    Bytes2(bytes);
  }

  lemma LongRegrouped(symbols: seq<nat>, bytes: seq<nat>)
    requires symbols == Count(32) && bytes == BYTES
    ensures Fits(bytes, 8) && Regrouped(bytes, 8, 5, true) == Ok(symbols)
  {
    hide Num, Pow2, Digits, Count;
    Pow2Small();
    SymbolsNumber(symbols);
    BytesNumber(bytes);
    DigitsOfNum(symbols, 5);
  }

  lemma NumEmpty()
    ensures Num([], 5) == 0 && Num([], 8) == 0
  {
  }

  lemma TailText()
    ensures Quintets(TAIL) && Chars(TAIL) == "mqqqxw"
  {
  }

  /** A word with every character of the alphabet. */
  lemma LongWord(hrp: string, word: string)
    requires hrp == "abcdef" && word == "abcdef" + "1" + ALPHABET + "mqqqxw"
    ensures IsAscii(hrp) && IsAscii(word) && Encoded(hrp, BYTES) == Ok(word) && Decoded(word) == Ok((hrp, BYTES))
  {
    hide Decoded, Tail, Regrouped, ToLower, ToUpper, Expand, Count, Chars, Fits, IsUpper;
    LongExpand(hrp);
    AllSymbols();
    LongVerifies(hrp);
    LongRegrouped(Count(32), BYTES);
    BytesRoundTrip(BYTES);
    TailText();
    RoundTrip(hrp, BYTES);
  }
}
