/**
 The Bech32 checksum (internal/age/bech32/bech32.go; BIP 173, section "Bech32", subsection "Checksum").

 The checksum is a linear code over GF(2): one step of the division is linear in (state, symbol), and
 injective on 30-bit states. Everything promised about the checksum follows from those two facts.
 */
module Checksum {
  type byte = bv8

  function Generator(i: nat): bv32
    requires i < 5
  {
    match i
    case 0 => 0x3b6a57b2
    case 1 => 0x26508e6d
    case 2 => 0x1ea119fa
    case 3 => 0x3d4233dd
    case _ => 0x2a1462b3
  }

  /** A five-bit symbol of the data part. */
  predicate Symbol(v: byte) {
    v < 32
  }

  predicate Symbols(s: seq<byte>) {
    forall i | 0 <= i < |s| :: Symbol(s[i])
  }

  // ----- the specification of polymod -----

  function Xor(a: bv32, b: bv32): bv32 {
    a ^ b
  }

  function XorByte(a: byte, b: byte): byte {
    a ^ b
  }

  function BitAt(top: bv32, i: nat): bv32
    requires i < 5
  {
    (top >> i) & 1
  }

  /** Bit i of top; BitTests equates it with BitAt(top, i) == 1. */
  predicate Bit(top: bv32, i: nat)
    requires i < 5
  {
    match i
    case 0 => top & 1 != 0
    case 1 => top & 2 != 0
    case 2 => top & 4 != 0
    case 3 => top & 8 != 0
    case _ => top & 16 != 0
  }

  function Pick(top: bv32, i: nat): bv32
    requires i < 5
  {
    if Bit(top, i) then Generator(i) else 0
  }

  /** The generators selected by the low n bits of top. */
  function Mix(top: bv32, n: nat): bv32
    requires n <= 5
  {
    if n == 0 then 0 else Xor(Mix(top, n - 1), Pick(top, n - 1))
  }

  function Top(chk: bv32): bv32 {
    chk >> 25
  }

  /** The state with the next symbol shifted in, before the generators are added. */
  function Shifted(chk: bv32, v: byte): bv32 {
    ((chk & 0x1ffffff) << 5) ^ (v as bv32)
  }

  function Step(chk: bv32, v: byte): bv32 {
    Xor(Shifted(chk, v), Mix(Top(chk), 5))
  }

  function Fold(chk: bv32, values: seq<byte>): bv32 {
    if values == [] then chk else Step(Fold(chk, values[..|values| - 1]), values[|values| - 1])
  }

  // ----- xor -----

  lemma XorAssoc(a: bv32, b: bv32, c: bv32)
    ensures Xor(Xor(a, b), c) == Xor(a, Xor(b, c))
  {
    assert (a ^ b) ^ c == a ^ (b ^ c);
  }

  lemma XorComm(a: bv32, b: bv32)
    ensures Xor(a, b) == Xor(b, a)
  {
  }

  lemma XorZero(a: bv32)
    ensures Xor(a, 0) == a && Xor(0, a) == a && Xor(a, a) == 0
  {
  }

  lemma XorSwap(a: bv32, b: bv32, c: bv32, d: bv32)
    ensures Xor(Xor(a, b), Xor(c, d)) == Xor(Xor(a, c), Xor(b, d))
  {
    hide Xor;
    XorAssoc(a, b, Xor(c, d));
    XorAssoc(b, c, d);
    XorComm(b, c);
    XorAssoc(c, b, d);
    XorAssoc(a, c, Xor(b, d));
  }

  // ----- one step is linear -----

  lemma BitTests(top: bv32, i: nat)
    requires i < 5
    ensures Bit(top, i) == (BitAt(top, i) == 1)
  {
    if i == 0 {
    } else if i == 1 {
    } else if i == 2 {
    } else if i == 3 {
    } else {
    }
  }

  lemma BitLinear(a: bv32, b: bv32, i: nat)
    requires i < 5
    ensures Bit(Xor(a, b), i) == (Bit(a, i) != Bit(b, i))
  {
    if i == 0 {
    } else if i == 1 {
    } else if i == 2 {
    } else if i == 3 {
    } else {
    }
  }

  lemma PickLinear(a: bv32, b: bv32, i: nat)
    requires i < 5
    ensures Pick(Xor(a, b), i) == Xor(Pick(a, i), Pick(b, i))
  {
    hide Xor, Bit;
    BitLinear(a, b, i);
    XorZero(Generator(i));
    XorZero(0);
  }

  lemma PickIs(top: bv32, i: nat)
    requires i < 5
    ensures Pick(top, i) == if Bit(top, i) then Generator(i) else 0
  {
  }

  lemma MixUnfold(top: bv32, n: nat)
    requires n <= 5
    ensures Mix(top, n) == if n == 0 then 0 else Xor(Mix(top, n - 1), Pick(top, n - 1))
  {
  }

  lemma {:induction false} MixLinear(a: bv32, b: bv32, n: nat)
    requires n <= 5
    ensures Mix(Xor(a, b), n) == Xor(Mix(a, n), Mix(b, n))
  {
    hide *;
    MixUnfold(Xor(a, b), n);
    MixUnfold(a, n);
    MixUnfold(b, n);
    if n == 0 {
      XorZero(0);
    } else {
      MixLinear(a, b, n - 1);
      PickLinear(a, b, n - 1);
      XorSwap(Mix(a, n - 1), Mix(b, n - 1), Pick(a, n - 1), Pick(b, n - 1));
    }
  }

  lemma ShiftLinear(a: bv32, b: bv32, u: byte, v: byte)
    ensures Shifted(Xor(a, b), XorByte(u, v)) == Xor(Shifted(a, u), Shifted(b, v))
    ensures Top(Xor(a, b)) == Xor(Top(a), Top(b))
  {
  }

  lemma StepUnfold(a: bv32, u: byte)
    ensures Step(a, u) == Xor(Shifted(a, u), Mix(Top(a), 5))
  {
  }

  lemma StepLinear(a: bv32, b: bv32, u: byte, v: byte)
    ensures Step(Xor(a, b), XorByte(u, v)) == Xor(Step(a, u), Step(b, v))
  {
    hide *;
    StepUnfold(Xor(a, b), XorByte(u, v));
    StepUnfold(a, u);
    StepUnfold(b, v);
    ShiftLinear(a, b, u, v);
    MixLinear(Top(a), Top(b), 5);
    XorSwap(Shifted(a, u), Shifted(b, v), Mix(Top(a), 5), Mix(Top(b), 5));
  }

  method Polymod(values: seq<byte>) returns (chk: bv32)
    ensures chk == Fold(1, values)
  {
    hide *;
    chk := 1;
    FoldEmpty(1);
    for k := 0 to |values|
      invariant chk == Fold(1, values[..k])
    {
      ghost var before := chk;
      var top := chk >> 25;
      chk := (chk & 0x1ffffff) << 5;
      chk := chk ^ (values[k] as bv32);
      ShiftedIs(before, values[k]);
      chk := AddGenerators(chk, top);
      StepUnfold(before, values[k]);
      FoldSnoc(1, values[..k], values[k]);
      assert values[..k + 1] == values[..k] + [values[k]];
    }
    assert values[..|values|] == values;
  }

  /** The inner loop of polymod. */
  method AddGenerators(shifted: bv32, top: bv32) returns (chk: bv32)
    ensures chk == Xor(shifted, Mix(top, 5))
  {
    hide *;
    chk := shifted;
    MixUnfold(top, 0);
    XorZero(shifted);
    for i := 0 to 5
      invariant chk == Xor(shifted, Mix(top, i))
    {
      var bit := BitAt(top, i);
      BitTests(top, i);
      PickIs(top, i);
      MixUnfold(top, i + 1);
      XorAssoc(shifted, Mix(top, i), Pick(top, i));
      XorZero(chk);
      if bit == 1 {
        chk := Xor(chk, Generator(i));
      }
    }
  }

  lemma FoldEmpty(chk: bv32)
    ensures Fold(chk, []) == chk
  {
  }

  lemma ShiftedIs(chk: bv32, v: byte)
    ensures Shifted(chk, v) == ((chk & 0x1ffffff) << 5) ^ (v as bv32)
    ensures Top(chk) == chk >> 25
  {
  }

  lemma FoldSnoc(chk: bv32, values: seq<byte>, v: byte)
    ensures Fold(chk, values + [v]) == Step(Fold(chk, values), v)
  {
    hide Step;
    assert (values + [v])[..|values|] == values;
  }

  lemma {:induction false} FoldConcat(chk: bv32, a: seq<byte>, b: seq<byte>)
    ensures Fold(chk, a + b) == Fold(Fold(chk, a), b)
  {
    hide Step;
    if b == [] {
      assert a + b == a;
    } else {
      var init, last := b[..|b| - 1], b[|b| - 1];
      assert a + b == (a + init) + [last] && b == init + [last];
      FoldConcat(chk, a, init);
      FoldSnoc(chk, a + init, last);
      FoldSnoc(Fold(chk, a), init, last);
    }
  }

  function XorSeq(a: seq<byte>, b: seq<byte>): (r: seq<byte>)
    requires |a| == |b|
    ensures |r| == |a|
  {
    seq(|a|, i requires 0 <= i < |a| => XorByte(a[i], b[i]))
  }

  lemma {:induction false} FoldLinear(x: bv32, y: bv32, a: seq<byte>, b: seq<byte>)
    requires |a| == |b|
    ensures Fold(Xor(x, y), XorSeq(a, b)) == Xor(Fold(x, a), Fold(y, b))
  {
    hide Step, Xor, XorByte;
    if a != [] {
      var n := |a| - 1;
      FoldLinear(x, y, a[..n], b[..n]);
      assert XorSeq(a, b)[..n] == XorSeq(a[..n], b[..n]);
      StepLinear(Fold(x, a[..n]), Fold(y, b[..n]), a[n], b[n]);
    }
  }

  // ----- states stay within 30 bits, and a step is injective on them -----

  const LIMIT: bv32 := 0x40000000

  lemma MixBound(top: bv32)
    ensures Mix(top, 5) < LIMIT
  {
    hide Pick;
    PickBound(top, 0); PickBound(top, 1); PickBound(top, 2); PickBound(top, 3); PickBound(top, 4);
    MixUnfold(top, 0);
    MixUnfold(top, 1);
    MixUnfold(top, 2);
    MixUnfold(top, 3);
    MixUnfold(top, 4);
    MixUnfold(top, 5);
  }

  lemma PickBound(top: bv32, i: nat)
    requires i < 5
    ensures Pick(top, i) < LIMIT
  {
  }

  lemma StepBound(chk: bv32, v: byte)
    requires Symbol(v)
    ensures Step(chk, v) < LIMIT
  {
    hide Mix;
    MixBound(Top(chk));
  }

  lemma FoldBound(chk: bv32, s: seq<byte>)
    requires chk < LIMIT && Symbols(s)
    ensures Fold(chk, s) < LIMIT
  {
    hide Step;
    if s != [] {
      StepBound(Fold(chk, s[..|s| - 1]), s[|s| - 1]);
    }
  }

  /** The five generators are independent in their low five bits, so a zero step comes from a zero state. */
  lemma StepZero(x: bv32)
    requires x < LIMIT && Step(x, 0) == 0
    ensures x == 0
  {
    var t := Top(x);
    MixUnfold(t, 0);
    MixUnfold(t, 1);
    MixUnfold(t, 2);
    MixUnfold(t, 3);
    MixUnfold(t, 4);
    MixUnfold(t, 5);
  }

  lemma StepInjective(x: bv32, y: bv32, v: byte)
    requires x < LIMIT && y < LIMIT && Step(x, v) == Step(y, v)
    ensures x == y
  {
    hide Step;
    StepLinear(x, y, v, v);
    XorZero(Step(x, v));
    StepZero(Xor(x, y));
  }

  lemma {:induction false} FoldInjective(x: bv32, y: bv32, s: seq<byte>)
    requires x < LIMIT && y < LIMIT && Symbols(s) && Fold(x, s) == Fold(y, s)
    ensures x == y
  {
    hide Step;
    if s != [] {
      var n := |s| - 1;
      FoldBound(x, s[..n]);
      FoldBound(y, s[..n]);
      StepInjective(Fold(x, s[..n]), Fold(y, s[..n]), s[n]);
      FoldInjective(x, y, s[..n]);
    }
  }

  // ----- six symbols fill an empty state exactly -----

  lemma StepSmall(x: bv32, v: byte)
    requires x < 0x2000000
    ensures Step(x, v) == (x << 5) ^ (v as bv32)
  {
    hide Pick;
    NoPick(Top(x), 0); NoPick(Top(x), 1); NoPick(Top(x), 2); NoPick(Top(x), 3); NoPick(Top(x), 4);
    MixUnfold(Top(x), 0);
    MixUnfold(Top(x), 1);
    MixUnfold(Top(x), 2);
    MixUnfold(Top(x), 3);
    MixUnfold(Top(x), 4);
    MixUnfold(Top(x), 5);
  }

  lemma NoPick(top: bv32, i: nat)
    requires top == 0 && i < 5
    ensures Pick(top, i) == 0
  {
  }

  function Next(x: bv32, v: byte): bv32 {
    (x << 5) ^ (v as bv32)
  }

  function Pack6(a: byte, b: byte, c: byte, d: byte, e: byte, f: byte): bv32 {
    Next(Next(Next(Next(Next(Next(0, a), b), c), d), e), f)
  }

  /** The 30-bit word whose five-bit digits are the six symbols, most significant first. */
  function Pack(s: seq<byte>): bv32
    requires |s| == 6
  {
    Pack6(s[0], s[1], s[2], s[3], s[4], s[5])
  }

  /** Symbol p of a 30-bit word: byte(mod >> (5 * (5 - p))) & 31. */
  function Digit(mod: bv32, shift: nat): byte
    requires shift <= 25
  {
    (((mod >> shift) & 0xff) as byte) & 31
  }

  function Unpack(mod: bv32): seq<byte> {
    [Digit(mod, 25), Digit(mod, 20), Digit(mod, 15), Digit(mod, 10), Digit(mod, 5), Digit(mod, 0)]
  }

  lemma DigitsOfPack(a: byte, b: byte, c: byte, d: byte, e: byte, f: byte)
    requires a < 32 && b < 32 && c < 32 && d < 32 && e < 32 && f < 32
    ensures Digit(Pack6(a, b, c, d, e, f), 25) == a
    ensures Digit(Pack6(a, b, c, d, e, f), 20) == b
    ensures Digit(Pack6(a, b, c, d, e, f), 15) == c
    ensures Digit(Pack6(a, b, c, d, e, f), 10) == d
    ensures Digit(Pack6(a, b, c, d, e, f), 5) == e
    ensures Digit(Pack6(a, b, c, d, e, f), 0) == f
  {
  }

  /** Appending a digit of a word to the digits above it. */
  lemma Append25(m: bv32)
    requires m < LIMIT
    ensures Next(0, Digit(m, 25)) == m >> 25
  {
    assert m >> 25 < 32;
  }

  lemma Append20(m: bv32)
    requires m < LIMIT
    ensures Next(m >> 25, Digit(m, 20)) == m >> 20
  {
  }

  lemma Append15(m: bv32)
    requires m < LIMIT
    ensures Next(m >> 20, Digit(m, 15)) == m >> 15
  {
  }

  lemma Append10(m: bv32)
    requires m < LIMIT
    ensures Next(m >> 15, Digit(m, 10)) == m >> 10
  {
  }

  lemma Append5(m: bv32)
    requires m < LIMIT
    ensures Next(m >> 10, Digit(m, 5)) == m >> 5
  {
  }

  lemma Append0(m: bv32)
    requires m < LIMIT
    ensures Next(m >> 5, Digit(m, 0)) == m
  {
  }

  lemma PackOfDigits(m: bv32)
    requires m < LIMIT
    ensures Pack6(Digit(m, 25), Digit(m, 20), Digit(m, 15), Digit(m, 10), Digit(m, 5), Digit(m, 0)) == m
  {
    hide Next, Digit;
    Append25(m);
    Append20(m);
    Append15(m);
    Append10(m);
    Append5(m);
    Append0(m);
  }

  lemma DigitIsSymbol(m: bv32, shift: nat)
    requires shift <= 25
    ensures Symbol(Digit(m, shift))
  {
  }

  lemma UnpackPack(s: seq<byte>)
    requires |s| == 6 && Symbols(s)
    ensures Unpack(Pack(s)) == s
  {
    hide Digit, Pack6;
    DigitsOfPack(s[0], s[1], s[2], s[3], s[4], s[5]);
  }

  lemma PackUnpack(m: bv32)
    requires m < LIMIT
    ensures |Unpack(m)| == 6 && Symbols(Unpack(m)) && Pack(Unpack(m)) == m
  {
    hide Digit, Pack6, Symbol;
    PackOfDigits(m);
    DigitIsSymbol(m, 25); DigitIsSymbol(m, 20); DigitIsSymbol(m, 15);
    DigitIsSymbol(m, 10); DigitIsSymbol(m, 5); DigitIsSymbol(m, 0);
  }

  function PackTo(s: seq<byte>, k: nat): bv32
    requires k <= |s|
  {
    if k == 0 then 0 else Next(PackTo(s, k - 1), s[k - 1])
  }

  /** 32 to the power k. */
  function Room(k: nat): bv32
    requires k <= 6
  {
    match k
    case 0 => 0x1
    case 1 => 0x20
    case 2 => 0x400
    case 3 => 0x8000
    case 4 => 0x100000
    case 5 => 0x2000000
    case _ => 0x40000000
  }

  lemma NextBound(x: bv32, v: byte, k: nat)
    requires Symbol(v) && k < 6 && x < Room(k)
    ensures Next(x, v) < Room(k + 1) && Step(x, v) == Next(x, v)
  {
    StepSmall(x, v);
  }

  lemma SymbolAt(s: seq<byte>, i: nat)
    requires Symbols(s) && i < |s|
    ensures Symbol(s[i])
  {
  }

  lemma PackToUnfold(s: seq<byte>, k: nat)
    requires k <= |s| && k <= 6
    ensures PackTo(s, k) == if k == 0 then 0 else Next(PackTo(s, k - 1), s[k - 1])
    ensures PackTo(s, 0) < Room(0)
  {
  }

  lemma {:induction false} FoldPack(s: seq<byte>, k: nat)
    requires k <= |s| && k <= 6 && Symbols(s)
    ensures Fold(0, s[..k]) == PackTo(s, k) && PackTo(s, k) < Room(k)
  {
    hide *;
    PackToUnfold(s, k);
    if k == 0 {
      FoldEmpty(0);
    } else {
      FoldPack(s, k - 1);
      SymbolAt(s, k - 1);
      NextBound(PackTo(s, k - 1), s[k - 1], k - 1);
      FoldSnoc(0, s[..k - 1], s[k - 1]);
      assert s[..k] == s[..k - 1] + [s[k - 1]];
    }
  }

  lemma FoldSix(s: seq<byte>)
    requires |s| == 6 && Symbols(s)
    ensures Fold(0, s) == Pack(s)
  {
    hide Step, Next, Fold, Symbols, PackTo, Room;
    FoldPack(s, 6);
    assert s[..6] == s;
    PackToUnfold(s, 0); PackToUnfold(s, 1); PackToUnfold(s, 2); PackToUnfold(s, 3);
    PackToUnfold(s, 4); PackToUnfold(s, 5); PackToUnfold(s, 6);
  }

  // ----- six checksum symbols exist and are unique -----

  function Zeros(n: nat): (s: seq<byte>)
    ensures |s| == n
  {
    seq(n, _ => 0)
  }

  lemma {:induction false} FoldZeros(n: nat)
    ensures Fold(0, Zeros(n)) == 0
  {
    hide Step;
    if n > 0 {
      FoldZeros(n - 1);
      assert Zeros(n)[..n - 1] == Zeros(n - 1);
      StepOfZero();
    }
  }

  lemma StepOfZero()
    ensures Step(0, 0) == 0
  {
    StepSmall(0, 0);
  }

  function CheckSymbols(values: seq<byte>): seq<byte> {
    Unpack(Xor(Fold(1, values + Zeros(6)), 1))
  }

  /** Six symbols close a word exactly when they are the computed ones. */
  lemma ChecksumExact(values: seq<byte>, tail: seq<byte>)
    requires Symbols(values) && Symbols(tail) && |tail| == 6
    ensures Fold(1, values + tail) == 1 <==> tail == CheckSymbols(values)
  {
    hide *;
    var open := values + Zeros(6);
    var m := Fold(1, open);
    var patch := Zeros(|values|) + tail;
    assert XorSeq(open, patch) == values + tail by {
      ZeroPatch(values, tail);
    }
    XorZero(1);
    FoldLinear(1, 0, open, patch);
    FoldConcat(0, Zeros(|values|), tail);
    FoldZeros(|values|);
    FoldSix(tail);
    assert Fold(1, values + tail) == Xor(m, Pack(tail));
    OpenBound(values);
    XorSolve(m, Pack(tail));
    PackUnpack(Xor(m, 1));
    UnpackPack(tail);
    ChecksumIs(values);
  }

  lemma ChecksumIs(values: seq<byte>)
    ensures CheckSymbols(values) == Unpack(Xor(Fold(1, values + Zeros(6)), 1))
  {
  }

  lemma ZeroPatch(values: seq<byte>, tail: seq<byte>)
    requires |tail| == 6
    ensures XorSeq(values + Zeros(6), Zeros(|values|) + tail) == values + tail
  {
  }

  lemma OpenBound(values: seq<byte>)
    requires Symbols(values)
    ensures Fold(1, values + Zeros(6)) < LIMIT && Xor(Fold(1, values + Zeros(6)), 1) < LIMIT
  {
    hide Fold;
    FoldBound(1, values + Zeros(6));
  }

  lemma XorSolve(m: bv32, x: bv32)
    ensures Xor(m, x) == 1 <==> x == Xor(m, 1)
  {
    hide Xor;
    XorAssoc(m, m, x);
    XorAssoc(m, m, 1);
    XorZero(m);
    XorZero(x);
    XorZero(1);
  }

  lemma ChecksumCloses(values: seq<byte>)
    requires Symbols(values)
    ensures |CheckSymbols(values)| == 6 && Symbols(CheckSymbols(values))
    ensures Fold(1, values + CheckSymbols(values)) == 1
  {
    hide *;
    ChecksumIs(values);
    OpenBound(values);
    PackUnpack(Xor(Fold(1, values + Zeros(6)), 1));
    ChecksumExact(values, CheckSymbols(values));
  }

  // ----- error detection -----

  lemma ShortNonzero(d: seq<byte>)
    requires |d| <= 6 && Symbols(d) && Fold(0, d) == 0
    ensures d == Zeros(|d|)
  {
    hide *;
    var pad := Zeros(6 - |d|);
    var s := pad + d;
    FoldConcat(0, pad, d);
    FoldZeros(6 - |d|);
    PadSymbols(d);
    FoldSix(s);
    FoldSix(Zeros(6));
    FoldZeros(6);
    UnpackPack(s);
    UnpackPack(Zeros(6));
    assert d == s[6 - |d|..];
    DropZeros(6 - |d|);
  }

  lemma PadSymbols(d: seq<byte>)
    requires |d| <= 6 && Symbols(d)
    ensures Symbols(Zeros(6 - |d|) + d) && Symbols(Zeros(6))
  {
  }

  lemma DropZeros(k: nat)
    requires k <= 6
    ensures Zeros(6)[k..] == Zeros(6 - k)
  {
  }

  /** From the same state, different bursts of up to six symbols lead to different states. */
  lemma BurstInjective(state: bv32, x: seq<byte>, y: seq<byte>)
    requires |x| == |y| <= 6 && Symbols(x) && Symbols(y) && Fold(state, x) == Fold(state, y)
    ensures x == y
  {
    hide Fold, Step, Xor;
    XorZero(state);
    XorZero(Fold(state, x));
    FoldLinear(state, state, x, y);
    ShortNonzero(XorSeq(x, y));
    forall i | 0 <= i < |x|
      ensures x[i] == y[i]
    {
      assert XorSeq(x, y)[i] == Zeros(|x|)[i];
    }
  }

  lemma BurstBetween(a: seq<byte>, x: seq<byte>, y: seq<byte>, c: seq<byte>)
    requires |x| == |y| <= 6 && x != y
    requires Symbols(a) && Symbols(x) && Symbols(y) && Symbols(c)
    requires Fold(1, a + x + c) == 1
    ensures Fold(1, a + y + c) != 1
  {
    hide Fold, Step, Symbol, Symbols;
    FoldConcat(1, a + x, c);
    FoldConcat(1, a + y, c);
    FoldConcat(1, a, x);
    FoldConcat(1, a, y);
    OneBound();
    FoldBound(1, a);
    FoldBound(Fold(1, a), x);
    FoldBound(Fold(1, a), y);
    if Fold(1, a + y + c) == 1 {
      FoldInjective(Fold(1, a + x), Fold(1, a + y), c);
      BurstInjective(Fold(1, a), x, y);
    }
  }

  lemma OneBound()
    ensures 1 < LIMIT
  {
  }

  /** No change confined to six consecutive positions of a valid word leaves it valid, at any length. */
  lemma BurstDetected(word: seq<byte>, changed: seq<byte>, p: nat)
    requires |word| == |changed| && Symbols(word) && Symbols(changed) && word != changed
    requires forall i | 0 <= i < |word| && !(p <= i < p + 6) :: word[i] == changed[i]
    requires Fold(1, word) == 1
    ensures Fold(1, changed) != 1
  {
    hide Fold;
    var lo := if p < |word| then p else |word|;
    var hi := if p + 6 < |word| then p + 6 else |word|;
    SplitTwice(word, lo, hi);
    SplitTwice(changed, lo, hi);
    assert changed[..lo] == word[..lo] && changed[hi..] == word[hi..];
    BurstBetween(word[..lo], word[lo..hi], changed[lo..hi], word[hi..]);
  }

  lemma SplitTwice(s: seq<byte>, lo: nat, hi: nat)
    requires lo <= hi <= |s|
    ensures s == s[..lo] + s[lo..hi] + s[hi..]
  {
  }

  // ----- the code is linear over GF(32) -----

  /** The product of a symbol with x in GF(32), the polynomials over GF(2) modulo x^5 + x^3 + 1. */
  function TimesX(v: byte): byte {
    if v & 16 != 0 then ((v & 15) << 1) ^ 9 else v << 1
  }

  /** The same for the low five bits of a word. */
  function TopTimesX(t: bv32): bv32 {
    if t & 16 != 0 then ((t & 15) << 1) ^ 9 else t << 1
  }

  /** The top bit of each five-bit digit, moved to the bottom of its digit. */
  function Carries(w: bv32): bv32 {
    (w >> 4) & 0x2108421
  }

  function Doubled(w: bv32): bv32 {
    (w & 0x1ef7bdef) << 1
  }

  /** x^5 is x^3 + 1. */
  function Nine(w: bv32): bv32 {
    (w & 0x2108421) ^ ((w & 0x2108421) << 3)
  }

  /** Every digit of a 30-bit word multiplied by x. */
  function DigitsTimesX(w: bv32): bv32 {
    Xor(Doubled(w), Nine(Carries(w)))
  }

  /** Each generator is the one before with every digit multiplied by x; the first one closes the circle. */
  lemma GeneratorTimesX(i: nat)
    requires i < 5
    ensures DigitsTimesX(Generator(i)) == if i < 4 then Generator(i + 1) else Xor(Generator(3), Generator(0))
  {
  }

  lemma XorTimesX(a: bv32, b: bv32)
    ensures DigitsTimesX(Xor(a, b)) == Xor(DigitsTimesX(a), DigitsTimesX(b))
  {
    hide *;
    DigitsTimesXIs(a);
    DigitsTimesXIs(b);
    DigitsTimesXIs(Xor(a, b));
    DoubledLinear(a, b);
    CarriesLinear(a, b);
    NineLinear(Carries(a), Carries(b));
    XorSwap(Doubled(a), Doubled(b), Nine(Carries(a)), Nine(Carries(b)));
  }

  lemma DigitsTimesXIs(w: bv32)
    ensures DigitsTimesX(w) == Xor(Doubled(w), Nine(Carries(w)))
  {
  }

  lemma DoubledLinear(a: bv32, b: bv32)
    ensures Doubled(Xor(a, b)) == Xor(Doubled(a), Doubled(b))
  {
  }

  lemma CarriesLinear(a: bv32, b: bv32)
    ensures Carries(Xor(a, b)) == Xor(Carries(a), Carries(b))
  {
  }

  lemma NineLinear(a: bv32, b: bv32)
    ensures Nine(Xor(a, b)) == Xor(Nine(a), Nine(b))
  {
  }

  lemma ShiftTimesX(chk: bv32, v: byte)
    requires chk < LIMIT && Symbol(v)
    ensures Shifted(DigitsTimesX(chk), TimesX(v)) == DigitsTimesX(Shifted(chk, v))
  {
  }

  lemma TopsTimesX(chk: bv32)
    requires chk < LIMIT
    ensures Top(DigitsTimesX(chk)) == TopTimesX(Top(chk)) && Top(chk) < 32 && DigitsTimesX(chk) < LIMIT
  {
  }

  lemma MixTimesX(t: bv32)
    requires t < 32
    ensures Mix(TopTimesX(t), 5) == DigitsTimesX(Mix(t, 5))
  {
    var u := TopTimesX(t);
    MixUnfold(t, 0);
    MixUnfold(t, 1);
    MixUnfold(t, 2);
    MixUnfold(t, 3);
    MixUnfold(t, 4);
    MixUnfold(t, 5);
    MixUnfold(u, 0);
    MixUnfold(u, 1);
    MixUnfold(u, 2);
    MixUnfold(u, 3);
    MixUnfold(u, 4);
    MixUnfold(u, 5);
  }

  lemma StepTimesX(chk: bv32, v: byte)
    requires chk < LIMIT && Symbol(v)
    ensures Step(DigitsTimesX(chk), TimesX(v)) == DigitsTimesX(Step(chk, v))
  {
    hide *;
    StepUnfold(chk, v);
    StepUnfold(DigitsTimesX(chk), TimesX(v));
    ShiftTimesX(chk, v);
    TopsTimesX(chk);
    MixTimesX(Top(chk));
    XorTimesX(Shifted(chk, v), Mix(Top(chk), 5));
  }

  function SymbolsTimesX(s: seq<byte>): (r: seq<byte>)
    ensures |r| == |s|
  {
    seq(|s|, i requires 0 <= i < |s| => TimesX(s[i]))
  }

  /** With FoldLinear: the checksum is linear over GF(32), which x generates. */
  lemma {:induction false} FoldTimesX(chk: bv32, s: seq<byte>)
    requires chk < LIMIT && Symbols(s)
    ensures Fold(DigitsTimesX(chk), SymbolsTimesX(s)) == DigitsTimesX(Fold(chk, s))
  {
    hide Step, DigitsTimesX, TimesX;
    if s != [] {
      var n := |s| - 1;
      FoldTimesX(chk, s[..n]);
      assert SymbolsTimesX(s)[..n] == SymbolsTimesX(s[..n]);
      FoldBound(chk, s[..n]);
      StepTimesX(Fold(chk, s[..n]), s[n]);
    }
  }
}
