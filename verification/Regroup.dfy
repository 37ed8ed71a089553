/**
 convertBits (internal/age/bech32/bech32.go:79-106): regrouping a sequence of from-bit digits into to-bit
 digits with a 32-bit accumulator, proved equal to re-writing the number the digits stand for.
 */
module Regroup {
  import opened Results
  import opened Nonlinear
  import opened Radix

  datatype BitsError = InvalidRange | IllegalPadding | NonZeroPadding

  /** 2^32: the accumulator of convertBits is a uint32 and wraps around. */
  function Wrap(): nat {
    Pow2(32)
  }

  function Width(digits: seq<nat>, k: nat): nat {
    MulNonNeg(k, |digits|);
    k * |digits|
  }

  /**
   The digits of the same number in base 2^to: filled up on the right with zero bits when padding, or with the
   surplus low bits dropped otherwise, which must then be zero and fewer than one input digit.
   */
  function Regrouped(data: seq<nat>, from: nat, to: nat, pad: bool): Result<seq<nat>, BitsError>
    requires 1 <= to
  {
    var total := Width(data, from);
    var whole, rest := total / to, total % to;
    var n := Num(data, from);
    if !Fits(data, from) then
      Err(InvalidRange)
    else if pad then
      if rest == 0 then Ok(Digits(n, to, whole)) else Ok(Digits(n * Pow2(to - rest), to, whole + 1))
    else if rest >= from then
      Err(IllegalPadding)
    else if Last(n, rest) != 0 then
      Err(NonZeroPadding)
    else
      Ok(Digits(Rest(n, rest), to, whole))
  }

  /** The number written by data is the number written by ret followed by low in `bits` more bits. */
  ghost predicate Split(data: seq<nat>, from: nat, ret: seq<nat>, to: nat, bits: nat, low: nat) {
    && Fits(ret, to)
    && Width(data, from) == Width(ret, to) + bits
    && Num(data, from) == Num(ret, to) * Pow2(bits) + low
    && low < Pow2(bits)
  }

  lemma WidthSnoc(s: seq<nat>, d: nat, k: nat)
    ensures Width(s + [d], k) == Width(s, k) + k
  {
    MulDistrib(|s|, 1, k);
  }

  lemma Feed(data: seq<nat>, from: nat, ret: seq<nat>, to: nat, bits: nat, low: nat, v: nat)
    requires Split(data, from, ret, to, bits, low) && v < Pow2(from)
    ensures low * Pow2(from) + v >= 0
    ensures Split(data + [v], from, ret, to, bits + from, low * Pow2(from) + v)
  {
    hide Num, Fits, Width, Pow2;
    WidthSnoc(data, v, from);
    NumSnoc(data, v, from);
    Pow2Sum(bits, from);
    ScaleAdd(Num(ret, to), Pow2(bits), low, Pow2(from), v);
  }

  lemma Emit(data: seq<nat>, from: nat, ret: seq<nat>, to: nat, bits: nat, d: nat, low: nat)
    requires bits >= to && d < Pow2(to) && low < Pow2(bits - to)
    requires d * Pow2(bits - to) + low >= 0
    requires Split(data, from, ret, to, bits, d * Pow2(bits - to) + low)
    ensures Split(data, from, ret + [d], to, bits - to, low)
  {
    hide Num, Width, Pow2;
    WidthSnoc(ret, d, to);
    NumSnoc(ret, d, to);
    Pow2Sum(to, bits - to);
    ScaleAdd(Num(ret, to), Pow2(to), d, Pow2(bits - to), low);
  }

  /** Shifting a wrapping accumulator and adding a digit keeps the pending low bits intact. */
  lemma ShiftIn(acc: nat, bits: nat, from: nat, v: nat)
    requires v < Pow2(from) && bits + from <= 32
    ensures ((acc * Pow2(from)) % Wrap() + v) % Pow2(bits + from) == (acc % Pow2(bits)) * Pow2(from) + v
  {
    hide Pow2;
    var p, b, w := Pow2(from), Pow2(bits), Wrap();
    var x := acc * p;
    Pow2Sum(bits, from);
    Pow2Sum(32 - (bits + from), bits + from);
    DivMod(x, w);
    var c := Pow2(32 - (bits + from));
    MulAssoc(x / w, c, b * p);
    ModMultiple(x % w + v, (x / w) * c, b * p);
    DivMod(acc, b);
    ScaleAdd(acc / b, b, acc % b, p, v);
    DivUnique(x + v, b * p, acc / b, (acc % b) * p + v);
  }

  lemma TakeTop(acc: nat, bits: nat, to: nat)
    requires to <= 8
    ensures ((acc / Pow2(bits)) % 256) % Pow2(to) < Pow2(to)
    ensures acc % Pow2(bits + to) == (((acc / Pow2(bits)) % 256) % Pow2(to)) * Pow2(bits) + acc % Pow2(bits)
  {
    Pow2Sum(to, 8 - to);
    Pow2Small();
    hide Pow2;
    var y := acc / Pow2(bits);
    DivMod(y, 256);
    MulAssoc(y / 256, Pow2(8 - to), Pow2(to));
    ModMultiple(y % 256, (y / 256) * Pow2(8 - to), Pow2(to));
    Pow2Sum(bits, to);
    ModSplit(acc, Pow2(bits), Pow2(to));
  }

  /** With no whole output digit pending, the split determines the result. */
  lemma Finish(data: seq<nat>, from: nat, ret: seq<nat>, to: nat, bits: nat, low: nat)
    requires 1 <= to && Split(data, from, ret, to, bits, low) && bits < to
    ensures Width(data, from) / to == |ret| && Width(data, from) % to == bits
    ensures Rest(Num(data, from), bits) == Num(ret, to) && Last(Num(data, from), bits) == low
    ensures ret == Digits(Num(ret, to), to, |ret|)
  {
    assert Width(ret, to) == |ret| * to;
    DivUnique(Width(data, from), to, |ret|, bits);
    RestLastUnique(Num(ret, to), low, bits);
    DigitsOfNum(ret, to);
  }

  lemma FinishPadded(data: seq<nat>, from: nat, ret: seq<nat>, to: nat, bits: nat, low: nat)
    requires 1 <= to && Split(data, from, ret, to, bits, low) && 0 < bits < to
    requires low * Pow2(to - bits) >= 0
    ensures low * Pow2(to - bits) < Pow2(to)
    ensures ret + [low * Pow2(to - bits)] == Digits(Num(data, from) * Pow2(to - bits), to, |ret| + 1)
  {
    hide Num, Width, Pow2, Digits;
    var d := low * Pow2(to - bits);
    Pow2Sum(bits, to - bits);
    ScaleAdd(Num(ret, to), Pow2(bits), low, Pow2(to - bits), 0);
    NumSnoc(ret, d, to);
    DigitsOfNum(ret + [d], to);
  }

  lemma PaddingZero(low: nat, p: nat)
    requires p >= 1
    ensures low * p == 0 <==> low == 0
  {
    if low > 0 {
      MulPos(low, p);
    }
  }

  lemma NoDigits(from: nat, to: nat)
    ensures State([], from, [], to, 0, 0)
  {
  }

  /** The loop state of convertBits: what has been read is what has been written plus the low bits of acc. */
  ghost predicate State(data: seq<nat>, from: nat, ret: seq<nat>, to: nat, bits: nat, acc: nat) {
    Split(data, from, ret, to, bits, acc % Pow2(bits))
  }

  function Shifted(acc: nat, k: nat): nat {
    (acc * Pow2(k)) % Wrap()
  }

  function TopDigit(acc: nat, bits: nat, to: nat): nat {
    ((acc / Pow2(bits)) % 256) % Pow2(to)
  }

  lemma ReadDigit(data: seq<nat>, from: nat, ret: seq<nat>, to: nat, bits: nat, acc: nat, v: nat)
    requires State(data, from, ret, to, bits, acc) && v < Pow2(from) && bits + from <= 32
    ensures State(data + [v], from, ret, to, bits + from, Shifted(acc, from) + v)
  {
    hide Split, Pow2;
    Feed(data, from, ret, to, bits, acc % Pow2(bits), v);
    ShiftIn(acc, bits, from, v);
  }

  lemma WriteDigit(data: seq<nat>, from: nat, ret: seq<nat>, to: nat, bits: nat, acc: nat)
    requires State(data, from, ret, to, bits, acc) && bits >= to && to <= 8
    ensures State(data, from, ret + [TopDigit(acc, bits - to, to)], to, bits - to, acc)
  {
    hide Split, Pow2;
    TakeTop(acc, bits - to, to);
    Emit(data, from, ret, to, bits, TopDigit(acc, bits - to, to), acc % Pow2(bits - to));
  }

  /** The padding digit of convertBits: the pending bits at the top of one output digit. */
  function PadDigit(acc: nat, bits: nat, to: nat): nat
    requires bits <= to
  {
    Shifted(acc, to - bits) % Pow2(to)
  }

  lemma PadDigitIs(acc: nat, bits: nat, to: nat)
    requires bits <= to <= 32
    ensures PadDigit(acc, bits, to) == (acc % Pow2(bits)) * Pow2(to - bits)
    ensures PadDigit(acc, bits, to) == 0 <==> acc % Pow2(bits) == 0
  {
    hide Pow2;
    ShiftIn(acc, bits, to - bits, 0);
    PaddingZero(acc % Pow2(bits), Pow2(to - bits));
  }

  lemma LastPadded(data: seq<nat>, from: nat, ret: seq<nat>, to: nat, bits: nat, acc: nat)
    requires 1 <= to && Fits(data, from) && State(data, from, ret, to, bits, acc) && bits < to <= 32
    ensures Regrouped(data, from, to, true) == Ok(if bits > 0 then ret + [PadDigit(acc, bits, to)] else ret)
  {
    hide PadDigit, Digits, Num;
    var low := acc % Pow2(bits);
    Finish(data, from, ret, to, bits, low);
    PadDigitIs(acc, bits, to);
    if bits > 0 {
      FinishPadded(data, from, ret, to, bits, low);
    }
  }

  lemma LastUnpadded(data: seq<nat>, from: nat, ret: seq<nat>, to: nat, bits: nat, acc: nat)
    requires 1 <= to && Fits(data, from) && State(data, from, ret, to, bits, acc) && bits < to <= 32
    ensures Regrouped(data, from, to, false)
         == if bits >= from then Err(IllegalPadding)
            else if PadDigit(acc, bits, to) != 0 then Err(NonZeroPadding)
            else Ok(ret)
  {
    hide PadDigit, Digits, Num;
    Finish(data, from, ret, to, bits, acc % Pow2(bits));
    PadDigitIs(acc, bits, to);
  }

  method ConvertBits(data: seq<nat>, from: nat, to: nat, pad: bool) returns (r: Result<seq<nat>, BitsError>)
    requires 1 <= from <= 8 && 1 <= to <= 8
    ensures r == Regrouped(data, from, to, pad)
  {
    hide State, Regrouped, TopDigit, PadDigit, Shifted, Pow2;
    var ret: seq<nat> := [];
    var acc: nat := 0;
    var bits: nat := 0;
    NoDigits(from, to);
    for i := 0 to |data|
      invariant bits < to && Fits(data[..i], from)
      invariant State(data[..i], from, ret, to, bits, acc)
    {
      var value := data[i];
      if value >= Pow2(from) {
        OutOfRange(data, from, to, pad, i);
        return Err(InvalidRange);
      }
      assert data[..i + 1] == data[..i] + [value];
      ReadDigit(data[..i], from, ret, to, bits, acc, value);
      acc := Shifted(acc, from) + value;
      bits := bits + from;
      while bits >= to
        invariant State(data[..i + 1], from, ret, to, bits, acc)
      {
        WriteDigit(data[..i + 1], from, ret, to, bits, acc);
        bits := bits - to;
        ret := ret + [TopDigit(acc, bits, to)];
      }
    }
    assert data[..|data|] == data;
    var last := PadDigit(acc, bits, to);
    if pad {
      LastPadded(data, from, ret, to, bits, acc);
      if bits > 0 {
        ret := ret + [last];
      }
    } else {
      LastUnpadded(data, from, ret, to, bits, acc);
      if bits >= from {
        return Err(IllegalPadding);
      } else if last != 0 {
        return Err(NonZeroPadding);
      }
    }
    return Ok(ret);
  }

  lemma OutOfRange(data: seq<nat>, from: nat, to: nat, pad: bool, i: nat)
    requires 1 <= to && i < |data| && data[i] >= Pow2(from)
    ensures Regrouped(data, from, to, pad) == Err(InvalidRange)
  {
  }

  // ----- 8 to 5 and back -----

  /** How many zero bits fill up the last five-bit digit of n bytes, and how many digits there are. */
  function PadBits(n: nat): (up: nat)
    ensures up < 5 && (8 * n + up) % 5 == 0
  {
    if 8 * n % 5 == 0 then 0 else 5 - 8 * n % 5
  }

  function SymbolCount(n: nat): (len: nat)
    ensures 5 * len == 8 * n + PadBits(n)
  {
    (8 * n + PadBits(n)) / 5
  }

  lemma RegroupedUp(data: seq<nat>)
    requires Fits(data, 8)
    ensures Regrouped(data, 8, 5, true)
         == Ok(Digits(Num(data, 8) * Pow2(PadBits(|data|)), 5, SymbolCount(|data|)))
  {
    hide Num, Digits, Fits;
    assert Num(data, 8) * Pow2(0) == Num(data, 8);
  }

  lemma RegroupedDown(five: seq<nat>, n: nat, q: nat)
    requires Fits(five, 5) && 5 * |five| == 8 * n + PadBits(n) && Num(five, 5) == q * Pow2(PadBits(n))
    ensures Regrouped(five, 5, 8, false) == Ok(Digits(q, 8, n))
  {
    hide Num, Digits, Fits, Pow2, PadBits;
    DivUnique(5 * |five|, 8, n, PadBits(n));
    RestLastUnique(q, 0, PadBits(n));
  }

  /** Regrouping bytes into padded five-bit digits loses nothing. */
  lemma BytesRoundTrip(data: seq<nat>)
    requires Fits(data, 8)
    ensures var five := Regrouped(data, 8, 5, true);
            five.Ok? && Fits(five.value, 5) && |five.value| == SymbolCount(|data|)
            && Regrouped(five.value, 5, 8, false) == Ok(data)
  {
    hide Num, Digits, Fits, Pow2, Regrouped, PadBits, SymbolCount;
    var n, up, len := Num(data, 8), PadBits(|data|), SymbolCount(|data|);
    var five := Digits(n * Pow2(up), 5, len);
    RegroupedUp(data);
    NumBound(data, 8);
    Scaled(n, 8, |data|, up, 5, len);
    NumOfDigits(n * Pow2(up), 5, len);
    DigitsFit(n * Pow2(up), 5, len);
    RegroupedDown(five, |data|, n);
    DigitsOfNum(data, 8);
  }

  lemma Scaled(n: nat, k: nat, len: nat, up: nat, k': nat, len': nat)
    requires n < Room(k, len) && k * len + up == k' * len'
    ensures 0 <= n * Pow2(up) < Room(k', len')
  {
    RoomIsPower(k, len);
    RoomIsPower(k', len');
    Pow2Sum(k * len, up);
    DigitBound(n, 0, Room(k, len), Pow2(up));
  }

  lemma PadOfRest(m: nat)
    requires 5 * m % 8 < 5
    ensures 5 * m / 8 >= 0 && PadBits(5 * m / 8) == 5 * m % 8
  {
    var n, r := 5 * m / 8, 5 * m % 8;
    if r == 0 {
      DivUnique(8 * n, 5, m, 0);
    } else {
      DivUnique(8 * n, 5, m - 1, 5 - r);
    }
  }

  lemma RegroupedDownInv(five: seq<nat>, data: seq<nat>)
    requires Regrouped(five, 5, 8, false) == Ok(data)
    ensures var n := 5 * |five| / 8;
            && Fits(five, 5) && 5 * |five| == 8 * n + PadBits(n)
            && Num(five, 5) == Rest(Num(five, 5), PadBits(n)) * Pow2(PadBits(n))
            && data == Digits(Rest(Num(five, 5), PadBits(n)), 8, n)
  {
    hide Num, Digits, Fits, Pow2, Rest, Last, PadBits;
    PadOfRest(|five|);
    RestLast(Num(five, 5), 5 * |five| % 8);
  }

  /** Five-bit digits that regroup to bytes are the padded regrouping of those bytes: the padding is unique. */
  lemma SymbolsRoundTrip(five: seq<nat>, data: seq<nat>)
    requires Regrouped(five, 5, 8, false) == Ok(data)
    ensures Fits(data, 8) && Regrouped(data, 8, 5, true) == Ok(five)
  {
    hide Num, Digits, Fits, Pow2, Regrouped, PadBits, SymbolCount, Rest;
    RegroupedDownInv(five, data);
    var n := 5 * |five| / 8;
    var up := PadBits(n);
    var q := Rest(Num(five, 5), up);
    NumBound(five, 5);
    Unscaled(q, up, 5, |five|, 8, n);
    NumOfDigits(q, 8, n);
    DigitsFit(q, 8, n);
    RegroupedUp(data);
    DigitsOfNum(five, 5);
  }

  lemma Unscaled(q: nat, up: nat, k: nat, len: nat, k': nat, len': nat)
    requires q * Pow2(up) < Room(k, len) && k * len == k' * len' + up
    ensures q < Room(k', len')
  {
    RoomIsPower(k, len);
    RoomIsPower(k', len');
    Pow2Sum(k' * len', up);
    if q >= Room(k', len') {
      MulMono(Room(k', len'), q, Pow2(up));
    }
  }
}
