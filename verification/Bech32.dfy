/**
 Encoding and decoding of Bech32 text (internal/age/bech32/bech32.go; BIP 173, section "Bech32"), for ASCII text.
 */
module Bech32 {
  import opened Results
  import opened Checksum
  import opened Radix
  import opened Regroup

  // ----- letter case -----

  function LowerChar(c: char): char {
    if 'A' <= c <= 'Z' then (c as int + 32) as char else c
  }

  function UpperChar(c: char): char {
    if 'a' <= c <= 'z' then (c as int - 32) as char else c
  }

  function ToLower(s: string): (r: string)
    ensures |r| == |s|
  {
    seq(|s|, i requires 0 <= i < |s| => LowerChar(s[i]))
  }

  function ToUpper(s: string): (r: string)
    ensures |r| == |s|
  {
    seq(|s|, i requires 0 <= i < |s| => UpperChar(s[i]))
  }

  predicate IsLower(s: string) {
    ToLower(s) == s
  }

  predicate IsUpper(s: string) {
    ToUpper(s) == s
  }

  predicate IsAscii(s: string) {
    forall i | 0 <= i < |s| :: s[i] as int < 128
  }

  // ----- the alphabet of the data part: qpzry9x8gf2tvdw0s3jn54khce6mua7l -----

  /** charset[p] */
  function CharAt(p: nat): char
    requires p < 32
  {
    match p
    case 0 => 'q' case 1 => 'p' case 2 => 'z' case 3 => 'r' case 4 => 'y' case 5 => '9'
    case 6 => 'x' case 7 => '8' case 8 => 'g' case 9 => 'f' case 10 => '2' case 11 => 't'
    case 12 => 'v' case 13 => 'd' case 14 => 'w' case 15 => '0' case 16 => 's' case 17 => '3'
    case 18 => 'j' case 19 => 'n' case 20 => '5' case 21 => '4' case 22 => 'k' case 23 => 'h'
    case 24 => 'c' case 25 => 'e' case 26 => '6' case 27 => 'm' case 28 => 'u' case 29 => 'a'
    case 30 => '7'
    case _ => 'l'
  }

  /** strings.IndexRune(charset, c) */
  function IndexRune(c: char): int {
    match c
    case 'q' => 0 case 'p' => 1 case 'z' => 2 case 'r' => 3 case 'y' => 4 case '9' => 5
    case 'x' => 6 case '8' => 7 case 'g' => 8 case 'f' => 9 case '2' => 10 case 't' => 11
    case 'v' => 12 case 'd' => 13 case 'w' => 14 case '0' => 15 case 's' => 16 case '3' => 17
    case 'j' => 18 case 'n' => 19 case '5' => 20 case '4' => 21 case 'k' => 22 case 'h' => 23
    case 'c' => 24 case 'e' => 25 case '6' => 26 case 'm' => 27 case 'u' => 28 case 'a' => 29
    case '7' => 30 case 'l' => 31
    case _ => -1
  }

  lemma IndexOfChar(p: nat)
    requires p < 32
    ensures IndexRune(CharAt(p)) == p
  {
  }

  lemma CharOfIndex(c: char)
    requires IndexRune(c) >= 0
    ensures IndexRune(c) < 32 && CharAt(IndexRune(c)) == c
  {
  }

  /** Values below 32: what the data part is made of. */
  predicate Quintets(s: seq<nat>) {
    forall i | 0 <= i < |s| :: s[i] < 32
  }

  lemma QuintetsFit(s: seq<nat>)
    ensures Fits(s, 5) <==> Quintets(s)
  {
    Pow2Small();
  }

  function Chars(s: seq<nat>): (r: string)
    requires Quintets(s)
    ensures |r| == |s|
  {
    seq(|s|, i requires 0 <= i < |s| => CharAt(s[i]))
  }

  predicate DataChars(s: string) {
    forall i | 0 <= i < |s| :: IndexRune(s[i]) >= 0
  }

  function Indices(s: string): (r: seq<nat>)
    requires DataChars(s)
    ensures |r| == |s|
  {
    seq(|s|, i requires 0 <= i < |s| => IndexRune(s[i]))
  }

  lemma IndicesOfChars(s: seq<nat>)
    requires Quintets(s)
    ensures DataChars(Chars(s)) && Indices(Chars(s)) == s
  {
    hide CharAt, IndexRune;
    forall i | 0 <= i < |s|
      ensures IndexRune(Chars(s)[i]) == s[i]
    {
      IndexOfChar(s[i]);
    }
  }

  lemma CharsOfIndices(s: string)
    requires DataChars(s)
    ensures Quintets(Indices(s)) && Chars(Indices(s)) == s
  {
    hide CharAt, IndexRune;
    forall i | 0 <= i < |s|
      ensures IndexRune(s[i]) < 32 && CharAt(IndexRune(s[i])) == s[i]
    {
      CharOfIndex(s[i]);
    }
  }

  // ----- symbols as numbers and as bits -----

  function SymbolBits(v: nat): byte
    requires v < 32
  {
    v as byte
  }

  lemma SymbolBitsFit(v: nat)
    requires v < 32
    ensures Symbol(SymbolBits(v)) && SymbolBits(v) as nat == v
  {
  }

  lemma BitsOfSymbol(b: byte)
    requires Symbol(b)
    ensures b as nat < 32 && SymbolBits(b as nat) == b
  {
  }

  function Bits(s: seq<nat>): (r: seq<byte>)
    requires Quintets(s)
    ensures |r| == |s|
  {
    seq(|s|, i requires 0 <= i < |s| => SymbolBits(s[i]))
  }

  function Numbers(s: seq<byte>): (r: seq<nat>)
    ensures |r| == |s|
  {
    seq(|s|, i requires 0 <= i < |s| => s[i] as nat)
  }

  lemma BitsAreSymbols(s: seq<nat>)
    requires Quintets(s)
    ensures Symbols(Bits(s)) && Numbers(Bits(s)) == s
  {
    hide SymbolBits, Symbol;
    forall i | 0 <= i < |s|
      ensures Symbol(Bits(s)[i]) && Numbers(Bits(s))[i] == s[i]
    {
      SymbolBitsFit(s[i]);
    }
  }

  lemma BitsOfNumbers(s: seq<byte>)
    requires Symbols(s)
    ensures Quintets(Numbers(s)) && Bits(Numbers(s)) == s
  {
    hide SymbolBits, Symbol;
    forall i | 0 <= i < |s|
      ensures s[i] as nat < 32 && SymbolBits(s[i] as nat) == s[i]
    {
      BitsOfSymbol(s[i]);
    }
  }

  lemma BitsConcat(a: seq<nat>, b: seq<nat>)
    requires Quintets(a) && Quintets(b)
    ensures Quintets(a + b) && Bits(a + b) == Bits(a) + Bits(b)
  {
    hide SymbolBits;
  }

  // ----- the checksum of a human-readable part and its data -----

  function Expand(hrp: string): (r: seq<nat>)
    ensures |r| == 2 * |hrp| + 1
  {
    var h := ToLower(hrp);
    seq(|h|, i requires 0 <= i < |h| => h[i] as nat / 32) + [0] + seq(|h|, i requires 0 <= i < |h| => h[i] as nat % 32)
  }

  lemma ExpandQuintets(hrp: string)
    requires IsAscii(hrp)
    ensures Quintets(Expand(hrp))
  {
  }

  /** verifyChecksum */
  predicate Verifies(hrp: string, data: seq<nat>)
    requires IsAscii(hrp) && Quintets(data)
  {
    ExpandQuintets(hrp);
    Fold(1, Bits(Expand(hrp)) + Bits(data)) == 1
  }

  /** createChecksum */
  function Tail(hrp: string, data: seq<nat>): seq<nat>
    requires IsAscii(hrp) && Quintets(data)
  {
    ExpandQuintets(hrp);
    Numbers(CheckSymbols(Bits(Expand(hrp)) + Bits(data)))
  }

  lemma TailShape(hrp: string, data: seq<nat>)
    requires IsAscii(hrp) && Quintets(data)
    ensures |Tail(hrp, data)| == 6 && Quintets(Tail(hrp, data))
  {
    hide Fold, CheckSymbols, Bits, Numbers, Symbol;
    ExpandQuintets(hrp);
    BitsAreSymbols(Expand(hrp));
    BitsAreSymbols(data);
    var values := Bits(Expand(hrp)) + Bits(data);
    ChecksumCloses(values);
    BitsOfNumbers(CheckSymbols(values));
  }

  /** Six symbols complete the data exactly when they are the created checksum. */
  lemma TailExact(hrp: string, data: seq<nat>, tail: seq<nat>)
    requires IsAscii(hrp) && Quintets(data) && Quintets(tail) && |tail| == 6
    ensures Quintets(data + tail) && (Verifies(hrp, data + tail) <==> tail == Tail(hrp, data))
  {
    hide Fold, CheckSymbols, Bits, Numbers, Symbol;
    ExpandQuintets(hrp);
    BitsAreSymbols(Expand(hrp));
    BitsAreSymbols(data);
    BitsAreSymbols(tail);
    var values := Bits(Expand(hrp)) + Bits(data);
    BitsConcat(data, tail);
    assert Bits(Expand(hrp)) + (Bits(data) + Bits(tail)) == values + Bits(tail);
    ChecksumExact(values, Bits(tail));
    ChecksumCloses(values);
    BitsOfNumbers(CheckSymbols(values));
  }

  method HrpExpand(hrp: string) returns (ret: seq<nat>)
    ensures ret == Expand(hrp)
  {
    var h := ToLower(hrp);
    ret := [];
    for i := 0 to |h|
      invariant ret == seq(i, k requires 0 <= k < i => h[k] as nat / 32)
    {
      ret := ret + [h[i] as nat / 32];
    }
    ret := ret + [0];
    ghost var high := ret;
    for i := 0 to |h|
      invariant ret == high + seq(i, k requires 0 <= k < i => h[k] as nat % 32)
    {
      ret := ret + [h[i] as nat % 32];
    }
  }

  method VerifyChecksum(hrp: string, data: seq<nat>) returns (ok: bool)
    requires IsAscii(hrp) && Quintets(data)
    ensures ok == Verifies(hrp, data)
  {
    hide Fold, Bits, SymbolBits, Expand;
    var expanded := HrpExpand(hrp);
    ExpandQuintets(hrp);
    var chk := Polymod(Bits(expanded) + Bits(data));
    ok := chk == 1;
  }

  method CreateChecksum(hrp: string, data: seq<nat>) returns (ret: seq<nat>)
    requires IsAscii(hrp) && Quintets(data)
    ensures ret == Tail(hrp, data)
  {
    hide Fold, Bits, SymbolBits, Expand, Digit, Xor;
    var expanded := HrpExpand(hrp);
    ExpandQuintets(hrp);
    var values := Bits(expanded) + Bits(data) + Zeros(6);
    var chk := Polymod(values);
    var mod := Xor(chk, 1);
    ghost var whole := Unpack(mod);
    ret := [];
    for p := 0 to 6
      invariant ret == Numbers(whole[..p])
    {
      var shift := 5 * (5 - p);
      assert Digit(mod, shift) == whole[p];
      ret := ret + [Digit(mod, shift) as nat];
    }
    assert whole[..6] == whole;
  }

  // ----- Encode and Decode -----

  datatype Error =
    | TooLong
    | MixedCase
    | EmptyHrp
    | InvalidHrpCharacter
    | InvalidSeparator
    | InvalidDataCharacter
    | InvalidChecksum
    | InvalidBits(bits: BitsError)

  predicate Printable(hrp: string) {
    forall i | 0 <= i < |hrp| :: 33 <= hrp[i] as int <= 126
  }

  /** The text in lower case: the human-readable part, the separator, the data and its checksum. */
  function Body(hrp: string, values: seq<nat>): string
    requires IsAscii(hrp) && Quintets(values)
  {
    TailShape(hrp, values);
    ToLower(hrp) + "1" + Chars(values) + Chars(Tail(hrp, values))
  }

  function Encoded(hrp: string, data: seq<nat>): Result<string, Error>
    requires IsAscii(hrp)
  {
    var values := Regrouped(data, 8, 5, true);
    if values.Err? then
      Err(InvalidBits(values.error))
    else if |hrp| + |values.value| + 7 > 90 then
      Err(TooLong)
    else if |hrp| < 1 then
      Err(EmptyHrp)
    else if !Printable(hrp) then
      Err(InvalidHrpCharacter)
    else if !IsUpper(hrp) && !IsLower(hrp) then
      Err(MixedCase)
    else
      RegroupedQuintets(data);
      Ok(if IsLower(hrp) then Body(hrp, values.value) else ToUpper(Body(hrp, values.value)))
  }

  lemma RegroupedQuintets(data: seq<nat>)
    ensures var values := Regrouped(data, 8, 5, true); values.Ok? ==> Quintets(values.value)
  {
    if Fits(data, 8) {
      BytesRoundTrip(data);
      QuintetsFit(Regrouped(data, 8, 5, true).value);
    }
  }

  /** strings.LastIndex(s, "1") */
  function LastOne(s: string): (p: int)
    ensures -1 <= p < |s|
    ensures p >= 0 ==> s[p] == '1'
    ensures forall i | p < i < |s| :: s[i] != '1'
  {
    if s == [] then -1
    else if s[|s| - 1] == '1' then |s| - 1
    else LastOne(s[..|s| - 1])
  }

  function Decoded(s: string): Result<(string, seq<nat>), Error>
    requires IsAscii(s)
  {
    var pos := LastOne(s);
    if |s| > 90 then
      Err(TooLong)
    else if !IsLower(s) && !IsUpper(s) then
      Err(MixedCase)
    else if pos < 1 || pos + 7 > |s| then
      Err(InvalidSeparator)
    else if !Printable(s[..pos]) then
      Err(InvalidHrpCharacter)
    else
      var text := ToLower(s)[pos + 1..];
      if !DataChars(text) then
        Err(InvalidDataCharacter)
      else
        CharsOfIndices(text);
        DecodedData(s[..pos], Indices(text))
  }

  function DecodedData(hrp: string, data: seq<nat>): Result<(string, seq<nat>), Error>
    requires IsAscii(hrp) && Quintets(data) && |data| >= 6
  {
    if !Verifies(hrp, data) then
      Err(InvalidChecksum)
    else
      match Regrouped(data[..|data| - 6], 5, 8, false)
      case Err(e) => Err(InvalidBits(e))
      case Ok(bytes) => Ok((hrp, bytes))
  }

  /** The loop over the human-readable part in both Encode and Decode. */
  method CheckHrp(hrp: string) returns (ok: bool)
    ensures ok == Printable(hrp)
  {
    for p := 0 to |hrp|
      invariant Printable(hrp[..p])
    {
      if (hrp[p] as int) < 33 || hrp[p] as int > 126 {
        return false;
      }
    }
    assert hrp[..|hrp|] == hrp;
    return true;
  }

  /** The loop over the data part in Decode. */
  method ReadSymbols(text: string) returns (data: Option<seq<nat>>)
    ensures data == if DataChars(text) then Some(Indices(text)) else None
  {
    hide IndexRune;
    var symbols: seq<nat> := [];
    for i := 0 to |text|
      invariant DataChars(text[..i]) && symbols == Indices(text[..i])
    {
      var d := IndexRune(text[i]);
      if d < 0 {
        return None;
      }
      symbols := symbols + [d];
    }
    assert text[..|text|] == text;
    return Some(symbols);
  }

  method Encode(hrp: string, data: seq<nat>) returns (r: Result<string, Error>)
    requires IsAscii(hrp)
    ensures r == Encoded(hrp, data)
  {
    hide Regrouped, Tail, CharAt;
    var converted := ConvertBits(data, 8, 5, true);
    if converted.Err? {
      return Err(InvalidBits(converted.error));
    }
    var values := converted.value;
    RegroupedQuintets(data);
    if |hrp| + |values| + 7 > 90 {
      return Err(TooLong);
    }
    if |hrp| < 1 {
      return Err(EmptyHrp);
    }
    var printable := CheckHrp(hrp);
    if !printable {
      return Err(InvalidHrpCharacter);
    }
    if ToUpper(hrp) != hrp && ToLower(hrp) != hrp {
      return Err(MixedCase);
    }
    var lower := ToLower(hrp) == hrp;
    LowerAscii(hrp);
    var ret := ToLower(hrp) + "1";
    ghost var head := ret;
    for i := 0 to |values|
      invariant ret == head + Chars(values[..i])
    {
      ret := ret + [CharAt(values[i])];
    }
    var tail := CreateChecksum(ToLower(hrp), values);
    TailOfLower(hrp, values);
    TailShape(hrp, values);
    assert ret == head + Chars(values);
    for i := 0 to |tail|
      invariant ret == head + Chars(values) + Chars(tail[..i])
    {
      ret := ret + [CharAt(tail[i])];
    }
    assert tail[..|tail|] == tail;
    assert ret == Body(hrp, values);
    if lower {
      return Ok(ret);
    }
    return Ok(ToUpper(ret));
  }

  lemma LowerAscii(s: string)
    requires IsAscii(s)
    ensures IsAscii(ToLower(s)) && ToLower(ToLower(s)) == ToLower(s)
  {
  }

  lemma TailOfLower(hrp: string, values: seq<nat>)
    requires IsAscii(hrp) && IsAscii(ToLower(hrp)) && Quintets(values)
    ensures Tail(ToLower(hrp), values) == Tail(hrp, values)
  {
    LowerAscii(hrp);
    assert Expand(ToLower(hrp)) == Expand(hrp);
  }

  method Decode(s: string) returns (r: Result<(string, seq<nat>), Error>)
    requires IsAscii(s)
    ensures r == Decoded(s)
  {
    hide DecodedData, IndexRune, LowerChar, UpperChar;
    if |s| > 90 {
      return Err(TooLong);
    }
    if ToLower(s) != s && ToUpper(s) != s {
      return Err(MixedCase);
    }
    var pos := LastOne(s);
    if pos < 1 || pos + 7 > |s| {
      return Err(InvalidSeparator);
    }
    var hrp := s[..pos];
    var printable := CheckHrp(hrp);
    if !printable {
      return Err(InvalidHrpCharacter);
    }
    var text := ToLower(s)[pos + 1..];
    var data := ReadSymbols(text);
    if data.None? {
      return Err(InvalidDataCharacter);
    }
    CharsOfIndices(text);
    r := DecodeData(hrp, data.value);
  }

  /** The end of Decode: the checksum and the regrouping. */
  method DecodeData(hrp: string, data: seq<nat>) returns (r: Result<(string, seq<nat>), Error>)
    requires IsAscii(hrp) && Quintets(data) && |data| >= 6
    ensures r == DecodedData(hrp, data)
  {
    hide Regrouped, Verifies;
    var ok := VerifyChecksum(hrp, data);
    if !ok {
      return Err(InvalidChecksum);
    }
    var converted := ConvertBits(data[..|data| - 6], 5, 8, false);
    if converted.Err? {
      return Err(InvalidBits(converted.error));
    }
    return Ok((hrp, converted.value));
  }

  // ----- what encoding and decoding promise -----

  predicate IsLetter(c: char) {
    'a' <= c <= 'z' || 'A' <= c <= 'Z'
  }

  predicate HasLetter(s: string) {
    exists i | 0 <= i < |s| :: IsLetter(s[i])
  }

  lemma LowerConcat(a: string, b: string)
    ensures ToLower(a + b) == ToLower(a) + ToLower(b)
    ensures ToUpper(a + b) == ToUpper(a) + ToUpper(b)
  {
  }

  lemma LowerUpper(s: string)
    ensures ToLower(ToUpper(s)) == ToLower(s) && ToUpper(ToLower(s)) == ToUpper(s)
    ensures IsLower(ToLower(s)) && IsUpper(ToUpper(s))
  {
  }

  lemma CharIsLower(p: nat)
    requires p < 32
    ensures LowerChar(CharAt(p)) == CharAt(p)
    ensures CharAt(p) != '1' && UpperChar(CharAt(p)) != '1' && CharAt(p) as int < 128
  {
  }

  lemma CharsAreLower(s: seq<nat>)
    requires Quintets(s)
    ensures ToLower(Chars(s)) == Chars(s) && IsAscii(Chars(s))
    ensures forall i | 0 <= i < |s| :: Chars(s)[i] != '1' && ToUpper(Chars(s))[i] != '1'
  {
    hide CharAt, LowerChar, UpperChar;
    forall i | 0 <= i < |s|
      ensures LowerChar(CharAt(s[i])) == CharAt(s[i]) && CharAt(s[i]) as int < 128
      ensures CharAt(s[i]) != '1' && UpperChar(CharAt(s[i])) != '1'
    {
      CharIsLower(s[i]);
    }
  }

  lemma CaseOfAscii(s: string)
    requires IsAscii(s)
    ensures IsAscii(ToLower(s)) && IsAscii(ToUpper(s))
  {
  }

  lemma LastOneIs(a: string, c: string)
    requires forall i | 0 <= i < |c| :: c[i] != '1'
    ensures LastOne(a + "1" + c) == |a|
  {
    var s := a + "1" + c;
    assert s[|a|] == '1';
    assert s[|a| + 1..] == c;
    assert forall i | |a| < i < |s| :: s[i] == c[i - |a| - 1];
  }

  /** The text that Encode writes: lower case, or upper case when the human-readable part is not lower case. */
  function Cased(hrp: string, text: string): string {
    if IsLower(hrp) then text else ToUpper(text)
  }

  lemma BodyShape(hrp: string, values: seq<nat>)
    requires IsAscii(hrp) && Quintets(values)
    ensures Quintets(Tail(hrp, values)) && Quintets(values + Tail(hrp, values)) && |Tail(hrp, values)| == 6
    ensures Body(hrp, values) == ToLower(hrp) + "1" + Chars(values + Tail(hrp, values))
    ensures IsLower(Body(hrp, values)) && IsAscii(Body(hrp, values))
    ensures |Body(hrp, values)| == |hrp| + |values| + 7
  {
    hide Tail, CharAt, LowerChar, UpperChar;
    TailShape(hrp, values);
    var all := values + Tail(hrp, values);
    assert Chars(all) == Chars(values) + Chars(Tail(hrp, values));
    CharsAreLower(all);
    LowerUpper(hrp);
    CaseOfAscii(hrp);
    LowerConcat(ToLower(hrp) + "1", Chars(all));
    LowerConcat(ToLower(hrp), "1");
    assert ToLower("1") == "1" by {
      assert LowerChar('1') == '1' by {
        OneIsNoLetter();
      }
    }
  }

  lemma OneIsNoLetter()
    ensures LowerChar('1') == '1' && UpperChar('1') == '1'
  {
  }

  /** Splitting a written text gives back its human-readable part and its symbols. */
  lemma SplitBody(hrp: string, symbols: seq<nat>)
    requires Quintets(symbols) && (IsLower(hrp) || IsUpper(hrp))
    ensures var t := Cased(hrp, ToLower(hrp) + "1" + Chars(symbols));
            && LastOne(t) == |hrp| && t[..|hrp|] == hrp
            && ToLower(t)[|hrp| + 1..] == Chars(symbols)
            && (IsLower(t) || IsUpper(t))
  {
    hide CharAt, LowerChar, UpperChar;
    var h, c := ToLower(hrp), Chars(symbols);
    OneIsNoLetter();
    CharsAreLower(symbols);
    LowerConcat(h + "1", c);
    LowerConcat(h, "1");
    LowerUpper(hrp);
    LowerUpper(c);
    LowerUpper(h + "1" + c);
    assert ToUpper("1") == "1" && ToLower("1") == "1";
    if IsLower(hrp) {
      LastOneIs(h, c);
    } else {
      LastOneIs(ToUpper(h), ToUpper(c));
    }
  }

  lemma EncodedForm(hrp: string, data: seq<nat>, values: seq<nat>)
    requires IsAscii(hrp) && |hrp| >= 1 && Printable(hrp) && (IsLower(hrp) || IsUpper(hrp))
    requires Regrouped(data, 8, 5, true) == Ok(values) && |hrp| + |values| + 7 <= 90
    ensures Quintets(values) && Encoded(hrp, data) == Ok(Cased(hrp, Body(hrp, values)))
  {
    hide Regrouped, Body;
    RegroupedQuintets(data);
  }

  lemma DecodedForm(s: string, hrp: string, symbols: seq<nat>)
    requires IsAscii(s) && Quintets(symbols) && |s| == |hrp| + 1 + |symbols| <= 90 && |symbols| >= 6
    requires |hrp| >= 1 && Printable(hrp) && LastOne(s) == |hrp| && s[..|hrp|] == hrp
    requires ToLower(s)[|hrp| + 1..] == Chars(symbols) && (IsLower(s) || IsUpper(s))
    ensures IsAscii(hrp) && Decoded(s) == DecodedData(hrp, symbols)
  {
    hide CharAt, IndexRune, DecodedData;
    IndicesOfChars(symbols);
  }

  /** Decode inverts Encode on every printable, single-case human-readable part and every byte string that fits. */
  lemma RoundTrip(hrp: string, data: seq<nat>)
    requires |hrp| >= 1 && Printable(hrp) && (IsLower(hrp) || IsUpper(hrp))
    requires Fits(data, 8) && |hrp| + SymbolCount(|data|) + 7 <= 90
    ensures IsAscii(hrp) && Encoded(hrp, data).Ok? && IsAscii(Encoded(hrp, data).value)
    ensures Decoded(Encoded(hrp, data).value) == Ok((hrp, data))
  {
    hide Regrouped, Tail, Chars, Verifies, SymbolCount, Encoded, Decoded, Body, ToLower, ToUpper;
    BytesRoundTrip(data);
    var values := Regrouped(data, 8, 5, true).value;
    EncodedForm(hrp, data, values);
    BodyShape(hrp, values);
    CaseOfAscii(Body(hrp, values));
    SplitBody(hrp, values + Tail(hrp, values));
    DecodedForm(Encoded(hrp, data).value, hrp, values + Tail(hrp, values));
    TailExact(hrp, values, Tail(hrp, values));
    assert (values + Tail(hrp, values))[..|values|] == values;
  }

  lemma DecodedInv(s: string) returns (pos: nat, symbols: seq<nat>)
    requires IsAscii(s) && Decoded(s).Ok?
    ensures 1 <= pos <= |s| - 7 && |s| <= 90 && s[pos] == '1' && |symbols| == |s| - pos - 1
    ensures Printable(s[..pos]) && (IsLower(s) || IsUpper(s))
    ensures Quintets(symbols) && ToLower(s)[pos + 1..] == Chars(symbols)
    ensures Decoded(s) == DecodedData(s[..pos], symbols)
  {
    hide IndexRune, DecodedData, CharAt, LowerChar, UpperChar, Quintets;
    pos := LastOne(s);
    symbols := Indices(ToLower(s)[pos + 1..]);
    CharsOfIndices(ToLower(s)[pos + 1..]);
  }

  lemma DecodedDataInv(hrp: string, symbols: seq<nat>, data: seq<nat>)
    requires IsAscii(hrp) && Quintets(symbols) && |symbols| >= 6
    requires DecodedData(hrp, symbols) == Ok((hrp, data))
    ensures var values := symbols[..|symbols| - 6];
            && Regrouped(data, 8, 5, true) == Ok(values) && symbols == values + Tail(hrp, values)
  {
    hide Regrouped, Tail, Verifies;
    var values, tail := symbols[..|symbols| - 6], symbols[|symbols| - 6..];
    assert symbols == values + tail;
    TailExact(hrp, values, tail);
    SymbolsRoundTrip(values, data);
  }

  lemma CaseOfPart(s: string, pos: nat)
    requires pos <= |s| && (IsLower(s) || IsUpper(s))
    ensures IsLower(s) ==> IsLower(s[..pos])
    ensures IsUpper(s) ==> IsUpper(s[..pos])
    ensures !IsLower(s[..pos]) ==> HasLetter(s[..pos])
    ensures HasLetter(s[..pos]) && IsLower(s[..pos]) ==> IsLower(s)
  {
    var hrp := s[..pos];
    if IsLower(s) {
      assert ToLower(hrp) == ToLower(s)[..pos];
    }
    if IsUpper(s) {
      assert ToUpper(hrp) == ToUpper(s)[..pos];
    }
    if !IsLower(hrp) {
      var i :| 0 <= i < |hrp| && ToLower(hrp)[i] != hrp[i];
      assert IsLetter(hrp[i]);
    }
    assert forall i | 0 <= i < |hrp| :: ToLower(hrp)[i] == LowerChar(hrp[i]) && ToUpper(s)[i] == UpperChar(hrp[i]);
  }

  /**
   Every text that Decode accepts is the one that Encode writes for the decoded values, up to letter case; and it
   is that very text exactly when it is in lower case or its human-readable part has a letter.
   */
  lemma Canonical(s: string, hrp: string, data: seq<nat>)
    requires IsAscii(s) && Decoded(s) == Ok((hrp, data))
    ensures IsAscii(hrp) && Encoded(hrp, data).Ok?
    ensures ToLower(Encoded(hrp, data).value) == ToLower(s)
    ensures Encoded(hrp, data).value == s <==> IsLower(s) || HasLetter(hrp)
  {
    hide Regrouped, Tail, Chars, Encoded, Decoded, HasLetter, LowerChar, UpperChar, Body, ToLower, ToUpper;
    var pos, symbols := DecodedInv(s);
    DecodedDataInv(hrp, symbols, data);
    var values := symbols[..|symbols| - 6];
    CaseOfPart(s, pos);
    EncodedForm(hrp, data, values);
    BodyShape(hrp, values);
    LowerParts(s, pos);
    LowerUpper(s);
    assert Body(hrp, values) == ToLower(s);
  }

  lemma LowerParts(s: string, pos: nat)
    requires pos < |s| && s[pos] == '1'
    ensures ToLower(s) == ToLower(s[..pos]) + "1" + ToLower(s)[pos + 1..]
  {
  }

  /** A burst of changed symbols, anywhere in the data part and at any length, is always detected. */
  lemma BurstRejected(hrp: string, data: seq<nat>, changed: seq<nat>, p: nat)
    requires IsAscii(hrp) && Quintets(data) && Quintets(changed) && |data| == |changed| && data != changed
    requires forall i | 0 <= i < |data| && !(p <= i < p + 6) :: data[i] == changed[i]
    requires Verifies(hrp, data)
    ensures !Verifies(hrp, changed)
  {
    hide Fold, SymbolBits, Symbol, Expand;
    ExpandQuintets(hrp);
    BitsAreSymbols(Expand(hrp));
    BitsAreSymbols(data);
    BitsAreSymbols(changed);
    var head := Bits(Expand(hrp));
    forall i | 0 <= i < |head| + |data| && !(|head| + p <= i < |head| + p + 6)
      ensures (head + Bits(data))[i] == (head + Bits(changed))[i]
    {
      if i >= |head| {
        assert data[i - |head|] == changed[i - |head|];
      }
    }
    assert Numbers(Bits(data)) != Numbers(Bits(changed));
    assert (head + Bits(data))[|head|..] == Bits(data) && (head + Bits(changed))[|head|..] == Bits(changed);
    BurstDetected(head + Bits(data), head + Bits(changed), |head| + p);
  }

  // ----- exactly what is encoded and decoded -----

  predicate HasUpper(s: string) {
    exists i | 0 <= i < |s| :: 'A' <= s[i] <= 'Z'
  }

  predicate HasLower(s: string) {
    exists i | 0 <= i < |s| :: 'a' <= s[i] <= 'z'
  }

  lemma CaseExact(s: string)
    ensures IsLower(s) <==> !HasUpper(s)
    ensures IsUpper(s) <==> !HasLower(s)
  {
    if HasUpper(s) {
      var i :| 0 <= i < |s| && 'A' <= s[i] <= 'Z';
      assert ToLower(s)[i] != s[i];
    } else {
      assert forall i | 0 <= i < |s| :: ToLower(s)[i] == s[i];
    }
    if HasLower(s) {
      var i :| 0 <= i < |s| && 'a' <= s[i] <= 'z';
      assert ToUpper(s)[i] != s[i];
    } else {
      assert forall i | 0 <= i < |s| :: ToUpper(s)[i] == s[i];
    }
  }

  /** Bytes are encoded under a printable human-readable part of one letter case, up to 90 characters in all. */
  lemma EncodeExact(hrp: string, data: seq<nat>)
    requires IsAscii(hrp)
    ensures Encoded(hrp, data).Ok? <==>
              && (forall i | 0 <= i < |data| :: data[i] < 256) && hrp != ""
              && (forall i | 0 <= i < |hrp| :: 33 <= hrp[i] as int <= 126) && !(HasUpper(hrp) && HasLower(hrp))
              && |hrp| + 1 + (8 * |data| + 4) / 5 + 6 <= 90
    ensures Encoded(hrp, data).Ok? ==>
              && |Encoded(hrp, data).value| == |hrp| + 1 + (8 * |data| + 4) / 5 + 6
              && hrp + "1" <= Encoded(hrp, data).value
              && IsAscii(Encoded(hrp, data).value)
              && (if HasUpper(hrp) then !HasLower(Encoded(hrp, data).value) else !HasUpper(Encoded(hrp, data).value))
  {
    hide Regrouped, Tail, Chars, Body, ToLower, ToUpper, HasUpper, HasLower;
    CaseExact(hrp);
    BytesAre(data);
    if Fits(data, 8) {
      BytesRoundTrip(data);
      SymbolCountIs(|data|);
    } else {
      NotBytes(data);
    }
    if Encoded(hrp, data).Ok? {
      EncodedShape(hrp, data, Regrouped(data, 8, 5, true).value);
      CaseExact(Encoded(hrp, data).value);
    }
  }

  lemma BytesAre(data: seq<nat>)
    ensures Fits(data, 8) <==> forall i | 0 <= i < |data| :: data[i] < 256
  {
    Pow2Small();
  }

  lemma NotBytes(data: seq<nat>)
    requires !Fits(data, 8)
    ensures Regrouped(data, 8, 5, true).Err?
  {
  }

  lemma SymbolCountIs(n: nat)
    ensures SymbolCount(n) == (8 * n + 4) / 5
  {
  }

  lemma EncodedShape(hrp: string, data: seq<nat>, values: seq<nat>)
    requires IsAscii(hrp) && Encoded(hrp, data).Ok? && Regrouped(data, 8, 5, true) == Ok(values)
    ensures Quintets(values) && Encoded(hrp, data) == Ok(Cased(hrp, Body(hrp, values)))
    ensures var t := Encoded(hrp, data).value;
            && |t| == |hrp| + |values| + 7 && hrp + "1" <= t && IsAscii(t) && (if IsLower(hrp) then IsLower(t) else IsUpper(t))
  {
    hide Regrouped, Tail, Chars, Body, ToLower, ToUpper;
    RegroupedQuintets(data);
    BodyShape(hrp, values);
    CaseOfAscii(Body(hrp, values));
    SplitBody(hrp, values + Tail(hrp, values));
    LowerUpper(Body(hrp, values));
    var t := Encoded(hrp, data).value;
    assert t[|hrp|] == '1' && t[..|hrp|] == hrp;
    assert hrp + "1" == t[..|hrp| + 1];
  }

  /** The letter case of a text of one case changes nothing but the letter case of the human-readable part. */
  lemma UpperDecodes(s: string)
    requires IsAscii(s) && IsLower(s) && Decoded(s).Ok?
    ensures IsAscii(ToUpper(s)) && Decoded(ToUpper(s)) == Ok((ToUpper(Decoded(s).value.0), Decoded(s).value.1))
  {
    hide IndexRune, DecodedData, CharAt, LowerChar, UpperChar, Quintets, LastOne, ToLower, ToUpper, Regrouped;
    var pos, symbols := DecodedInv(s);
    var u := ToUpper(s);
    CaseOfAscii(s);
    UpperParts(s, pos);
    LowerUpper(s);
    LowerUpper(s[..pos]);
    CharsAreLower(symbols);
    LastOneOfUpper(s, pos, Chars(symbols));
    DecodedForm(u, ToUpper(s[..pos]), symbols);
    SameExpand(s[..pos]);
  }

  lemma UpperParts(s: string, pos: nat)
    requires pos < |s| && s[pos] == '1' && IsLower(s) && Printable(s[..pos])
    ensures var u := ToUpper(s);
            && |u| == |s| && u[..pos] == ToUpper(s[..pos]) && Printable(u[..pos])
            && u == ToUpper(s[..pos]) + "1" + ToUpper(s[pos + 1..])
            && s[pos + 1..] == ToLower(s)[pos + 1..]
  {
    assert ToUpper(s)[pos] == '1' by {
      OneIsNoLetter();
    }
  }

  lemma LastOneOfUpper(s: string, pos: nat, c: string)
    requires pos < |s| && s[pos + 1..] == c && forall i | 0 <= i < |c| :: ToUpper(c)[i] != '1'
    requires ToUpper(s) == ToUpper(s[..pos]) + "1" + ToUpper(s[pos + 1..])
    ensures LastOne(ToUpper(s)) == pos
  {
    hide LastOne, UpperChar;
    LastOneIs(ToUpper(s[..pos]), ToUpper(c));
  }

  lemma SameExpand(hrp: string)
    requires IsAscii(hrp) && IsAscii(ToUpper(hrp))
    ensures Expand(ToUpper(hrp)) == Expand(hrp)
    ensures forall data | Quintets(data) && |data| >= 6 ::
              DecodedData(ToUpper(hrp), data).Ok? == DecodedData(hrp, data).Ok?
              && (DecodedData(hrp, data).Ok? ==>
                    DecodedData(hrp, data).value.0 == hrp
                    && DecodedData(ToUpper(hrp), data).value == (ToUpper(hrp), DecodedData(hrp, data).value.1))
  {
    hide Regrouped, Fold, Bits;
    LowerUpper(hrp);
  }

  /** A text is decoded exactly if it is of one letter case and what Encode writes, in lower case, for some bytes. */
  lemma DecodeExact(s: string)
    requires IsAscii(s)
    ensures Decoded(s).Ok? <==>
              !(HasUpper(s) && HasLower(s))
              && exists hrp, data :: IsAscii(hrp) && IsLower(hrp) && Encoded(hrp, data) == Ok(ToLower(s))
  {
    hide Encoded, Decoded, HasUpper, HasLower, ToLower, ToUpper;
    CaseExact(s);
    if Decoded(s).Ok? {
      var (hrp, data) := Decoded(s).value;
      DecodedText(s, hrp, data);
    }
    if hrp, data :| IsAscii(hrp) && IsLower(hrp) && Encoded(hrp, data) == Ok(ToLower(s)) && !(HasUpper(s) && HasLower(s)) {
      EncodeExact(hrp, data);
      BytesAre(data);
      SymbolCountIs(|data|);
      RoundTrip(hrp, data);
      LowerUpper(s);
      if !IsLower(s) {
        UpperDecodes(ToLower(s));
      }
    }
  }

  lemma DecodedText(s: string, hrp: string, data: seq<nat>)
    requires IsAscii(s) && Decoded(s) == Ok((hrp, data))
    ensures !(HasUpper(s) && HasLower(s))
    ensures IsAscii(ToLower(hrp)) && IsLower(ToLower(hrp)) && Encoded(ToLower(hrp), data) == Ok(ToLower(s))
  {
    hide Regrouped, Tail, Chars, Decoded, LowerChar, UpperChar, Body, ToLower, ToUpper, HasUpper, HasLower, Encoded;
    CaseExact(s);
    var pos, symbols := DecodedInv(s);
    DecodedDataInv(hrp, symbols, data);
    Canonical(s, hrp, data);
    var values := symbols[..|symbols| - 6];
    LowerAscii(hrp);
    LowerUpper(hrp);
    LowerUpper(s);
    LowerPrintable(hrp);
    EncodedForm(ToLower(hrp), data, values);
    TailOfLower(hrp, values);
    BodyShape(hrp, values);
    BodyShape(ToLower(hrp), values);
    LowerParts(s, pos);
  }

  lemma LowerPrintable(hrp: string)
    requires Printable(hrp)
    ensures Printable(ToLower(hrp))
  {
  }

  /** The refusals of Encode, each under its own condition. */
  lemma EncodeErrors(hrp: string, data: seq<nat>)
    requires IsAscii(hrp)
    ensures var r := Encoded(hrp, data);
            var bytes, short := (forall i | 0 <= i < |data| :: data[i] < 256), |hrp| + 1 + (8 * |data| + 4) / 5 + 6 <= 90;
            && (!bytes ==> r.Err? && r.error.InvalidBits?)
            && (bytes && !short <==> r == Err(TooLong))
            && (bytes && short && hrp == "" <==> r == Err(EmptyHrp))
            && (bytes && short && (exists i | 0 <= i < |hrp| :: !(33 <= hrp[i] as int <= 126)) <==> r == Err(InvalidHrpCharacter))
            && (bytes && short && Printable(hrp) && HasUpper(hrp) && HasLower(hrp) <==> r == Err(MixedCase))
  {
    hide Regrouped, Body, ToLower, ToUpper, HasUpper, HasLower;
    CaseExact(hrp);
    BytesAre(data);
    if Fits(data, 8) {
      BytesRoundTrip(data);
      SymbolCountIs(|data|);
    } else {
      NotBytes(data);
    }
  }

  /** The refusals of Decode up to the separator, each under its own condition. */
  lemma DecodeErrors(s: string, p: nat)
    requires IsAscii(s)
    ensures Decoded(s) == Err(TooLong) <==> |s| > 90
    ensures Decoded(s) == Err(MixedCase) <==> |s| <= 90 && HasUpper(s) && HasLower(s)
    ensures p < |s| && s[p] == '1' && (forall i | p < i < |s| :: s[i] != '1') && |s| <= 90 && !(HasUpper(s) && HasLower(s)) ==>
              && (Decoded(s) == Err(InvalidSeparator) <==> p == 0 || |s| - p - 1 < 6)
              && (Decoded(s) == Err(InvalidHrpCharacter) <==> 0 < p <= |s| - 7 && !Printable(s[..p]))
              && (Decoded(s) == Err(InvalidDataCharacter) <==>
                    && 0 < p <= |s| - 7 && Printable(s[..p])
                    && exists i | p < i < |s| :: IndexRune(LowerChar(s[i])) < 0)
    ensures (forall i | 0 <= i < |s| :: s[i] != '1') && |s| <= 90 && !(HasUpper(s) && HasLower(s)) ==>
              Decoded(s) == Err(InvalidSeparator)
  {
    hide Regrouped, Verifies, IndexRune, CharAt, LowerChar, UpperChar, HasUpper, HasLower;
    CaseExact(s);
    var pos := LastOne(s);
    if p < |s| && s[p] == '1' && forall i | p < i < |s| :: s[i] != '1' {
      assert pos == p;
      assert forall i | p < i < |s| :: ToLower(s)[p + 1..][i - p - 1] == LowerChar(s[i]);
    }
  }
}
