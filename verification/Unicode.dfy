/** ECMAScript strings as UTF-16 code units, and their UTF-8 encoding as performed by
    the buffer of the runtime. */
module Unicode {
  type CodeUnit = x: int | 0 <= x < 0x10000

  /** An ECMAScript string; it may hold unpaired surrogates. */
  type JsString = seq<CodeUnit>

  /** A Unicode scalar value: any code point that is not a surrogate. */
  type Scalar = x: int | 0 <= x < 0xD800 || 0xE000 <= x < 0x110000

  type Byte = x: int | 0 <= x < 0x100

  const REPLACEMENT: Scalar := 0xFFFD

  predicate IsHigh(u: CodeUnit) { 0xD800 <= u < 0xDC00 }

  predicate IsLow(u: CodeUnit) { 0xDC00 <= u < 0xE000 }

  predicate StartsPair(s: JsString) { |s| > 1 && IsHigh(s[0]) && IsLow(s[1]) }

  function Combine(high: CodeUnit, low: CodeUnit): Scalar
    requires IsHigh(high) && IsLow(low)
  {
    0x10000 + (high - 0xD800) * 0x400 + (low - 0xDC00)
  }

  /** No unpaired surrogate. */
  predicate WellFormed(s: JsString) {
    if s == [] then true
    else if StartsPair(s) then WellFormed(s[2..])
    else !IsHigh(s[0]) && !IsLow(s[0]) && WellFormed(s[1..])
  }

  /** The scalar values of a string, an unpaired surrogate becoming U+FFFD. */
  function ToScalars(s: JsString): seq<Scalar> {
    if s == [] then []
    else if StartsPair(s) then [Combine(s[0], s[1])] + ToScalars(s[2..])
    else if IsHigh(s[0]) || IsLow(s[0]) then [REPLACEMENT] + ToScalars(s[1..])
    else [s[0]] + ToScalars(s[1..])
  }

  function Units(c: Scalar): JsString {
    if c < 0x10000 then [c]
    else [0xD800 + (c - 0x10000) / 0x400, 0xDC00 + (c - 0x10000) % 0x400]
  }

  function FromScalars(cs: seq<Scalar>): JsString {
    if cs == [] then [] else Units(cs[0]) + FromScalars(cs[1..])
  }

  lemma {:induction false} ScalarsRoundTrip(cs: seq<Scalar>)
    ensures ToScalars(FromScalars(cs)) == cs
    ensures WellFormed(FromScalars(cs))
  {
    if cs != [] {
      ScalarsRoundTrip(cs[1..]);
      var s := FromScalars(cs);
      if cs[0] < 0x10000 {
        assert !StartsPair(s) && s[1..] == FromScalars(cs[1..]);
      } else {
        assert StartsPair(s) && s[2..] == FromScalars(cs[1..]);
      }
    }
  }

  lemma {:induction false} StringRoundTrip(s: JsString)
    requires WellFormed(s)
    ensures FromScalars(ToScalars(s)) == s
  {
    if s != [] {
      if StartsPair(s) {
        StringRoundTrip(s[2..]);
        assert Units(Combine(s[0], s[1])) == [s[0], s[1]];
        assert s == [s[0], s[1]] + s[2..];
        assert ToScalars(s)[1..] == ToScalars(s[2..]);
      } else {
        StringRoundTrip(s[1..]);
        assert ToScalars(s)[1..] == ToScalars(s[1..]);
      }
    }
  }

  /** Going through scalar values gives back exactly the well-formed strings. */
  lemma StringRoundTripIff(s: JsString)
    ensures FromScalars(ToScalars(s)) == s <==> WellFormed(s)
  {
    ScalarsRoundTrip(ToScalars(s));
    if WellFormed(s) {
      StringRoundTrip(s);
    }
  }

  // ---------------------------------------------------------------------------
  // UTF-8
  // ---------------------------------------------------------------------------

  function EncodeScalar(c: Scalar): (bytes: seq<Byte>)
    ensures 1 <= |bytes| <= 4
  {
    if c < 0x80 then [c]
    else if c < 0x800 then [0xC0 + c / 0x40, 0x80 + c % 0x40]
    else if c < 0x10000 then [0xE0 + c / 0x1000, 0x80 + c / 0x40 % 0x40, 0x80 + c % 0x40]
    else [0xF0 + c / 0x40000, 0x80 + c / 0x1000 % 0x40, 0x80 + c / 0x40 % 0x40, 0x80 + c % 0x40]
  }

  function EncodeUtf8(cs: seq<Scalar>): seq<Byte> {
    if cs == [] then [] else EncodeScalar(cs[0]) + EncodeUtf8(cs[1..])
  }

  function At(bytes: seq<Byte>, i: nat): int {
    if i < |bytes| then bytes[i] else -1
  }

  predicate Between(bytes: seq<Byte>, i: nat, lo: int, hi: int) {
    lo <= At(bytes, i) <= hi
  }

  /** The lower and upper bound of the second byte after a lead byte. */
  function SecondLow(lead: Byte): int {
    if lead == 0xE0 then 0xA0 else if lead == 0xF0 then 0x90 else 0x80
  }

  function SecondHigh(lead: Byte): int {
    if lead == 0xED then 0x9F else if lead == 0xF4 then 0x8F else 0xBF
  }

  /** One decoded character: `valid` tells whether the bytes spell it, `length` how
      many bytes it takes (for an ill-formed sequence, its maximal subpart). */
  datatype Decoded = Decoded(valid: bool, scalar: Scalar, length: nat)

  function Bad(length: nat): Decoded { Decoded(false, REPLACEMENT, length) }

  function DecodeOne(bytes: seq<Byte>): (d: Decoded)
    requires bytes != []
    ensures 1 <= d.length <= |bytes|
  {
    var b0, b1, b2, b3 := At(bytes, 0), At(bytes, 1), At(bytes, 2), At(bytes, 3);
    if b0 < 0x80 then Decoded(true, b0, 1)
    else if b0 < 0xC2 || b0 > 0xF4 || !Between(bytes, 1, SecondLow(b0), SecondHigh(b0)) then Bad(1)
    else if b0 < 0xE0 then Decoded(true, (b0 - 0xC0) * 0x40 + (b1 - 0x80), 2)
    else if !Between(bytes, 2, 0x80, 0xBF) then Bad(2)
    else if b0 < 0xF0 then Decoded(true, (b0 - 0xE0) * 0x1000 + (b1 - 0x80) * 0x40 + (b2 - 0x80), 3)
    else if !Between(bytes, 3, 0x80, 0xBF) then Bad(3)
    else Decoded(true, (b0 - 0xF0) * 0x40000 + (b1 - 0x80) * 0x1000 + (b2 - 0x80) * 0x40 + (b3 - 0x80), 4)
  }

  /** Lenient decoding: every ill-formed sequence becomes one U+FFFD. */
  function DecodeUtf8(bytes: seq<Byte>): seq<Scalar>
    decreases |bytes|
  {
    if bytes == [] then []
    else [DecodeOne(bytes).scalar] + DecodeUtf8(bytes[DecodeOne(bytes).length..])
  }

  lemma DecodeTwo(c: Scalar, bytes: seq<Byte>)
    requires 0x80 <= c < 0x800 && |bytes| >= 2
    requires bytes[0] == 0xC0 + c / 0x40 && bytes[1] == 0x80 + c % 0x40
    ensures DecodeOne(bytes) == Decoded(true, c, 2)
  {
  }

  lemma DecodeThree(c: Scalar, bytes: seq<Byte>)
    requires 0x800 <= c < 0x10000 && |bytes| >= 3
    requires bytes[0] == 0xE0 + c / 0x1000 && bytes[1] == 0x80 + c / 0x40 % 0x40 && bytes[2] == 0x80 + c % 0x40
    ensures DecodeOne(bytes) == Decoded(true, c, 3)
  {
    assert c == c / 0x1000 * 0x1000 + c / 0x40 % 0x40 * 0x40 + c % 0x40;
  }

  lemma FourDigits(c: nat)
    ensures c == c / 0x40000 * 0x40000 + c / 0x1000 % 0x40 * 0x1000 + c / 0x40 % 0x40 * 0x40 + c % 0x40
  {
    assert c / 0x1000 / 0x40 == c / 0x40000;
    assert c / 0x40 / 0x40 == c / 0x1000;
  }

  lemma DecodeFour(c: Scalar, bytes: seq<Byte>)
    requires 0x10000 <= c && |bytes| >= 4
    requires bytes[0] == 0xF0 + c / 0x40000 && bytes[1] == 0x80 + c / 0x1000 % 0x40
    requires bytes[2] == 0x80 + c / 0x40 % 0x40 && bytes[3] == 0x80 + c % 0x40
    ensures DecodeOne(bytes) == Decoded(true, c, 4)
  {
    FourDigits(c);
  }

  lemma DecodeEncoded(c: Scalar, rest: seq<Byte>)
    ensures DecodeOne(EncodeScalar(c) + rest) == Decoded(true, c, |EncodeScalar(c)|)
  {
    var bytes := EncodeScalar(c) + rest;
    if c < 0x80 {
    } else if c < 0x800 {
      DecodeTwo(c, bytes);
    } else if c < 0x10000 {
      DecodeThree(c, bytes);
    } else {
      DecodeFour(c, bytes);
    }
  }

  function Above(unit: int, marker: int): int { unit - marker }

  /** The shortest form of Table 3-6 of the Unicode Standard: the lead byte tells the
      length, and the bits behind its marker and those of the other bytes spell `c`. */
  ghost predicate SpellsUtf8(b: seq<Byte>, c: Scalar) {
    if c < 0x80 then b == [c]
    else if c < 0x800 then
      |b| == 2 && 0xC0 <= b[0] < 0xE0 && c == Above(b[0], 0xC0) * 64 + Above(b[1], 0x80)
    else if c < 0x10000 then
      |b| == 3 && 0xE0 <= b[0] < 0xF0
      && c == Above(b[0], 0xE0) * 4096 + Above(b[1], 0x80) * 64 + Above(b[2], 0x80)
    else
      |b| == 4 && 0xF0 <= b[0] < 0xF8
      && c == Above(b[0], 0xF0) * 262144 + Above(b[1], 0x80) * 4096 + Above(b[2], 0x80) * 64 + Above(b[3], 0x80)
  }

  lemma Utf8Layout(c: Scalar)
    ensures SpellsUtf8(EncodeScalar(c), c)
    ensures forall i :: 1 <= i < |EncodeScalar(c)| ==> 0x80 <= EncodeScalar(c)[i] < 0xC0
  {
    FourDigits(c);
    assert c < 0x10000 ==> c == c / 0x1000 * 0x1000 + c / 0x40 % 0x40 * 0x40 + c % 0x40;
  }

  /** A scalar value outside the first plane is a high and a low surrogate with ten of
      its bits each. */
  lemma Utf16Layout(c: Scalar)
    ensures var u := Units(c);
            if c < 0x10000 then u == [c]
            else |u| == 2 && IsHigh(u[0]) && IsLow(u[1])
                 && c == 0x10000 + Above(u[0], 0xD800) * 1024 + Above(u[1], 0xDC00)
  {
  }

  lemma {:induction false} Utf8RoundTrip(cs: seq<Scalar>)
    ensures DecodeUtf8(EncodeUtf8(cs)) == cs
  {
    if cs != [] {
      var head, rest := EncodeScalar(cs[0]), EncodeUtf8(cs[1..]);
      DecodeEncoded(cs[0], rest);
      assert (head + rest)[|head|..] == rest;
      Utf8RoundTrip(cs[1..]);
    }
  }

  /** `Buffer.from(s, 'utf-8')` and `buffer.toString('utf-8')`. */
  function ToBytes(s: JsString): seq<Byte> { EncodeUtf8(ToScalars(s)) }

  function FromBytes(bytes: seq<Byte>): JsString { FromScalars(DecodeUtf8(bytes)) }

  /** What a string becomes when stored as UTF-8 and read back: unchanged exactly when
      it is well formed. */
  lemma BytesRoundTripIff(s: JsString)
    ensures FromBytes(ToBytes(s)) == FromScalars(ToScalars(s))
    ensures FromBytes(ToBytes(s)) == s <==> WellFormed(s)
  {
    Utf8RoundTrip(ToScalars(s));
    StringRoundTripIff(s);
  }

  /** The result of decoding is always well formed. */
  lemma DecodedIsWellFormed(bytes: seq<Byte>)
    ensures WellFormed(FromBytes(bytes))
  {
    ScalarsRoundTrip(DecodeUtf8(bytes));
  }

  lemma EmptyBytes(s: JsString)
    ensures ToBytes(s) == [] <==> s == []
  {
  }
}
