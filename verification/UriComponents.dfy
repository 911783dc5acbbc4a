/** `encodeURIComponent` and `decodeURIComponent`, section 19.2.6 of ECMA-262. */
module UriComponents {
  import opened Wrappers
  import opened Unicode

  const PERCENT: CodeUnit := 37
  const SLASH: CodeUnit := 47

  /** Letters, digits and - _ . ! ~ * ' ( ) */
  predicate Unreserved(u: int) {
    65 <= u <= 90 || 97 <= u <= 122 || 48 <= u <= 57 ||
    u == 45 || u == 95 || u == 46 || u == 33 || u == 126 || u == 42 || u == 39 || u == 40 || u == 41
  }

  function HexDigit(n: int): (u: CodeUnit)
    requires 0 <= n < 16
    ensures u != SLASH
  {
    if n < 10 then 48 + n else 55 + n
  }

  /** The value of an upper or lower case hexadecimal digit, or -1. */
  function HexValue(u: CodeUnit): int {
    if 48 <= u <= 57 then u - 48
    else if 65 <= u <= 70 then u - 55
    else if 97 <= u <= 102 then u - 87
    else -1
  }

  function PercentBytes(bytes: seq<Byte>): JsString {
    if bytes == [] then []
    else [PERCENT, HexDigit(bytes[0] / 16), HexDigit(bytes[0] % 16)] + PercentBytes(bytes[1..])
  }

  function EncodeChar(c: Scalar): JsString {
    if Unreserved(c) then [c] else PercentBytes(EncodeScalar(c))
  }

  function EncodeChars(cs: seq<Scalar>): JsString {
    if cs == [] then [] else EncodeChar(cs[0]) + EncodeChars(cs[1..])
  }

  /** The encoding of a well-formed string, code point by code point. */
  function Encode(s: JsString): JsString { EncodeChars(ToScalars(s)) }

  /** `encodeURIComponent`: the scan over code units, which throws at the first
      unpaired surrogate. */
  function EncodeURIComponent(s: JsString): Option<JsString> {
    if s == [] then Some([])
    else if StartsPair(s) then Prepend(EncodeChar(Combine(s[0], s[1])), EncodeURIComponent(s[2..]))
    else if IsHigh(s[0]) || IsLow(s[0]) then None
    else Prepend(EncodeChar(s[0]), EncodeURIComponent(s[1..]))
  }

  function Prepend(head: JsString, tail: Option<JsString>): Option<JsString> {
    match tail case Some(t) => Some(head + t) case None => None
  }

  /** The characters that section 19.2.6.4 of ECMA-262 leaves alone. */
  predicate LeftAlone(u: int) {
    || 'A' as int <= u <= 'Z' as int || 'a' as int <= u <= 'z' as int || '0' as int <= u <= '9' as int
    || u in {'-' as int, '_' as int, '.' as int, '!' as int, '~' as int, '*' as int, '\'' as int}
    || u in {'(' as int, ')' as int}
  }

  const HEX := "0123456789ABCDEF"

  ghost predicate Spells(s: JsString, bytes: seq<Byte>) {
    && |s| == 3 * |bytes|
    && forall i :: 0 <= i < |bytes| ==>
         && s[3 * i] == '%' as int
         && s[3 * i + 1] == HEX[bytes[i] / 16] as int && s[3 * i + 2] == HEX[bytes[i] % 16] as int
  }

  lemma {:induction false} PercentSpells(bytes: seq<Byte>)
    ensures Spells(PercentBytes(bytes), bytes)
  {
    if bytes != [] {
      PercentSpells(bytes[1..]);
      var s, rest := PercentBytes(bytes), PercentBytes(bytes[1..]);
      forall i | 0 <= i < |bytes|
        ensures s[3 * i] == '%' as int && s[3 * i + 1] == HEX[bytes[i] / 16] as int
             && s[3 * i + 2] == HEX[bytes[i] % 16] as int
      {
        if i > 0 {
          assert s[3 * i] == rest[3 * (i - 1)] && s[3 * i + 1] == rest[3 * (i - 1) + 1]
              && s[3 * i + 2] == rest[3 * (i - 1) + 2];
        }
      }
    }
  }

  /** The character itself if it is left alone, else a percent sign and two upper-case
      hexadecimal digits for every byte of its UTF-8 form. */
  lemma EncodeCharIs(c: Scalar)
    ensures if LeftAlone(c) then EncodeChar(c) == [c] else Spells(EncodeChar(c), EncodeScalar(c))
  {
    PercentSpells(EncodeScalar(c));
  }

  /** Encoding fails exactly on strings with an unpaired surrogate. */
  lemma {:induction false} EncodingIs(s: JsString)
    ensures EncodeURIComponent(s) == if WellFormed(s) then Some(Encode(s)) else None
  {
    if s != [] {
      if StartsPair(s) {
        EncodingIs(s[2..]);
        assert ToScalars(s)[1..] == ToScalars(s[2..]);
      } else if !IsHigh(s[0]) && !IsLow(s[0]) {
        EncodingIs(s[1..]);
        assert ToScalars(s)[1..] == ToScalars(s[1..]);
      }
    }
  }

  /** `n` percent-encoded bytes at the start of a string. */
  function ReadBytes(s: JsString, n: nat): Option<seq<Byte>> {
    if n == 0 then Some([])
    else if |s| < 3 || s[0] != PERCENT || HexValue(s[1]) < 0 || HexValue(s[2]) < 0 then None
    else match ReadBytes(s[3..], n - 1)
      case None => None
      case Some(rest) => Some([HexValue(s[1]) * 16 + HexValue(s[2])] + rest)
  }

  /** How many bytes a lead byte announces; 0 when it cannot be one. */
  function Announced(lead: Byte): nat {
    if lead < 0x80 then 1
    else if 0xC0 <= lead < 0xE0 then 2
    else if 0xE0 <= lead < 0xF0 then 3
    else if 0xF0 <= lead < 0xF8 then 4
    else 0
  }

  /** The scalar value percent-encoded at the start of a string, and its length there. */
  function ReadChar(s: JsString): Option<(Scalar, nat)> {
    match ReadBytes(s, 1)
    case None => None
    case Some(lead) =>
      var n := Announced(lead[0]);
      match ReadBytes(s, n)
      case None => None
      case Some(bytes) =>
        if n == 0 || bytes == [] then None
        else
          var d := DecodeOne(bytes);
          if d.valid && d.length == n then Some((d.scalar, 3 * n)) else None
  }

  function DecodeURIComponent(s: JsString): Option<JsString>
    decreases |s|
  {
    if s == [] then Some([])
    else if s[0] != PERCENT then
      match DecodeURIComponent(s[1..]) case None => None case Some(rest) => Some([s[0]] + rest)
    else match ReadChar(s)
      case None => None
      case Some((c, n)) =>
        if n == 0 || n > |s| then None
        else match DecodeURIComponent(s[n..]) case None => None case Some(rest) => Some(Units(c) + rest)
  }

  lemma {:induction false} PercentBytesLength(bytes: seq<Byte>)
    ensures |PercentBytes(bytes)| == 3 * |bytes|
    ensures SLASH !in PercentBytes(bytes)
    ensures bytes != [] ==> PercentBytes(bytes)[0] == PERCENT
  {
    if bytes != [] {
      PercentBytesLength(bytes[1..]);
    }
  }

  lemma {:induction false} ReadEncoded(bytes: seq<Byte>, n: nat, rest: JsString)
    requires n <= |bytes|
    ensures ReadBytes(PercentBytes(bytes) + rest, n) == Some(bytes[..n])
  {
    if n > 0 {
      var s := PercentBytes(bytes) + rest;
      PercentBytesLength(bytes);
      assert s[3..] == PercentBytes(bytes[1..]) + rest;
      ReadEncoded(bytes[1..], n - 1, rest);
      assert bytes[..n] == [bytes[0]] + bytes[1..][..n - 1];
    }
  }

  lemma AnnouncedLength(c: Scalar)
    ensures Announced(EncodeScalar(c)[0]) == |EncodeScalar(c)|
  {
  }

  lemma ReadEncodedChar(c: Scalar, rest: JsString)
    ensures ReadChar(PercentBytes(EncodeScalar(c)) + rest) == Some((c, 3 * |EncodeScalar(c)|))
  {
    var bytes := EncodeScalar(c);
    ReadEncoded(bytes, 1, rest);
    ReadEncoded(bytes, |bytes|, rest);
    AnnouncedLength(c);
    assert bytes[..|bytes|] == bytes;
    DecodeEncoded(c, []);
    assert bytes + [] == bytes;
  }

  lemma {:induction false} DecodeEncodedChars(cs: seq<Scalar>)
    ensures DecodeURIComponent(EncodeChars(cs)) == Some(FromScalars(cs))
  {
    if cs != [] {
      var c, tail := cs[0], EncodeChars(cs[1..]);
      var s := EncodeChar(c) + tail;
      DecodeEncodedChars(cs[1..]);
      if Unreserved(c) {
        assert s[1..] == tail;
      } else {
        PercentBytesLength(EncodeScalar(c));
        ReadEncodedChar(c, tail);
        assert s[3 * |EncodeScalar(c)|..] == tail;
      }
    }
  }

  /** Decoding inverts encoding on every string that can be encoded, and a string can
      be encoded exactly when it has no unpaired surrogate. */
  lemma ComponentRoundTrip(s: JsString)
    ensures EncodeURIComponent(s).Some? <==> WellFormed(s)
    ensures WellFormed(s) ==> EncodeURIComponent(s) == Some(Encode(s)) && DecodeURIComponent(Encode(s)) == Some(s)
  {
    EncodingIs(s);
    if WellFormed(s) {
      DecodeEncodedChars(ToScalars(s));
      StringRoundTrip(s);
    }
  }

  lemma EncodeIsInjective(a: JsString, b: JsString)
    requires WellFormed(a) && WellFormed(b) && Encode(a) == Encode(b)
    ensures a == b
  {
    ComponentRoundTrip(a);
    ComponentRoundTrip(b);
  }

  lemma {:induction false} EncodedCharsHaveNoSlash(cs: seq<Scalar>)
    ensures SLASH !in EncodeChars(cs)
  {
    if cs != [] {
      EncodedCharsHaveNoSlash(cs[1..]);
      PercentBytesLength(EncodeScalar(cs[0]));
    }
  }
}
