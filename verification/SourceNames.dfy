/** The display names under which session transcripts are stored
    (core/src/memory/rag_memory_transcript.ts); base64url as in section 5 of RFC 4648. */
module SourceNames {
  import opened Wrappers
  import opened Unicode

  type Sextet = x: int | 0 <= x < 64

  // ---------------------------------------------------------------------------
  // base64url without padding
  // ---------------------------------------------------------------------------

  function Digits(bytes: seq<Byte>): seq<Sextet> {
    if |bytes| == 0 then []
    else if |bytes| == 1 then [bytes[0] / 4, bytes[0] % 4 * 16]
    else if |bytes| == 2 then [bytes[0] / 4, bytes[0] % 4 * 16 + bytes[1] / 16, bytes[1] % 16 * 4]
    else
      [bytes[0] / 4, bytes[0] % 4 * 16 + bytes[1] / 16, bytes[1] % 16 * 4 + bytes[2] / 64, bytes[2] % 64]
      + Digits(bytes[3..])
  }

  /** Four digits make three bytes; a single digit at the end is dropped. */
  function Bytes(digits: seq<Sextet>): seq<Byte> {
    if |digits| < 2 then []
    else if |digits| == 2 then [First(digits[0], digits[1])]
    else if |digits| == 3 then [First(digits[0], digits[1]), Second(digits[1], digits[2])]
    else [First(digits[0], digits[1]), Second(digits[1], digits[2]), Third(digits[2], digits[3])] + Bytes(digits[4..])
  }

  function First(d0: int, d1: int): Byte
    requires 0 <= d0 < 64 && 0 <= d1 < 64
  {
    d0 * 4 + d1 / 16
  }

  function Second(d1: int, d2: int): Byte
    requires 0 <= d1 < 64 && 0 <= d2 < 64
  {
    d1 % 16 * 16 + d2 / 4
  }

  function Third(d2: int, d3: int): Byte
    requires 0 <= d2 < 64 && 0 <= d3 < 64
  {
    d2 % 4 * 64 + d3
  }

  /** The alphabet: A-Z, a-z, 0-9, '-' and '_'. */
  function Letter(d: Sextet): (u: CodeUnit)
    ensures u != DOT
  {
    if d < 26 then 65 + d
    else if d < 52 then 97 + (d - 26)
    else if d < 62 then 48 + (d - 52)
    else if d == 62 then 45
    else 95
  }

  /** The value of a character; the decoder also knows '+' and '/'. */
  function Value(u: CodeUnit): Option<Sextet> {
    if 65 <= u <= 90 then Some(u - 65)
    else if 97 <= u <= 122 then Some(u - 97 + 26)
    else if 48 <= u <= 57 then Some(u - 48 + 52)
    else if u == 45 || u == 43 then Some(62)
    else if u == 95 || u == 47 then Some(63)
    else None
  }

  function Letters(digits: seq<Sextet>): JsString {
    seq(|digits|, i requires 0 <= i < |digits| => Letter(digits[i]))
  }

  /** Characters outside the alphabet are skipped. */
  function Values(s: JsString): seq<Sextet> {
    if s == [] then []
    else match Value(s[0]) case Some(d) => [d] + Values(s[1..]) case None => Values(s[1..])
  }

  function EncodeBase64Url(bytes: seq<Byte>): JsString { Letters(Digits(bytes)) }

  function DecodeBase64Url(s: JsString): seq<Byte> { Bytes(Values(s)) }

  lemma TripleRoundTrip(b0: Byte, b1: Byte, b2: Byte)
    ensures First(b0 / 4, b0 % 4 * 16 + b1 / 16) == b0
    ensures Second(b0 % 4 * 16 + b1 / 16, b1 % 16 * 4 + b2 / 64) == b1
    ensures Third(b1 % 16 * 4 + b2 / 64, b2 % 64) == b2
  {
  }

  lemma BytesOfTriple(b0: Byte, b1: Byte, b2: Byte, rest: seq<Sextet>)
    ensures Bytes([b0 / 4, b0 % 4 * 16 + b1 / 16, b1 % 16 * 4 + b2 / 64, b2 % 64] + rest) == [b0, b1, b2] + Bytes(rest)
  {
    TripleRoundTrip(b0, b1, b2);
    assert ([b0 / 4, b0 % 4 * 16 + b1 / 16, b1 % 16 * 4 + b2 / 64, b2 % 64] + rest)[4..] == rest;
  }

  lemma {:induction false} DigitsRoundTrip(bytes: seq<Byte>)
    ensures Bytes(Digits(bytes)) == bytes
  {
    if |bytes| == 1 {
      TripleRoundTrip(bytes[0], 0, 0);
    } else if |bytes| == 2 {
      TripleRoundTrip(bytes[0], bytes[1], 0);
    } else if |bytes| >= 3 {
      TripleRoundTrip(bytes[0], bytes[1], bytes[2]);
      DigitsRoundTrip(bytes[3..]);
      BytesOfTriple(bytes[0], bytes[1], bytes[2], Digits(bytes[3..]));
      assert bytes == bytes[..3] + bytes[3..];
    }
  }

  lemma {:induction false} LettersRoundTrip(digits: seq<Sextet>)
    ensures Values(Letters(digits)) == digits
  {
    if digits != [] {
      assert Letters(digits)[1..] == Letters(digits[1..]);
      LettersRoundTrip(digits[1..]);
    }
  }

  lemma Base64UrlRoundTrip(bytes: seq<Byte>)
    ensures DecodeBase64Url(EncodeBase64Url(bytes)) == bytes
  {
    LettersRoundTrip(Digits(bytes));
    DigitsRoundTrip(bytes);
  }

  /** The alphabet of Table 2 of RFC 4648. */
  ghost predicate Spells(u: CodeUnit, d: int) {
    if d < 26 then u == 'A' as int + d
    else if d < 52 then u == 'a' as int + (d - 26)
    else if d < 62 then u == '0' as int + (d - 52)
    else u == (if d == 62 then '-' as int else '_' as int)
  }

  function ByteAt(bytes: seq<Byte>, i: nat): Byte {
    if i < |bytes| then bytes[i] else 0
  }

  /** Six of the sixteen bits of two bytes. */
  function SixOf(x: Byte, y: Byte, from: int): int {
    (x * 256 + y) / (if from == 0 then 1024 else if from == 2 then 256 else if from == 4 then 64 else 16) % 64
  }

  /** The six bits of the stream from bit `6 * i` on, with zeros behind its end. */
  function SixBits(bytes: seq<Byte>, i: nat): int {
    SixOf(ByteAt(bytes, 6 * i / 8), ByteAt(bytes, 6 * i / 8 + 1), 6 * i % 8)
  }

  lemma SixBitsLater(bytes: seq<Byte>, i: nat)
    requires |bytes| >= 3 && i >= 4
    ensures SixBits(bytes, i) == SixBits(bytes[3..], i - 4)
  {
    assert 6 * i / 8 == 6 * (i - 4) / 8 + 3 && 6 * i % 8 == 6 * (i - 4) % 8;
  }

  lemma Remainder(q: int, r: int)
    requires 0 <= r < 64
    ensures (64 * q + r) % 64 == r
  {
  }

  lemma SixOfTwo(x: Byte, y: Byte)
    ensures SixOf(x, y, 0) == x / 4 && SixOf(x, y, 2) == x % 64
    ensures SixOf(x, y, 4) == x % 16 * 4 + y / 64 && SixOf(x, y, 6) == x % 4 * 16 + y / 16
  {
    var q, r := x / 4, x % 4;
    assert (x * 256 + y) / 1024 == q && (x * 256 + y) / 256 == x;
    assert (x * 256 + y) / 16 == 64 * q + (r * 16 + y / 16);
    Remainder(q, r * 16 + y / 16);
    var q', r' := x / 16, x % 16;
    assert (x * 256 + y) / 64 == 64 * q' + (r' * 4 + y / 64);
    Remainder(q', r' * 4 + y / 64);
  }

  lemma SixBitsFirst(bytes: seq<Byte>)
    ensures SixBits(bytes, 0) == SixOf(ByteAt(bytes, 0), ByteAt(bytes, 1), 0)
    ensures SixBits(bytes, 1) == SixOf(ByteAt(bytes, 0), ByteAt(bytes, 1), 6)
    ensures SixBits(bytes, 2) == SixOf(ByteAt(bytes, 1), ByteAt(bytes, 2), 4)
    ensures SixBits(bytes, 3) == SixOf(ByteAt(bytes, 2), ByteAt(bytes, 3), 2)
  {
  }

  lemma {:induction false} DigitsAre(bytes: seq<Byte>, i: nat)
    requires i < |Digits(bytes)|
    ensures |Digits(bytes)| == (4 * |bytes| + 2) / 3
    ensures Digits(bytes)[i] == SixBits(bytes, i)
    decreases |bytes|
  {
    SixBitsFirst(bytes);
    SixOfTwo(ByteAt(bytes, 0), ByteAt(bytes, 1));
    SixOfTwo(ByteAt(bytes, 1), ByteAt(bytes, 2));
    SixOfTwo(ByteAt(bytes, 2), ByteAt(bytes, 3));
    if |bytes| >= 3 {
      var rest := Digits(bytes[3..]);
      DigitsLength(bytes[3..]);
      if i >= 4 {
        SixBitsLater(bytes, i);
        DigitsAre(bytes[3..], i - 4);
      }
    }
  }

  lemma {:induction false} DigitsLength(bytes: seq<Byte>)
    ensures |Digits(bytes)| == (4 * |bytes| + 2) / 3
  {
    if |bytes| >= 3 {
      DigitsLength(bytes[3..]);
    }
  }

  /** The encoding spells the stream six bits at a time in the URL-safe alphabet, with
      zeros behind its end and without padding. */
  lemma EncodedIs(bytes: seq<Byte>)
    ensures |EncodeBase64Url(bytes)| == (4 * |bytes| + 2) / 3
    ensures forall i :: 0 <= i < |EncodeBase64Url(bytes)| ==> Spells(EncodeBase64Url(bytes)[i], SixBits(bytes, i))
  {
    DigitsLength(bytes);
    forall i | 0 <= i < |Digits(bytes)| ensures Spells(Letter(Digits(bytes)[i]), SixBits(bytes, i)) {
      DigitsAre(bytes, i);
    }
  }

  // ---------------------------------------------------------------------------
  // Segments
  // ---------------------------------------------------------------------------

  const DOT: CodeUnit := 46

  function EncodeSegment(value: JsString): JsString {
    EncodeBase64Url(ToBytes(value))
  }

  /** Canonical base64url only: the decoded value must encode back to the segment. */
  function DecodeSegment(segment: JsString): Option<JsString> {
    if segment == [] then None
    else
      var decoded := FromBytes(DecodeBase64Url(segment));
      if EncodeSegment(decoded) == segment then Some(decoded) else None
  }

  lemma EncodedSegment(value: JsString)
    ensures DOT !in EncodeSegment(value)
    ensures EncodeSegment(value) == [] <==> value == []
  {
    EmptyBytes(value);
  }

  /** A segment decodes to `v` exactly when it is the encoding of the non-empty
      well-formed string `v`. */
  lemma SegmentDecodesIff(segment: JsString, v: JsString)
    ensures DecodeSegment(segment) == Some(v) <==> v != [] && WellFormed(v) && EncodeSegment(v) == segment
  {
    Base64UrlRoundTrip(ToBytes(v));
    BytesRoundTripIff(v);
    EncodedSegment(v);
    DecodedIsWellFormed(DecodeBase64Url(segment));
  }

  /** An encoded value decodes to itself with every unpaired surrogate replaced. */
  lemma SegmentRoundTrip(v: JsString)
    ensures DecodeSegment(EncodeSegment(v)) == if v == [] then None else Some(FromScalars(ToScalars(v)))
  {
    var w := FromScalars(ToScalars(v));
    ScalarsRoundTrip(ToScalars(v));
    Base64UrlRoundTrip(ToBytes(v));
    BytesRoundTripIff(v);
    EncodedSegment(v);
    assert ToBytes(w) == ToBytes(v);
  }

  // ---------------------------------------------------------------------------
  // Display names
  // ---------------------------------------------------------------------------

  /** "adk-memory-v1." */
  const PREFIX: JsString := [97, 100, 107, 45, 109, 101, 109, 111, 114, 121, 45, 118, 49, 46]

  function Join(parts: seq<JsString>): JsString {
    if parts == [] then []
    else if |parts| == 1 then parts[0]
    else parts[0] + [DOT] + Join(parts[1..])
  }

  function FirstDot(s: JsString): (i: nat)
    ensures i <= |s| && DOT !in s[..i] && (i < |s| ==> s[i] == DOT)
  {
    if s == [] || s[0] == DOT then 0 else 1 + FirstDot(s[1..])
  }

  function Split(s: JsString): (parts: seq<JsString>)
    ensures parts != []
    decreases |s|
  {
    var i := FirstDot(s);
    if i == |s| then [s] else [s[..i]] + Split(s[i + 1..])
  }

  lemma JoinCons(head: JsString, tail: seq<JsString>)
    requires tail != []
    ensures Join([head] + tail) == head + [DOT] + Join(tail)
  {
    assert ([head] + tail)[1..] == tail;
  }

  lemma {:induction false} JoinSplit(s: JsString)
    ensures Join(Split(s)) == s
    decreases |s|
  {
    var i := FirstDot(s);
    if i == |s| {
      assert s[..i] == s;
    } else {
      JoinSplit(s[i + 1..]);
      JoinCons(s[..i], Split(s[i + 1..]));
      assert s == s[..i] + [DOT] + s[i + 1..];
    }
  }

  lemma {:induction false} SplitHasNoDots(s: JsString)
    ensures forall i :: 0 <= i < |Split(s)| ==> DOT !in Split(s)[i]
    decreases |s|
  {
    var i := FirstDot(s);
    if i < |s| {
      SplitHasNoDots(s[i + 1..]);
    }
  }

  lemma {:induction false} SplitJoin(parts: seq<JsString>)
    requires parts != [] && forall i :: 0 <= i < |parts| ==> DOT !in parts[i]
    ensures Split(Join(parts)) == parts
  {
    var s := Join(parts);
    var n := |parts[0]|;
    assert s[..n] == parts[0];
    FirstDotIs(s, n);
    if |parts| > 1 {
      SplitJoin(parts[1..]);
      assert s[n + 1..] == Join(parts[1..]);
    }
  }

  lemma {:induction false} FirstDotIs(s: JsString, n: nat)
    requires n <= |s| && DOT !in s[..n] && (n == |s| || s[n] == DOT)
    ensures FirstDot(s) == n
  {
    if n > 0 {
      assert s[0] == s[..n][0] && s[1..][..n - 1] == s[..n][1..];
      FirstDotIs(s[1..], n - 1);
    }
  }

  datatype SourceIdentity = SourceIdentity(appName: JsString, userId: JsString, sessionId: JsString)

  function BuildSourceDisplayName(source: SourceIdentity): JsString {
    PREFIX + Join([EncodeSegment(source.appName), EncodeSegment(source.userId), EncodeSegment(source.sessionId)])
  }

  function ParseSourceDisplayName(name: JsString): Option<SourceIdentity> {
    var isPrefixed := PREFIX <= name;
    var parts := Split(if isPrefixed then name[|PREFIX|..] else name);
    if |parts| != 3 then None
    else if !isPrefixed then Some(SourceIdentity(parts[0], parts[1], parts[2]))
    else match (DecodeSegment(parts[0]), DecodeSegment(parts[1]), DecodeSegment(parts[2]))
      case (Some(appName), Some(userId), Some(sessionId)) => Some(SourceIdentity(appName, userId, sessionId))
      case _ => None
  }

  predicate Plain(v: JsString) { v != [] && WellFormed(v) }

  /** The identifiers survive being written and read. */
  predicate Storable(source: SourceIdentity) {
    Plain(source.appName) && Plain(source.userId) && Plain(source.sessionId)
  }

  lemma SplitOfBuilt(source: SourceIdentity)
    ensures var name := BuildSourceDisplayName(source);
            && PREFIX <= name
            && Split(name[|PREFIX|..])
               == [EncodeSegment(source.appName), EncodeSegment(source.userId), EncodeSegment(source.sessionId)]
  {
    var parts := [EncodeSegment(source.appName), EncodeSegment(source.userId), EncodeSegment(source.sessionId)];
    EncodedSegment(source.appName);
    EncodedSegment(source.userId);
    EncodedSegment(source.sessionId);
    SplitJoin(parts);
    assert (PREFIX + Join(parts))[|PREFIX|..] == Join(parts);
  }

  /** A prefixed name parses to a source exactly when the source's identifiers are
      non-empty and well formed and the name is the one built from them. */
  lemma ParsesIffBuilt(name: JsString, source: SourceIdentity)
    requires PREFIX <= name
    ensures ParseSourceDisplayName(name) == Some(source)
       <==> Storable(source) && name == BuildSourceDisplayName(source)
  {
    SplitOfBuilt(source);
    var parts := Split(name[|PREFIX|..]);
    if |parts| == 3 {
      SegmentDecodesIff(parts[0], source.appName);
      SegmentDecodesIff(parts[1], source.userId);
      SegmentDecodesIff(parts[2], source.sessionId);
      RebuiltFromSegments(name, source);
    }
  }

  lemma RebuiltFromSegments(name: JsString, source: SourceIdentity)
    requires PREFIX <= name && |Split(name[|PREFIX|..])| == 3
    ensures (var parts := Split(name[|PREFIX|..]);
             parts[0] == EncodeSegment(source.appName) && parts[1] == EncodeSegment(source.userId)
             && parts[2] == EncodeSegment(source.sessionId))
       <==> name == BuildSourceDisplayName(source)
  {
    var parts := Split(name[|PREFIX|..]);
    SplitOfBuilt(source);
    JoinSplit(name[|PREFIX|..]);
    assert name == PREFIX + name[|PREFIX|..];
    assert parts == [parts[0], parts[1], parts[2]];
  }

  /** Parsing what was built gives the identifiers back exactly when none is empty and
      none holds an unpaired surrogate. */
  lemma BuiltParsesIff(source: SourceIdentity)
    ensures ParseSourceDisplayName(BuildSourceDisplayName(source)) == Some(source) <==> Storable(source)
  {
    SplitOfBuilt(source);
    ParsesIffBuilt(BuildSourceDisplayName(source), source);
  }

  /** Hence different storable sources have different names. */
  lemma BuildIsInjective(a: SourceIdentity, b: SourceIdentity)
    requires Storable(a) && Storable(b) && BuildSourceDisplayName(a) == BuildSourceDisplayName(b)
    ensures a == b
  {
    BuiltParsesIff(a);
    BuiltParsesIff(b);
  }

  /** An unprefixed name is read as three dot-free parts, and never as anything else. */
  lemma LegacyNames(name: JsString, source: SourceIdentity)
    requires !(PREFIX <= name)
    ensures ParseSourceDisplayName(name) == Some(source) <==>
              && name == Join([source.appName, source.userId, source.sessionId])
              && DOT !in source.appName && DOT !in source.userId && DOT !in source.sessionId
  {
    var parts := [source.appName, source.userId, source.sessionId];
    if ParseSourceDisplayName(name) == Some(source) {
      JoinSplit(name);
      SplitHasNoDots(name);
      assert Split(name) == parts && parts[0] == Split(name)[0];
    } else if name == Join(parts) && forall i :: 0 <= i < 3 ==> DOT !in parts[i] {
      SplitJoin(parts);
    }
  }
}
