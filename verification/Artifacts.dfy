/** The in-memory artifact store: string keys in front of a versioned map
    (core/src/artifacts/in_memory_artifact_service.ts). */
module Artifacts {
  import opened Wrappers
  import opened Seqs
  import opened JsMaps
  import opened Unicode
  import opened UriComponents
  import opened Events

  /** Where an artifact lives: filenames starting with "user:" belong to the user,
      all others to one session. */
  datatype Key =
    | UserKey(app: JsString, user: JsString, filename: JsString)
    | SessionKey(app: JsString, user: JsString, session: JsString, filename: JsString)

  /** "user:", "user" and "session" */
  const USER_NAMESPACE: JsString := [117, 115, 101, 114, 58]
  const USER_SCOPE: JsString := [117, 115, 101, 114]
  const SESSION_SCOPE: JsString := [115, 101, 115, 115, 105, 111, 110]

  function KeyOf(app: JsString, user: JsString, session: JsString, filename: JsString): Key {
    if USER_NAMESPACE <= filename then UserKey(app, user, filename) else SessionKey(app, user, session, filename)
  }

  /** All identifiers of the key can be encoded. */
  predicate Encodable(k: Key) {
    && WellFormed(k.app) && WellFormed(k.user) && WellFormed(k.filename)
    && (k.SessionKey? ==> WellFormed(k.session))
  }

  function Segment(s: JsString): JsString { Encode(s) + [SLASH] }

  /** The segments of a list of identifiers, each followed by a slash. */
  function Prefix(parts: seq<JsString>): JsString {
    if parts == [] then [] else Segment(parts[0]) + Prefix(parts[1..])
  }

  function ScopeOf(k: Key): seq<JsString> {
    match k
    case UserKey(app, user, _) => [USER_SCOPE, app, user]
    case SessionKey(app, user, session, _) => [SESSION_SCOPE, app, user, session]
  }

  /** The storage key. */
  function Path(k: Key): JsString { Prefix(ScopeOf(k)) + Encode(k.filename) }

  /** One stored version: the part, its number and the rest of its metadata. */
  datatype Entry = Entry(part: Part, version: nat, custom: Option<string>, mimeType: Option<string>)

  type Contents = JsMap<Key, seq<Entry>>

  // ---------------------------------------------------------------------------
  // The key encoding is injective
  // ---------------------------------------------------------------------------

  /** Slash-free heads are determined by the string. */
  lemma SplitAtSlash(a: JsString, x: JsString, b: JsString, y: JsString)
    requires SLASH !in a && SLASH !in b && a + [SLASH] + x == b + [SLASH] + y
    ensures a == b && x == y
  {
    var s := a + [SLASH] + x;
    assert s[|a|] == SLASH && (b + [SLASH] + y)[|b|] == SLASH;
    assert |a| == |b|;
    assert a == s[..|a|] && b == s[..|a|];
    assert x == s[|a| + 1..] && y == s[|a| + 1..];
  }

  ghost predicate AllWellFormed(parts: seq<JsString>) {
    forall i :: 0 <= i < |parts| ==> WellFormed(parts[i])
  }

  lemma Reassociate<T>(a: seq<T>, b: seq<T>, c: seq<T>, d: seq<T>)
    ensures a + b + c + d == a + b + (c + d)
  {
  }

  lemma PeelSegment(p: seq<JsString>, x: JsString)
    requires p != []
    ensures Prefix(p) + x == Encode(p[0]) + [SLASH] + (Prefix(p[1..]) + x)
  {
    Reassociate(Encode(p[0]), [SLASH], Prefix(p[1..]), x);
  }

  /** Equal paths start with the same segment. */
  lemma SameHead(p: seq<JsString>, x: JsString, q: seq<JsString>, y: JsString)
    requires p != [] && q != [] && WellFormed(p[0]) && WellFormed(q[0])
    requires Prefix(p) + x == Prefix(q) + y
    ensures p[0] == q[0] && Prefix(p[1..]) + x == Prefix(q[1..]) + y
  {
    PeelSegment(p, x);
    PeelSegment(q, y);
    EncodedCharsHaveNoSlash(ToScalars(p[0]));
    EncodedCharsHaveNoSlash(ToScalars(q[0]));
    SplitAtSlash(Encode(p[0]), Prefix(p[1..]) + x, Encode(q[0]), Prefix(q[1..]) + y);
    EncodeIsInjective(p[0], q[0]);
  }

  /** Paths with the same number of segments determine them. */
  lemma {:induction false} PrefixIsInjective(p: seq<JsString>, x: JsString, q: seq<JsString>, y: JsString)
    requires |p| == |q| && AllWellFormed(p) && AllWellFormed(q)
    requires Prefix(p) + x == Prefix(q) + y
    ensures p == q && x == y
  {
    if p == [] {
      assert [] + x == x && [] + y == y;
    } else {
      SameHead(p, x, q, y);
      PrefixIsInjective(p[1..], x, q[1..], y);
      assert p == [p[0]] + p[1..] && q == [q[0]] + q[1..];
    }
  }

  /** `artifactPrefix`: every segment is encoded, which may throw. */
  function EncodePrefix(parts: seq<JsString>): Option<JsString> {
    if parts == [] then Some([])
    else match (EncodeURIComponent(parts[0]), EncodePrefix(parts[1..]))
      case (Some(first), Some(rest)) => Some(first + [SLASH] + rest)
      case _ => None
  }

  /** `artifactPath` */
  function EncodePath(k: Key): Option<JsString> {
    match (EncodePrefix(ScopeOf(k)), EncodeURIComponent(k.filename))
    case (Some(prefix), Some(filename)) => Some(prefix + filename)
    case _ => None
  }

  lemma {:induction false} EncodedPrefix(parts: seq<JsString>)
    ensures EncodePrefix(parts) == if AllWellFormed(parts) then Some(Prefix(parts)) else None
  {
    if parts != [] {
      EncodingIs(parts[0]);
      EncodedPrefix(parts[1..]);
      assert AllWellFormed(parts) <==> WellFormed(parts[0]) && AllWellFormed(parts[1..]) by {
        assert forall i :: 1 <= i < |parts| ==> parts[i] == parts[1..][i - 1];
      }
    }
  }

  lemma ScopeIsWellFormedIff(k: Key)
    ensures AllWellFormed(ScopeOf(k)) && WellFormed(k.filename) <==> Encodable(k)
  {
    assert WellFormed(USER_SCOPE) && WellFormed(SESSION_SCOPE);
    var scope := ScopeOf(k);
    assert AllWellFormed(scope) ==> WellFormed(scope[1]) && WellFormed(scope[2]);
    assert AllWellFormed(scope) && |scope| == 4 ==> WellFormed(scope[3]);
  }

  /** A storage key can be built exactly when none of its identifiers holds an unpaired
      surrogate. */
  lemma PathIff(k: Key)
    ensures EncodePath(k) == if Encodable(k) then Some(Path(k)) else None
  {
    EncodedPrefix(ScopeOf(k));
    EncodingIs(k.filename);
    ScopeIsWellFormedIff(k);
  }

  lemma ScopeIsWellFormed(k: Key)
    requires Encodable(k)
    ensures AllWellFormed(ScopeOf(k)) && ScopeOf(k) != []
  {
    assert WellFormed(USER_SCOPE) && WellFormed(SESSION_SCOPE);
  }

  lemma {:induction false} SameScope(p: seq<JsString>, x: JsString, q: seq<JsString>, y: JsString)
    requires AllWellFormed(p) && AllWellFormed(q) && p != [] && q != []
    requires p[0] == q[0] ==> |p| == |q|
    requires Prefix(p) + x == Prefix(q) + y
    ensures p == q
  {
    SameHead(p, x, q, y);
    PrefixIsInjective(p, x, q, y);
  }

  lemma ScopesDiffer(a: Key, b: Key)
    ensures ScopeOf(a)[0] == ScopeOf(b)[0] ==> |ScopeOf(a)| == |ScopeOf(b)|
  {
    assert |USER_SCOPE| != |SESSION_SCOPE|;
  }

  lemma PrefixOfOneScope(k: Key, scope: Key)
    requires Encodable(k) && Encodable(scope) && Prefix(ScopeOf(scope)) <= Path(k)
    ensures ScopeOf(k) == ScopeOf(scope)
  {
    var p, q := ScopeOf(scope), ScopeOf(k);
    ScopeIsWellFormed(k);
    ScopeIsWellFormed(scope);
    ScopesDiffer(scope, k);
    SameScope(p, Path(k)[|Prefix(p)|..], q, Encode(k.filename));
  }

  /** Whatever the identifiers contain, a path belongs to one scope only. */
  lemma ScopePrefixIff(k: Key, scope: Key)
    requires Encodable(k) && Encodable(scope)
    ensures Prefix(ScopeOf(scope)) <= Path(k) <==> ScopeOf(k) == ScopeOf(scope)
  {
    if Prefix(ScopeOf(scope)) <= Path(k) {
      PrefixOfOneScope(k, scope);
    }
  }

  /** Different keys have different paths. */
  lemma PathIsInjective(a: Key, b: Key)
    requires Encodable(a) && Encodable(b) && Path(a) == Path(b)
    ensures a == b
  {
    ScopePrefixIff(b, a);
    assert Prefix(ScopeOf(a)) <= Path(a);
    assert Encode(a.filename) == Path(a)[|Prefix(ScopeOf(a))|..];
    assert Encode(b.filename) == Path(b)[|Prefix(ScopeOf(b))|..];
    EncodeIsInjective(a.filename, b.filename);
  }
}
