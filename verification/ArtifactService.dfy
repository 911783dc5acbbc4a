/** The operations of the in-memory artifact store, proved against the versioned map
    (core/src/artifacts/in_memory_artifact_service.ts). */
module ArtifactService {
  import opened Wrappers
  import opened Seqs
  import opened JsMaps
  import opened Unicode
  import opened UriComponents
  import opened Artifacts
  import opened Events

  datatype Error = UriError | EmptyArtifact

  // ---------------------------------------------------------------------------
  // Sorting by UTF-16 code units, as Array.prototype.sort does
  // ---------------------------------------------------------------------------

  predicate Le(a: JsString, b: JsString) {
    a == [] || (b != [] && (a[0] < b[0] || (a[0] == b[0] && Le(a[1..], b[1..]))))
  }

  /** Up to position `n` the strings agree, and there the first ends or has the smaller
      code unit. */
  ghost predicate DifferAt(a: JsString, b: JsString, n: nat) {
    n <= |a| && n <= |b| && a[..n] == b[..n] && (n == |a| || (n < |b| && a[n] < b[n]))
  }

  lemma {:induction false} LeIff(a: JsString, b: JsString)
    ensures Le(a, b) <==> exists n: nat :: DifferAt(a, b, n)
  {
    if a == [] {
      assert DifferAt(a, b, 0);
    } else if b != [] {
      LeIff(a[1..], b[1..]);
      if a[0] == b[0] && Le(a[1..], b[1..]) {
        var n: nat :| DifferAt(a[1..], b[1..], n);
        assert a[..n + 1] == [a[0]] + a[1..][..n] && b[..n + 1] == [b[0]] + b[1..][..n];
        assert DifferAt(a, b, n + 1);
      } else if a[0] < b[0] {
        assert DifferAt(a, b, 0);
      }
      if n: nat :| DifferAt(a, b, n) && n > 0 {
        assert a[0] == a[..n][0] && b[0] == b[..n][0];
        assert a[1..][..n - 1] == a[..n][1..] && b[1..][..n - 1] == b[..n][1..];
        assert DifferAt(a[1..], b[1..], n - 1);
      }
    }
  }

  function Insert(sorted: seq<JsString>, s: JsString): seq<JsString> {
    if sorted == [] || Le(s, sorted[0]) then [s] + sorted else [sorted[0]] + Insert(sorted[1..], s)
  }

  function Sort(names: seq<JsString>): seq<JsString> {
    if names == [] then [] else Insert(Sort(names[1..]), names[0])
  }

  ghost predicate Sorted(s: seq<JsString>) {
    forall i, j :: 0 <= i < j < |s| ==> Le(s[i], s[j])
  }

  lemma {:induction false} LeTotal(a: JsString, b: JsString)
    ensures Le(a, b) || Le(b, a)
    ensures Le(a, b) && Le(b, a) ==> a == b
  {
    if a != [] && b != [] && a[0] == b[0] {
      LeTotal(a[1..], b[1..]);
      assert a == [a[0]] + a[1..] && b == [b[0]] + b[1..];
    }
  }

  lemma {:induction false} LeTransitive(a: JsString, b: JsString, c: JsString)
    requires Le(a, b) && Le(b, c)
    ensures Le(a, c)
  {
    if a != [] && a[0] == b[0] && b[0] == c[0] {
      LeTransitive(a[1..], b[1..], c[1..]);
    }
  }

  lemma {:induction false} InsertSorts(sorted: seq<JsString>, s: JsString)
    requires Sorted(sorted)
    ensures Sorted(Insert(sorted, s))
    ensures forall x :: x in Insert(sorted, s) <==> x in sorted || x == s
    ensures NoDuplicates(sorted) && s !in sorted ==> NoDuplicates(Insert(sorted, s))
  {
    if sorted != [] {
      LeTotal(s, sorted[0]);
      if Le(s, sorted[0]) {
        forall j | 0 <= j < |sorted| ensures Le(s, sorted[j]) {
          if j > 0 {
            LeTransitive(s, sorted[0], sorted[j]);
          }
        }
      } else {
        InsertSorts(sorted[1..], s);
        var rest := Insert(sorted[1..], s);
        assert forall j :: 0 <= j < |rest| ==> rest[j] in rest;
      }
    }
  }

  lemma {:induction false} SortSorts(names: seq<JsString>)
    ensures Sorted(Sort(names))
    ensures forall x :: x in Sort(names) <==> x in names
    ensures NoDuplicates(names) ==> NoDuplicates(Sort(names))
  {
    if names != [] {
      SortSorts(names[1..]);
      InsertSorts(Sort(names[1..]), names[0]);
    }
  }

  // ---------------------------------------------------------------------------
  // The versioned map
  // ---------------------------------------------------------------------------

  function Versions(c: Contents, k: Key): seq<Entry> {
    match Get(c, k) case None => [] case Some(entries) => entries
  }

  /** The filenames a listing of one session shows, in storage order. */
  function Listed(c: Contents, session: Key): seq<JsString>
    requires session.SessionKey?
  {
    if c == [] then []
    else (if Shown(c[0].0, session) then [c[0].0.filename] else []) + Listed(c[1..], session)
  }

  /** The artifact belongs to the session, or to its user. */
  predicate Shown(k: Key, session: Key)
    requires session.SessionKey?
  {
    ScopeOf(k) == ScopeOf(session) || ScopeOf(k) == ScopeOf(UserKey(session.app, session.user, []))
  }

  function PathOf(): Key -> JsString { (k: Key) => Path(k) }

  /** The representation: the same entries under encoded keys, in the same order. */
  function Encoded(c: Contents): JsMap<JsString, seq<Entry>> {
    MapKeys(c, PathOf())
  }

  /** Filed under the key its own filename asks for. */
  predicate Consistent(k: Key) {
    k.UserKey? <==> USER_NAMESPACE <= k.filename
  }

  ghost predicate Good(c: Contents) {
    && NoDuplicates(Keys(c))
    && (forall i :: 0 <= i < |c| ==> Encodable(c[i].0) && Consistent(c[i].0) && c[i].1 != [])
  }

  /** Hence the storage keys behave like the keys they encode. */
  lemma PathsSeparate(c: Contents, k: Key)
    requires Good(c) && Encodable(k)
    ensures Separates(c, PathOf(), k)
  {
    forall i | 0 <= i < |c| && c[i].0 != k ensures Path(c[i].0) != Path(k) {
      if Path(c[i].0) == Path(k) {
        PathIsInjective(c[i].0, k);
      }
    }
  }

  lemma {:induction false} SetKeepsGood(c: Contents, k: Key, v: seq<Entry>)
    requires Good(c) && Encodable(k) && Consistent(k) && v != []
    ensures Good(Set(c, k, v))
  {
    SetEntries(c, k, v);
    if k !in Keys(c) {
      assert Keys(Set(c, k, v)) == Keys(c) + [k];
    }
  }

  lemma DeleteKeepsGood(c: Contents, k: Key)
    requires Good(c)
    ensures Good(Delete(c, k))
  {
    DeleteIsMap(c, k);
    DeleteEntries(c, k);
  }

  // ---------------------------------------------------------------------------
  // Listings
  // ---------------------------------------------------------------------------

  /** A shown, consistently filed artifact is the one its filename names. */
  lemma ShownIffNamed(k: Key, session: Key, f: JsString)
    requires session.SessionKey? && Consistent(k)
    ensures Shown(k, session) && k.filename == f <==> k == KeyOf(session.app, session.user, session.session, f)
  {
  }

  lemma {:induction false} ListedIs(c: Contents, session: Key)
    requires session.SessionKey? && Good(c)
    ensures forall f :: f in Listed(c, session)
                    <==> KeyOf(session.app, session.user, session.session, f) in Keys(c)
    ensures NoDuplicates(Listed(c, session))
  {
    if c != [] {
      var k, rest := c[0].0, c[1..];
      assert Keys(c) == [k] + Keys(rest);
      assert k !in Keys(rest);
      ListedIs(rest, session);
      forall f ensures f in Listed(c, session)
                   <==> KeyOf(session.app, session.user, session.session, f) in Keys(c)
      {
        ShownIffNamed(k, session, f);
      }
      ShownIffNamed(k, session, k.filename);
    }
  }

  /** What a listing returns: sorted, free of duplicates, and holding a filename exactly
      when that filename is live for the session or its user. */
  lemma ListingIsExact(c: Contents, session: Key)
    requires session.SessionKey? && Good(c)
    ensures var names := Sort(Listed(c, session));
            && Sorted(names) && NoDuplicates(names)
            && forall f :: f in names <==> Versions(c, KeyOf(session.app, session.user, session.session, f)) != []
  {
    ListedIs(c, session);
    SortSorts(Listed(c, session));
    forall f
      ensures KeyOf(session.app, session.user, session.session, f) in Keys(c)
         <==> Versions(c, KeyOf(session.app, session.user, session.session, f)) != []
    {
      LiveIffFiled(c, KeyOf(session.app, session.user, session.session, f));
    }
  }

  lemma LiveIffFiled(c: Contents, k: Key)
    requires Good(c)
    ensures k in Keys(c) <==> Versions(c, k) != []
  {
    if k in Keys(c) {
      var i := GetEntry(c, k);
    }
  }

  // ---------------------------------------------------------------------------
  // The service
  // ---------------------------------------------------------------------------

  predicate HasContent(p: Part) {
    p.media.Some? || (p.text.Some? && p.text.value != "")
  }

  /** The MIME type is recorded for parts that only reference a file. */
  function RecordedType(p: Part): Option<string> {
    if p.text.None? && p.media.Some? && p.media.value.File? then Some(p.media.value.mimeType) else None
  }

  function NewEntry(p: Part, version: nat, custom: Option<string>): Entry {
    Entry(p, version, custom, RecordedType(p))
  }

  /** The entry of a version, by default the latest; none for any other number. */
  function Lookup(entries: seq<Entry>, version: Option<int>): Option<Entry> {
    var v := if version.Some? then version.value else |entries| - 1;
    if 0 <= v < |entries| then Some(entries[v]) else None
  }

  function ArtifactPath(app: JsString, user: JsString, session: JsString, filename: JsString): Option<JsString> {
    EncodePath(KeyOf(app, user, session, filename))
  }

  /** The filename a storage key shows in a listing, if its prefix is one of the two. */
  function FilenameIn(path: JsString, sessionPrefix: JsString, userPrefix: JsString): Result<seq<JsString>, Error> {
    if sessionPrefix <= path then Decoded(path[|sessionPrefix|..])
    else if userPrefix <= path then Decoded(path[|userPrefix|..])
    else Ok([])
  }

  function Decoded(encoded: JsString): Result<seq<JsString>, Error> {
    match DecodeURIComponent(encoded) case Some(name) => Ok([name]) case None => Err(UriError)
  }

  lemma FilenameOfPath(k: Key, session: Key)
    requires session.SessionKey? && Encodable(k) && Encodable(session)
    ensures FilenameIn(Path(k), Prefix(ScopeOf(session)), Prefix(ScopeOf(UserKey(session.app, session.user, []))))
         == Ok(if Shown(k, session) then [k.filename] else [])
  {
    ScopePrefixIff(k, session);
    ScopePrefixIff(k, UserKey(session.app, session.user, []));
    ComponentRoundTrip(k.filename);
    assert Path(k)[|Prefix(ScopeOf(k))|..] == Encode(k.filename);
  }

  lemma ListedStep(c: Contents, i: nat, here: Key, before: seq<JsString>)
    requires here.SessionKey? && Encodable(here) && Good(c) && i < |c|
    ensures var user := UserKey(here.app, here.user, []);
            var name := FilenameIn(Path(c[i].0), Prefix(ScopeOf(here)), Prefix(ScopeOf(user)));
            name.Ok? && before + Listed(c[i..], here) == before + name.value + Listed(c[i + 1..], here)
  {
    ListedHead(c, i, here);
    FilenameOfPath(c[i].0, here);
    Regroup(before, if Shown(c[i].0, here) then [c[i].0.filename] else [], Listed(c[i + 1..], here));
  }

  lemma ListedHead(c: Contents, i: nat, here: Key)
    requires here.SessionKey? && i < |c|
    ensures Listed(c[i..], here) == (if Shown(c[i].0, here) then [c[i].0.filename] else []) + Listed(c[i + 1..], here)
  {
    assert c[i..][1..] == c[i + 1..];
  }

  lemma Regroup<T>(a: seq<T>, b: seq<T>, c: seq<T>)
    ensures a + (b + c) == a + b + c
  {
  }

  /** The prefixes of a listing can be built exactly when its session key can. */
  lemma PrefixesIff(here: Key)
    requires here.SessionKey? && here.filename == []
    ensures var userScope := ScopeOf(UserKey(here.app, here.user, []));
            && (EncodePrefix(ScopeOf(here)) == if Encodable(here) then Some(Prefix(ScopeOf(here))) else None)
            && (Encodable(here) ==> EncodePrefix(userScope) == Some(Prefix(userScope)))
  {
    var user := UserKey(here.app, here.user, []);
    ScopeIsWellFormedIff(here);
    ScopeIsWellFormedIff(user);
    EncodedPrefix(ScopeOf(here));
    EncodedPrefix(ScopeOf(user));
  }

  class InMemoryArtifactService {
    var artifacts: JsMap<JsString, seq<Entry>>
    ghost var contents: Contents

    ghost predicate Valid()
      reads this
    {
      Good(contents) && artifacts == Encoded(contents)
    }

    constructor ()
      ensures Valid() && contents == []
    {
      artifacts, contents := [], [];
    }

    method SaveArtifact(app: JsString, user: JsString, session: JsString, filename: JsString, artifact: Part,
                        custom: Option<string>)
      returns (r: Result<nat, Error>)
      requires Valid()
      modifies this
      ensures Valid()
      ensures var k, before := KeyOf(app, user, session, filename), old(contents);
              if artifact.media.None? && (artifact.text.None? || |artifact.text.value| == 0)
              then r == Err(EmptyArtifact) && contents == before
              else if !Encodable(k) then r == Err(UriError) && contents == before
              else
                var n := |Versions(before, k)|;
                && r == Ok(n)
                && contents == Set(before, k, Versions(before, k) + [NewEntry(artifact, n, custom)])
    {
      if !HasContent(artifact) {
        return Err(EmptyArtifact);
      }
      PathIff(KeyOf(app, user, session, filename));
      var path := ArtifactPath(app, user, session, filename);
      if path.None? {
        return Err(UriError);
      }
      ghost var k := KeyOf(app, user, session, filename);
      PathsSeparate(contents, k);
      GetMapped(contents, PathOf(), k);
      var stored := Get(artifacts, path.value);
      var versions := if stored.Some? then stored.value else [];
      var version := |versions|;
      versions := versions + [NewEntry(artifact, version, custom)];
      SetMapped(contents, PathOf(), k, versions);
      SetKeepsGood(contents, k, versions);
      artifacts := Set(artifacts, path.value, versions);
      contents := Set(contents, k, versions);
      return Ok(version);
    }

    /** The stored versions of an artifact, none if it is not live. */
    method Find(app: JsString, user: JsString, session: JsString, filename: JsString)
      returns (r: Result<seq<Entry>, Error>)
      requires Valid()
      ensures var k := KeyOf(app, user, session, filename);
              r == if Encodable(k) then Ok(Versions(contents, k)) else Err(UriError)
    {
      PathIff(KeyOf(app, user, session, filename));
      var path := ArtifactPath(app, user, session, filename);
      if path.None? {
        return Err(UriError);
      }
      ghost var k := KeyOf(app, user, session, filename);
      PathsSeparate(contents, k);
      GetMapped(contents, PathOf(), k);
      var versions := Get(artifacts, path.value);
      return Ok(if versions.Some? then versions.value else []);
    }

    method LoadArtifact(app: JsString, user: JsString, session: JsString, filename: JsString, version: Option<int>)
      returns (r: Result<Option<Entry>, Error>)
      requires Valid()
      ensures var k := KeyOf(app, user, session, filename);
              r == if Encodable(k) then Ok(Lookup(Versions(contents, k), version)) else Err(UriError)
    {
      var versions := Find(app, user, session, filename);
      if versions.Err? {
        return Err(versions.error);
      }
      return Ok(Lookup(versions.value, version));
    }

    method DeleteArtifact(app: JsString, user: JsString, session: JsString, filename: JsString)
      returns (r: Result<(), Error>)
      requires Valid()
      modifies this
      ensures Valid()
      ensures var k := KeyOf(app, user, session, filename);
              if Encodable(k) then r == Ok(()) && contents == Delete(old(contents), k)
              else r == Err(UriError) && contents == old(contents)
    {
      PathIff(KeyOf(app, user, session, filename));
      var path := ArtifactPath(app, user, session, filename);
      if path.None? {
        return Err(UriError);
      }
      ghost var k := KeyOf(app, user, session, filename);
      PathsSeparate(contents, k);
      DeleteMapped(contents, PathOf(), k);
      DeleteKeepsGood(contents, k);
      artifacts := Delete(artifacts, path.value);
      contents := Delete(contents, k);
      return Ok(());
    }

    method ListVersions(app: JsString, user: JsString, session: JsString, filename: JsString)
      returns (r: Result<seq<nat>, Error>)
      requires Valid()
      ensures var k := KeyOf(app, user, session, filename);
              if Encodable(k)
              then r.Ok? && |r.value| == |Versions(contents, k)| && forall i :: 0 <= i < |r.value| ==> r.value[i] == i
              else r == Err(UriError)
    {
      var versions := Find(app, user, session, filename);
      if versions.Err? {
        return Err(versions.error);
      }
      var numbers := Count(|versions.value|);
      return Ok(numbers);
    }

    static method Count(n: nat) returns (numbers: seq<nat>)
      ensures |numbers| == n && forall i :: 0 <= i < n ==> numbers[i] == i
    {
      numbers := [];
      for i := 0 to n
        invariant |numbers| == i && forall j :: 0 <= j < i ==> numbers[j] == j
      {
        numbers := numbers + [i];
      }
    }

    method ListArtifactKeys(app: JsString, user: JsString, session: JsString)
      returns (r: Result<seq<JsString>, Error>)
      requires Valid()
      ensures r == if Encodable(SessionKey(app, user, session, []))
                   then Ok(Sort(Listed(contents, SessionKey(app, user, session, []))))
                   else Err(UriError)
    {
      var here := SessionKey(app, user, session, []);
      PrefixesIff(here);
      var sessionPrefix := EncodePrefix(ScopeOf(here));
      var userPrefix := EncodePrefix(ScopeOf(UserKey(app, user, [])));
      if sessionPrefix.None? || userPrefix.None? {
        return Err(UriError);
      }
      var filenames := Scan(sessionPrefix.value, userPrefix.value, here);
      if filenames.Err? {
        return filenames;
      }
      return Ok(Sort(filenames.value));
    }

    /** The loop over all storage keys. */
    method Scan(sessionPrefix: JsString, userPrefix: JsString, ghost here: Key)
      returns (r: Result<seq<JsString>, Error>)
      requires Valid() && here.SessionKey? && Encodable(here)
      requires sessionPrefix == Prefix(ScopeOf(here))
      requires userPrefix == Prefix(ScopeOf(UserKey(here.app, here.user, [])))
      ensures r == Ok(Listed(contents, here))
    {
      var filenames: seq<JsString> := [];
      MapKeysIs(contents, PathOf());
      for i := 0 to |artifacts|
        invariant filenames + Listed(contents[i..], here) == Listed(contents, here)
      {
        ListedStep(contents, i, here, filenames);
        var name := FilenameIn(artifacts[i].0, sessionPrefix, userPrefix);
        if name.Err? {
          return name;
        }
        filenames := filenames + name.value;
      }
      assert contents[|artifacts|..] == [] && filenames + [] == filenames;
      return Ok(filenames);
    }
  }

  // ---------------------------------------------------------------------------
  // Runs
  // ---------------------------------------------------------------------------

  datatype Op = Save(key: Key, part: Part, custom: Option<string>) | Remove(key: Key)

  /** The contents after a list of saves and deletes, as the methods above make them. */
  function After(ops: seq<Op>): Contents {
    if ops == [] then []
    else
      var c, op := After(ops[..|ops| - 1]), ops[|ops| - 1];
      match op
      case Save(k, part, custom) => Set(c, k, Versions(c, k) + [NewEntry(part, |Versions(c, k)|, custom)])
      case Remove(k) => Delete(c, k)
  }

  /** The saves under a key since its last delete. */
  function SavedSince(ops: seq<Op>, k: Key): (saves: seq<Op>)
    ensures forall i :: 0 <= i < |saves| ==> saves[i].Save?
  {
    if ops == [] then []
    else
      var before, op := SavedSince(ops[..|ops| - 1], k), ops[|ops| - 1];
      if op.key != k then before else if op.Save? then before + [op] else []
  }

  /** Version `n` of an artifact, as `save` stored it; the type of the content is recorded
      for parts that hold no text and only reference a file. */
  ghost predicate StoredBy(entry: Entry, save: Op, n: nat)
    requires save.Save?
  {
    && entry.part == save.part && entry.version == n && entry.custom == save.custom
    && entry.mimeType == match (save.part.text, save.part.media)
                         case (None, Some(File(_, mimeType))) => Some(mimeType)
                         case _ => None
  }

  /** Over every run the versions of a key are exactly those saved since its last delete,
      numbered in order, whatever happened to other keys. */
  lemma {:induction false} VersionsAreSavesSinceDelete(ops: seq<Op>, k: Key)
    ensures var entries, saves := Versions(After(ops), k), SavedSince(ops, k);
            && |entries| == |saves|
            && forall i :: 0 <= i < |saves| ==> StoredBy(entries[i], saves[i], i)
  {
    if ops != [] {
      var n := |ops| - 1;
      var c := After(ops[..n]);
      VersionsAreSavesSinceDelete(ops[..n], k);
      match ops[n] {
        case Save(j, part, custom) =>
          GetSet(c, j, Versions(c, j) + [NewEntry(part, |Versions(c, j)|, custom)], k);
        case Remove(j) => GetDelete(c, j, k);
      }
    }
  }

  /** Over every run a load finds the version it asks for, or the latest one if it asks
      for none, exactly when that many saves were made since the last delete. */
  lemma LoadFinds(ops: seq<Op>, k: Key, version: Option<int>)
    ensures var saves, found := SavedSince(ops, k), Lookup(Versions(After(ops), k), version);
            match version
            case Some(v) => if 0 <= v < |saves| then found.Some? && StoredBy(found.value, saves[v], v) else found.None?
            case None =>
              if saves == [] then found.None?
              else found.Some? && StoredBy(found.value, saves[|saves| - 1], |saves| - 1)
  {
    VersionsAreSavesSinceDelete(ops, k);
  }

  /** The saves a run accepts: of names that can be encoded, filed where they ask for. */
  ghost predicate Accepted(ops: seq<Op>) {
    forall i :: 0 <= i < |ops| && ops[i].Save? ==> Encodable(ops[i].key) && Consistent(ops[i].key)
  }

  lemma {:induction false} RunsAreGood(ops: seq<Op>)
    requires Accepted(ops)
    ensures Good(After(ops))
  {
    if ops != [] {
      var n := |ops| - 1;
      var c := After(ops[..n]);
      RunsAreGood(ops[..n]);
      match ops[n] {
        case Save(k, part, custom) =>
          SetKeepsGood(c, k, Versions(c, k) + [NewEntry(part, |Versions(c, k)|, custom)]);
        case Remove(k) => DeleteKeepsGood(c, k);
      }
    }
  }

  /** Over every run a listing is sorted, free of duplicates, and shows a filename exactly
      when it was saved for the session or its user and not deleted since. */
  lemma ListingOverRuns(ops: seq<Op>, session: Key)
    requires Accepted(ops) && session.SessionKey?
    ensures var names := Sort(Listed(After(ops), session));
            && Sorted(names) && NoDuplicates(names)
            && forall f :: f in names <==> SavedSince(ops, KeyOf(session.app, session.user, session.session, f)) != []
  {
    RunsAreGood(ops);
    ListingIsExact(After(ops), session);
    forall f {
      VersionsAreSavesSinceDelete(ops, KeyOf(session.app, session.user, session.session, f));
    }
  }

  /** A part loaded at the version its save returned is the part that was saved, until
      the artifact is deleted. */
  lemma {:induction false} SavedPartsStay(before: seq<Op>, save: Op, later: seq<Op>)
    requires save.Save? && forall i :: 0 <= i < |later| ==> later[i] != Remove(save.key)
    ensures var version := |Versions(After(before), save.key)|;
            var found := Lookup(Versions(After(before + [save] + later), save.key), Some(version));
            found.Some? && StoredBy(found.value, save, version)
  {
    var ops := before + [save] + later;
    VersionsAreSavesSinceDelete(before, save.key);
    VersionsAreSavesSinceDelete(ops, save.key);
    SavedStay(before, save, later);
  }

  lemma {:induction false} SavedStay(before: seq<Op>, save: Op, later: seq<Op>)
    requires save.Save? && forall i :: 0 <= i < |later| ==> later[i] != Remove(save.key)
    ensures SavedSince(before, save.key) + [save] <= SavedSince(before + [save] + later, save.key)
  {
    var ops := before + [save] + later;
    if later == [] {
      assert ops == before + [save];
      assert ops[..|ops| - 1] == before;
    } else {
      assert ops[..|ops| - 1] == before + [save] + later[..|later| - 1];
      SavedStay(before, save, later[..|later| - 1]);
    }
  }
}
