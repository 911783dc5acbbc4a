/** Model resolution: an LRU cache in front of a first-match scan of registered patterns
    (core/src/models/registry.ts). */
module Registry {
  import opened Wrappers
  import opened Seqs
  import opened JsMaps

  const CACHE_SIZE := 32

  /** The outcome of testing an anchored pattern; compiling it may throw. */
  datatype Match = Yes | No | Malformed

  datatype Resolution<C> = Found(llmClass: C) | NotFound | BadPattern

  type Matcher<!P> = (P, string) -> Match

  /** The uncached scan in insertion order. */
  function Scan<P, C>(dict: JsMap<P, C>, model: string, matches: Matcher<P>): Resolution<C> {
    if dict == [] then NotFound
    else match matches(dict[0].0, model)
      case Yes => Found(dict[0].1)
      case Malformed => BadPattern
      case No => Scan(dict[1..], model, matches)
  }

  // ---------------------------------------------------------------------------
  // The LRU cache
  // ---------------------------------------------------------------------------

  function CacheGet<C>(cache: JsMap<string, C>, key: string): JsMap<string, C> {
    match Get(cache, key)
    case None => cache
    case Some(item) => Set(Delete(cache, key), key, item)
  }

  function CacheSet<C>(cache: JsMap<string, C>, key: string, value: C): JsMap<string, C> {
    if |cache| >= CACHE_SIZE && key !in Keys(cache) then Set(Delete(cache, cache[0].0), key, value)
    else Set(cache, key, value)
  }

  /** Removing an entry, and using an entry, on the list of keys. */
  function Without(keys: seq<string>, key: string): seq<string> {
    if keys == [] then [] else (if keys[0] == key then [] else [keys[0]]) + Without(keys[1..], key)
  }

  function Use(keys: seq<string>, key: string): seq<string> {
    Without(keys, key) + [key]
  }

  function Last<T>(s: seq<T>, n: nat): seq<T> {
    if |s| <= n then s else s[|s| - n..]
  }

  class LRUCache<C> {
    var cache: JsMap<string, C>

    constructor ()
      ensures cache == []
    {
      cache := [];
    }

    method Lookup(key: string) returns (item: Option<C>)
      modifies this
      ensures item == Get(old(cache), key)
      ensures cache == CacheGet(old(cache), key)
    {
      item := Get(cache, key);
      if item.Some? {
        cache := Delete(cache, key);
        cache := Set(cache, key, item.value);
      }
    }

    method Store(key: string, value: C)
      modifies this
      ensures cache == CacheSet(old(cache), key, value)
    {
      if |cache| >= CACHE_SIZE && key !in Keys(cache) {
        var lruKey := cache[0].0;
        cache := Delete(cache, lruKey);
      }
      cache := Set(cache, key, value);
    }
  }

  datatype State<P, C> = State(dict: JsMap<P, C>, cache: JsMap<string, C>)

  function RegisterIn<P(==), C>(s: State<P, C>, pattern: P, llmClass: C): State<P, C> {
    s.(dict := Set(s.dict, pattern, llmClass))
  }

  function ResolveIn<P, C>(s: State<P, C>, model: string, matches: Matcher<P>): (State<P, C>, Resolution<C>) {
    match Get(s.cache, model)
    case Some(c) => (s.(cache := CacheGet(s.cache, model)), Found(c))
    case None =>
      var r := Scan(s.dict, model, matches);
      (if r.Found? then s.(cache := CacheSet(s.cache, model, r.llmClass)) else s, r)
  }

  class LLMRegistry<P(==), C> {
    var llmRegistryDict: JsMap<P, C>
    const resolveCache: LRUCache<C>

    ghost function Abs(): State<P, C>
      reads this, resolveCache
    {
      State(llmRegistryDict, resolveCache.cache)
    }

    constructor ()
      ensures Abs() == State([], []) && fresh(resolveCache)
    {
      llmRegistryDict := [];
      resolveCache := new LRUCache<C>();
    }

    method Register(pattern: P, llmClass: C)
      modifies this
      ensures Abs() == RegisterIn(old(Abs()), pattern, llmClass)
    {
      llmRegistryDict := Set(llmRegistryDict, pattern, llmClass);
    }

    method Resolve(model: string, matches: Matcher<P>) returns (r: Resolution<C>)
      modifies resolveCache
      ensures (Abs(), r) == ResolveIn(old(Abs()), model, matches)
    {
      var cached := resolveCache.Lookup(model);
      if cached.Some? {
        return Found(cached.value);
      }
      var i := 0;
      while i < |llmRegistryDict|
        invariant 0 <= i <= |llmRegistryDict|
        invariant resolveCache.cache == old(resolveCache.cache)
        invariant Scan(llmRegistryDict, model, matches) == Scan(llmRegistryDict[i..], model, matches)
      {
        var (pattern, llmClass) := llmRegistryDict[i];
        assert llmRegistryDict[i..][1..] == llmRegistryDict[i + 1..];
        match matches(pattern, model) {
          case Yes =>
            resolveCache.Store(model, llmClass);
            return Found(llmClass);
          case Malformed =>
            return BadPattern;
          case No =>
            i := i + 1;
        }
      }
      return NotFound;
    }
  }

  // ---------------------------------------------------------------------------
  // The scan
  // ---------------------------------------------------------------------------

  /** A model is not found exactly when every pattern rejects it, and found exactly
      when some pattern matches and every earlier one rejects it. */
  lemma {:induction false} ScanIs<P, C>(dict: JsMap<P, C>, model: string, matches: Matcher<P>)
    ensures Scan(dict, model, matches).NotFound? <==> forall i :: 0 <= i < |dict| ==> matches(dict[i].0, model) == No
    ensures forall c :: Scan(dict, model, matches) == Found(c) <==>
              exists i :: FirstYes(dict, model, matches, i) && dict[i].1 == c
  {
    if dict != [] {
      ScanIs(dict[1..], model, matches);
    }
  }

  ghost predicate FirstYes<P, C>(dict: JsMap<P, C>, model: string, matches: Matcher<P>, i: int) {
    0 <= i < |dict| && matches(dict[i].0, model) == Yes && forall j :: 0 <= j < i ==> matches(dict[j].0, model) == No
  }

  // ---------------------------------------------------------------------------
  // The cache is transparent
  // ---------------------------------------------------------------------------

  datatype Op<P, C> = RegisterOp(pattern: P, llmClass: C) | ResolveOp(model: string)

  function Apply<P(==), C>(s: State<P, C>, op: Op<P, C>, matches: Matcher<P>): State<P, C> {
    match op
    case RegisterOp(pattern, llmClass) => RegisterIn(s, pattern, llmClass)
    case ResolveOp(model) => ResolveIn(s, model, matches).0
  }

  /** The state after a list of operations on an empty registry. */
  function After<P(==), C>(ops: seq<Op<P, C>>, matches: Matcher<P>): State<P, C> {
    if ops == [] then State([], []) else Apply(After(ops[..|ops| - 1], matches), ops[|ops| - 1], matches)
  }

  /** No registration uses a pattern key that is already taken. */
  ghost predicate NeverOverwrites<P, C>(ops: seq<Op<P, C>>, matches: Matcher<P>) {
    forall i :: 0 <= i < |ops| && ops[i].RegisterOp? ==> ops[i].pattern !in Keys(After(ops[..i], matches).dict)
  }

  /** Every cached answer is the answer of the scan. */
  ghost predicate Coherent<P, C>(s: State<P, C>, matches: Matcher<P>) {
    forall model :: Get(s.cache, model).Some? ==> Scan(s.dict, model, matches) == Found(Get(s.cache, model).value)
  }

  /** The pattern whose class the scan returns. */
  function Winner<P, C>(dict: JsMap<P, C>, model: string, matches: Matcher<P>): Option<P> {
    if dict == [] then None
    else match matches(dict[0].0, model)
      case Yes => Some(dict[0].0)
      case Malformed => None
      case No => Winner(dict[1..], model, matches)
  }

  lemma {:induction false} ScanAppend<P, C>(dict: JsMap<P, C>, entry: (P, C), model: string, matches: Matcher<P>)
    requires Scan(dict, model, matches).Found?
    ensures Scan(dict + [entry], model, matches) == Scan(dict, model, matches)
  {
    assert (dict + [entry])[1..] == dict[1..] + [entry];
    if matches(dict[0].0, model) == No {
      ScanAppend(dict[1..], entry, model, matches);
    }
  }

  /** Overwriting a key changes exactly the answers that key wins. */
  lemma {:induction false} ScanOverwrite<P, C>(dict: JsMap<P, C>, p: P, c: C, model: string, matches: Matcher<P>)
    requires p in Keys(dict)
    ensures Scan(Set(dict, p, c), model, matches)
         == if Winner(dict, model, matches) == Some(p) then Found(c) else Scan(dict, model, matches)
  {
    var rest := dict[1..];
    if dict[0].0 == p {
      assert Set(dict, p, c) == [(p, c)] + rest;
      ScanHead((p, c), rest, model, matches);
      ScanHead(dict[0], rest, model, matches);
      WinnerMatches(rest, model, matches);
    } else {
      assert Keys(dict) == [dict[0].0] + Keys(rest);
      ScanOverwrite(rest, p, c, model, matches);
      ScanHead(dict[0], rest, model, matches);
      ScanHead(dict[0], Set(rest, p, c), model, matches);
    }
    assert dict == [dict[0]] + rest;
  }

  lemma ScanHead<P, C>(entry: (P, C), rest: JsMap<P, C>, model: string, matches: Matcher<P>)
    ensures Scan([entry] + rest, model, matches)
         == (match matches(entry.0, model) case Yes => Found(entry.1) case Malformed => BadPattern
             case No => Scan(rest, model, matches))
    ensures Winner([entry] + rest, model, matches)
         == (match matches(entry.0, model) case Yes => Some(entry.0) case Malformed => None
             case No => Winner(rest, model, matches))
  {
    assert ([entry] + rest)[1..] == rest;
  }

  lemma {:induction false} WinnerMatches<P, C>(dict: JsMap<P, C>, model: string, matches: Matcher<P>)
    ensures var w := Winner(dict, model, matches); w.Some? ==> matches(w.value, model) == Yes
    ensures Winner(dict, model, matches).Some? <==> Scan(dict, model, matches).Found?
  {
    if dict != [] {
      WinnerMatches(dict[1..], model, matches);
    }
  }

  lemma RegisterKeepsCoherence<P, C>(s: State<P, C>, p: P, c: C, matches: Matcher<P>)
    requires Coherent(s, matches) && p !in Keys(s.dict)
    ensures Coherent(RegisterIn(s, p, c), matches)
  {
    forall model | Get(s.cache, model).Some?
      ensures Scan(Set(s.dict, p, c), model, matches) == Found(Get(s.cache, model).value)
    {
      ScanAppend(s.dict, (p, c), model, matches);
    }
  }

  /** Every cached model that pattern `p` wins is cached with class `c`. */
  ghost predicate CachedAs<P, C>(s: State<P, C>, p: P, c: C, matches: Matcher<P>) {
    forall model :: Get(s.cache, model).Some? && Winner(s.dict, model, matches) == Some(p)
                    ==> Get(s.cache, model).value == c
  }

  /** Overwriting a registration leaves the cache coherent exactly when every cached
      model that the overwritten pattern wins is cached with the new class already. */
  lemma OverwriteKeepsCoherenceIff<P, C>(s: State<P, C>, p: P, c: C, matches: Matcher<P>)
    requires Coherent(s, matches) && p in Keys(s.dict)
    ensures Coherent(RegisterIn(s, p, c), matches) <==> CachedAs(s, p, c, matches)
  {
    var dict := Set(s.dict, p, c);
    if Coherent(RegisterIn(s, p, c), matches) {
      forall model | Get(s.cache, model).Some? && Winner(s.dict, model, matches) == Some(p)
        ensures Get(s.cache, model).value == c
      {
        ScanOverwrite(s.dict, p, c, model, matches);
        assert Scan(dict, model, matches) == Found(Get(s.cache, model).value);
      }
    }
    if CachedAs(s, p, c, matches) {
      forall model | Get(s.cache, model).Some?
        ensures Scan(dict, model, matches) == Found(Get(s.cache, model).value)
      {
        ScanOverwrite(s.dict, p, c, model, matches);
      }
    }
  }

  lemma ResolveKeepsCoherence<P, C>(s: State<P, C>, model: string, matches: Matcher<P>)
    requires Coherent(s, matches)
    ensures Coherent(ResolveIn(s, model, matches).0, matches)
    ensures ResolveIn(s, model, matches).1 == Scan(s.dict, model, matches)
  {
    var t := ResolveIn(s, model, matches).0;
    forall x | Get(t.cache, x).Some? ensures Scan(t.dict, x, matches) == Found(Get(t.cache, x).value) {
      match Get(s.cache, model) {
        case Some(c) =>
          GetSet(Delete(s.cache, model), model, c, x);
          GetDelete(s.cache, model, x);
        case None =>
          var r := Scan(s.dict, model, matches);
          if r.Found? {
            if |s.cache| >= CACHE_SIZE {
              GetSet(Delete(s.cache, s.cache[0].0), model, r.llmClass, x);
              GetDelete(s.cache, s.cache[0].0, x);
            } else {
              GetSet(s.cache, model, r.llmClass, x);
            }
          }
      }
    }
  }

  lemma {:induction false} RunIsCoherent<P, C>(ops: seq<Op<P, C>>, matches: Matcher<P>)
    requires NeverOverwrites(ops, matches)
    ensures Coherent(After(ops, matches), matches)
  {
    if ops != [] {
      var n := |ops| - 1;
      assert forall i :: 0 <= i < n ==> ops[..n][..i] == ops[..i];
      RunIsCoherent(ops[..n], matches);
      match ops[n] {
        case RegisterOp(p, c) => RegisterKeepsCoherence(After(ops[..n], matches), p, c, matches);
        case ResolveOp(model) => ResolveKeepsCoherence(After(ops[..n], matches), model, matches);
      }
    }
  }

  /** For every interleaving of registrations and resolutions in which no registration
      overwrites a key, resolving through the cache gives what the scan gives. */
  lemma CacheIsTransparent<P, C>(ops: seq<Op<P, C>>, model: string, matches: Matcher<P>)
    requires NeverOverwrites(ops, matches)
    ensures var s := After(ops, matches);
            ResolveIn(s, model, matches).1 == Scan(s.dict, model, matches)
  {
    RunIsCoherent(ops, matches);
    ResolveKeepsCoherence(After(ops, matches), model, matches);
  }

  /** An overwritten registration can leave a stale answer: the cache still returns the
      first class after the second was registered under the same pattern. */
  lemma OverwriteGoesStale<P, C>(p: P, one: C, two: C, model: string, matches: Matcher<P>)
    requires matches(p, model) == Yes && one != two
    ensures var s := After([RegisterOp(p, one), ResolveOp(model), RegisterOp(p, two)], matches);
            ResolveIn(s, model, matches).1 == Found(one) && Scan(s.dict, model, matches) == Found(two)
  {
    var ops := [RegisterOp(p, one), ResolveOp(model), RegisterOp(p, two)];
    assert ops[..2] == [RegisterOp(p, one), ResolveOp(model)];
    assert ops[..2][..1] == [RegisterOp(p, one)];
    assert ops[..2][..1][..0] == [];
    assert After(ops[..2][..1], matches) == State([(p, one)], []);
    assert After(ops[..2], matches) == State([(p, one)], [(model, one)]);
    assert After(ops, matches) == State([(p, two)], [(model, one)]);
  }

  // ---------------------------------------------------------------------------
  // The cache holds the most recently resolved models
  // ---------------------------------------------------------------------------

  /** The models resolved successfully, each once, the most recently used last. */
  function Recency<P(==), C>(ops: seq<Op<P, C>>, matches: Matcher<P>): seq<string> {
    if ops == [] then []
    else
      var n := |ops| - 1;
      var before := Recency(ops[..n], matches);
      if ops[n].ResolveOp? && ResolveIn(After(ops[..n], matches), ops[n].model, matches).1.Found?
      then Use(before, ops[n].model) else before
  }

  lemma {:induction false} KeysDelete<C>(m: JsMap<string, C>, k: string)
    ensures Keys(Delete(m, k)) == Without(Keys(m), k)
  {
    if m != [] {
      KeysDelete(m[1..], k);
      assert Keys(m) == [m[0].0] + Keys(m[1..]);
      assert m[0].0 != k ==> Keys(Delete(m, k)) == [m[0].0] + Keys(Delete(m[1..], k));
    }
  }

  lemma {:induction false} WithoutIs(keys: seq<string>, k: string)
    ensures k !in keys ==> Without(keys, k) == keys
    ensures k !in Without(keys, k)
    ensures |Without(keys, k)| <= |keys|
    ensures forall x :: x in Without(keys, k) ==> x in keys
  {
    if keys != [] {
      WithoutIs(keys[1..], k);
    }
  }

  lemma {:induction false} WithoutDuplicates(keys: seq<string>, k: string)
    requires NoDuplicates(keys)
    ensures NoDuplicates(Without(keys, k))
    ensures k in keys ==> |Without(keys, k)| == |keys| - 1
  {
    if keys != [] {
      WithoutDuplicates(keys[1..], k);
      WithoutIs(keys[1..], k);
      var rest := Without(keys[1..], k);
      assert forall i :: 0 <= i < |rest| ==> rest[i] in rest;
      assert keys[0] !in keys[1..];
    }
  }

  lemma {:induction false} WithoutAppend(a: seq<string>, b: seq<string>, k: string)
    ensures Without(a + b, k) == Without(a, k) + Without(b, k)
  {
    if a == [] {
      assert a + b == b;
    } else {
      assert (a + b)[1..] == a[1..] + b;
      WithoutAppend(a[1..], b, k);
    }
  }

  lemma LastOfLonger(keys: seq<string>, key: string)
    ensures Last(keys + [key], CACHE_SIZE) == Last(keys, CACHE_SIZE - 1) + [key]
  {
  }

  lemma LastOfSplit(older: seq<string>, recent: seq<string>, n: nat)
    requires |recent| >= n || older == []
    ensures Last(older + recent, n) == Last(recent, n)
  {
    if older == [] {
      assert older + recent == recent;
    }
  }

  ghost predicate Splits(keys: seq<string>, older: seq<string>, recent: seq<string>) {
    && keys == older + recent && NoDuplicates(keys)
    && |recent| <= CACHE_SIZE && (|recent| == CACHE_SIZE || older == [])
  }

  /** Using a key among the last ones moves it to the end. */
  lemma UseRecent(keys: seq<string>, older: seq<string>, recent: seq<string>, key: string)
    requires Splits(keys, older, recent) && key in recent
    ensures Last(Use(keys, key), CACHE_SIZE) == Use(recent, key)
  {
    WithoutAppend(older, recent, key);
    assert forall i :: 0 <= i < |recent| ==> recent[i] == keys[|older| + i];
    assert forall i :: 0 <= i < |older| ==> older[i] == keys[i];
    assert NoDuplicates(recent) && key !in older;
    WithoutIs(older, key);
    WithoutDuplicates(recent, key);
    LastOfLonger(Without(keys, key), key);
    LastOfSplit(older, Without(recent, key), CACHE_SIZE - 1);
  }

  /** Using another key pushes out the oldest of a full cache. */
  lemma UseOther(keys: seq<string>, older: seq<string>, recent: seq<string>, key: string)
    requires Splits(keys, older, recent) && key !in recent
    ensures Last(Use(keys, key), CACHE_SIZE) == Last(recent, CACHE_SIZE - 1) + [key]
  {
    WithoutAppend(older, recent, key);
    WithoutIs(recent, key);
    LastOfLonger(Without(keys, key), key);
    assert older == [] ==> Without(older, key) == [];
    LastOfSplit(Without(older, key), recent, CACHE_SIZE - 1);
  }

  lemma UseKeepsDistinct(keys: seq<string>, key: string)
    requires NoDuplicates(keys)
    ensures NoDuplicates(Use(keys, key))
  {
    WithoutIs(keys, key);
    WithoutDuplicates(keys, key);
    var rest := Without(keys, key);
    assert forall i :: 0 <= i < |rest| ==> rest[i] in rest;
  }

  lemma LastSplits(keys: seq<string>) returns (older: seq<string>)
    requires NoDuplicates(keys)
    ensures Splits(keys, older, Last(keys, CACHE_SIZE))
  {
    older := keys[..|keys| - |Last(keys, CACHE_SIZE)|];
  }

  lemma HitMovesToEnd<C>(cache: JsMap<string, C>, key: string)
    requires key in Keys(cache)
    ensures Keys(CacheGet(cache, key)) == Use(Keys(cache), key)
  {
    KeysDelete(cache, key);
    var rest := Delete(cache, key);
    assert key !in Keys(rest);
    var entry := (key, Get(cache, key).value);
    assert Keys(rest + [entry]) == Keys(rest) + [key];
  }

  lemma StoreEvictsOldest<C>(cache: JsMap<string, C>, key: string, value: C)
    requires key !in Keys(cache) && |cache| <= CACHE_SIZE && NoDuplicates(Keys(cache))
    ensures Keys(CacheSet(cache, key, value)) == Last(Keys(cache), CACHE_SIZE - 1) + [key]
  {
    if |cache| >= CACHE_SIZE {
      var oldest := cache[0].0;
      KeysDelete(cache, oldest);
      assert Keys(cache) == [oldest] + Keys(cache)[1..];
      WithoutIs(Keys(cache)[1..], oldest);
      assert Without(Keys(cache), oldest) == Keys(cache)[1..];
      var rest := Delete(cache, oldest);
      assert key !in Keys(rest);
      assert Keys(rest + [(key, value)]) == Keys(rest) + [key];
    } else {
      assert Keys(cache + [(key, value)]) == Keys(cache) + [key];
    }
  }

  /** The cache keys are the last ones used. */
  ghost predicate Recent<C>(cache: JsMap<string, C>, used: seq<string>) {
    NoDuplicates(used) && Keys(cache) == Last(used, CACHE_SIZE)
  }

  lemma HitKeepsRecent<C>(cache: JsMap<string, C>, used: seq<string>, model: string)
    requires Recent(cache, used) && model in Keys(cache)
    ensures Recent(CacheGet(cache, model), Use(used, model))
  {
    var older := LastSplits(used);
    UseKeepsDistinct(used, model);
    HitMovesToEnd(cache, model);
    UseRecent(used, older, Keys(cache), model);
  }

  lemma MissKeepsRecent<C>(cache: JsMap<string, C>, used: seq<string>, model: string, value: C)
    requires Recent(cache, used) && model !in Keys(cache)
    ensures Recent(CacheSet(cache, model, value), Use(used, model))
  {
    var older := LastSplits(used);
    UseKeepsDistinct(used, model);
    LastIsDistinct(used);
    StoreEvictsOldest(cache, model, value);
    UseOther(used, older, Keys(cache), model);
  }

  lemma LastIsDistinct(used: seq<string>)
    requires NoDuplicates(used)
    ensures NoDuplicates(Last(used, CACHE_SIZE)) && |Last(used, CACHE_SIZE)| <= CACHE_SIZE
  {
  }

  /** Over every run, overwriting or not, the cache keys are the 32 models most
      recently resolved with success, in order of their last use. */
  lemma {:induction false} CacheKeepsTheMostRecent<P, C>(ops: seq<Op<P, C>>, matches: Matcher<P>)
    ensures Recent(After(ops, matches).cache, Recency(ops, matches))
    ensures Keys(After(ops, matches).cache) == Last(Recency(ops, matches), 32)
    ensures |After(ops, matches).cache| <= 32
  {
    if ops != [] {
      var n := |ops| - 1;
      CacheKeepsTheMostRecent(ops[..n], matches);
      var s, used := After(ops[..n], matches), Recency(ops[..n], matches);
      if ops[n].ResolveOp? && ResolveIn(s, ops[n].model, matches).1.Found? {
        var model := ops[n].model;
        if model in Keys(s.cache) {
          HitKeepsRecent(s.cache, used, model);
        } else {
          MissKeepsRecent(s.cache, used, model, Scan(s.dict, model, matches).llmClass);
        }
      }
    }
    LastIsDistinct(Recency(ops, matches));
    assert |Keys(After(ops, matches).cache)| <= CACHE_SIZE;
  }
}
