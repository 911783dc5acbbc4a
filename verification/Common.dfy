/** Vocabulary shared by the models: optional values, results, filters on sequences,
    and the insertion-ordered map of ECMAScript. */
module Wrappers {
  datatype Option<+T> = None | Some(value: T)

  datatype Result<+T, +E> = Ok(value: T) | Err(error: E)
}

module Seqs {
  function Filter<T(!new)>(s: seq<T>, p: T -> bool): (r: seq<T>)
    ensures |r| <= |s|
  {
    if s == [] then []
    else if p(s[0]) then [s[0]] + Filter(s[1..], p)
    else Filter(s[1..], p)
  }

  lemma {:induction false} FilterMembers<T(!new)>(s: seq<T>, p: T -> bool)
    ensures forall x :: x in Filter(s, p) <==> x in s && p(x)
  {
    if s != [] {
      FilterMembers(s[1..], p);
    }
  }

  lemma FilterHead<T(!new)>(s: seq<T>, p: T -> bool)
    ensures Filter(s, p) != [] ==> Filter(s, p)[0] in s && p(Filter(s, p)[0])
  {
    FilterMembers(s, p);
    var kept := Filter(s, p);
    assert forall i :: 0 <= i < |kept| ==> kept[i] in kept;
  }

  lemma {:induction false} FilterAppend<T(!new)>(s: seq<T>, t: seq<T>, p: T -> bool)
    ensures Filter(s + t, p) == Filter(s, p) + Filter(t, p)
  {
    if s == [] {
      assert s + t == t;
    } else {
      assert (s + t)[0] == s[0] && (s + t)[1..] == s[1..] + t;
      FilterAppend(s[1..], t, p);
    }
  }

  lemma FilterLast<T(!new)>(s: seq<T>, x: T, p: T -> bool)
    ensures Filter(s + [x], p) == if p(x) then Filter(s, p) + [x] else Filter(s, p)
  {
    FilterAppend(s, [x], p);
    assert Filter([x], p) == if p(x) then [x] else [];
    assert Filter(s, p) + [] == Filter(s, p);
  }

  lemma FilterSkip<T(!new)>(head: seq<T>, x: T, tail: seq<T>, p: T -> bool)
    requires !p(x)
    ensures Filter(head + [x] + tail, p) == Filter(head + tail, p)
  {
    FilterLast(head, x, p);
    FilterAppend(head + [x], tail, p);
    FilterAppend(head, tail, p);
  }

  lemma {:induction false} FilterAll<T(!new)>(s: seq<T>, p: T -> bool)
    requires forall x :: x in s ==> p(x)
    ensures Filter(s, p) == s
  {
    if s != [] {
      FilterAll(s[1..], p);
    }
  }

  lemma {:induction false} FilterNone<T(!new)>(s: seq<T>, p: T -> bool)
    requires forall x :: x in s ==> !p(x)
    ensures Filter(s, p) == []
  {
    if s != [] {
      FilterNone(s[1..], p);
    }
  }

  /** The order of two filters does not matter. */
  lemma {:induction false} FilterCommute<T(!new)>(s: seq<T>, p: T -> bool, q: T -> bool)
    ensures Filter(Filter(s, p), q) == Filter(Filter(s, q), p)
  {
    if s != [] {
      FilterCommute(s[1..], p, q);
    }
  }

  /** Filtering by a stronger predicate does not need the weaker filter first. */
  lemma {:induction false} FilterNested<T(!new)>(s: seq<T>, p: T -> bool, q: T -> bool)
    requires forall x :: x in s && q(x) ==> p(x)
    ensures Filter(Filter(s, p), q) == Filter(s, q)
  {
    if s != [] {
      FilterNested(s[1..], p, q);
    }
  }

  /** Filtering twice is filtering by both. */
  lemma {:induction false} FilterBoth<T(!new)>(s: seq<T>, p: T -> bool, q: T -> bool, both: T -> bool)
    requires forall x :: x in s ==> both(x) == (p(x) && q(x))
    ensures Filter(Filter(s, p), q) == Filter(s, both)
  {
    if s != [] {
      FilterBoth(s[1..], p, q, both);
    }
  }

  lemma {:induction false} FilterAgree<T(!new)>(s: seq<T>, p: T -> bool, q: T -> bool)
    requires forall x :: x in s ==> p(x) == q(x)
    ensures Filter(s, p) == Filter(s, q)
  {
    if s != [] {
      FilterAgree(s[1..], p, q);
    }
  }

  /** What all elements contribute, in order. */
  function Flat<S, T>(s: seq<S>, f: S -> seq<T>): seq<T> {
    if s == [] then [] else f(s[0]) + Flat(s[1..], f)
  }

  lemma {:induction false} FlatAppend<S, T>(a: seq<S>, b: seq<S>, f: S -> seq<T>)
    ensures Flat(a + b, f) == Flat(a, f) + Flat(b, f)
  {
    if a == [] {
      assert a + b == b;
    } else {
      assert (a + b)[1..] == a[1..] + b;
      FlatAppend(a[1..], b, f);
    }
  }

  lemma FlatOne<S, T>(x: S, f: S -> seq<T>)
    ensures Flat([x], f) == f(x)
  {
    assert [x][1..] == [] && f(x) + [] == f(x);
  }

  lemma {:induction false} FlatUpdate<S, T>(s: seq<S>, i: nat, x: S, f: S -> seq<T>)
    requires i < |s| && f(s[i]) == f(x)
    ensures Flat(s[i := x], f) == Flat(s, f)
  {
    if i > 0 {
      assert s[i := x][1..] == s[1..][i - 1 := x];
      FlatUpdate(s[1..], i - 1, x, f);
    } else {
      assert s[i := x][1..] == s[1..];
    }
  }

  lemma Splice<T>(head: seq<T>, x: T, rest: seq<T>)
    ensures var s := head + [x] + rest;
            s[|head|] == x && s[..|head|] == head && s[|head| + 1..] == rest
  {
  }

  /** What is left when one element is taken out. */
  lemma TakenOut<T>(s: seq<T>, n: nat, i: nat)
    requires n < |s| && i < |s| - 1
    ensures (s[..n] + s[n + 1..])[i] == s[if i < n then i else i + 1]
  {
  }

  predicate NoDuplicates<T(==)>(s: seq<T>) {
    forall i, j :: 0 <= i < j < |s| ==> s[i] != s[j]
  }
}

/** The `Map` of ECMAScript: keys keep the position of their first insertion. */
module JsMaps {
  import opened Wrappers
  import opened Seqs

  type JsMap<K, V> = seq<(K, V)>

  function Keys<K, V>(m: JsMap<K, V>): (r: seq<K>)
    ensures |r| == |m| && forall i :: 0 <= i < |m| ==> r[i] == m[i].0
  {
    seq(|m|, i requires 0 <= i < |m| => m[i].0)
  }

  ghost predicate IsMap<K, V>(m: JsMap<K, V>) {
    NoDuplicates(Keys(m))
  }

  function Get<K(==), V>(m: JsMap<K, V>, k: K): (r: Option<V>)
    ensures r.Some? <==> k in Keys(m)
  {
    if m == [] then None
    else if m[0].0 == k then Some(m[0].1)
    else
      assert Keys(m) == [m[0].0] + Keys(m[1..]);
      Get(m[1..], k)
  }

  lemma {:induction false} GetEntry<K, V>(m: JsMap<K, V>, k: K) returns (i: nat)
    requires k in Keys(m)
    ensures i < |m| && m[i] == (k, Get(m, k).value)
  {
    if m[0].0 == k {
      return 0;
    }
    assert Keys(m) == [m[0].0] + Keys(m[1..]);
    i := GetEntry(m[1..], k);
    i := i + 1;
  }

  /** `map.set`: an existing key keeps its place, a new key goes to the end. */
  function Set<K(==), V>(m: JsMap<K, V>, k: K, v: V): (r: JsMap<K, V>)
    ensures k in Keys(m) ==> Keys(r) == Keys(m)
    ensures k !in Keys(m) ==> r == m + [(k, v)]
  {
    if m == [] then [(k, v)]
    else if m[0].0 == k then [(k, v)] + m[1..]
    else
      var r := Set(m[1..], k, v);
      assert Keys(m) == [m[0].0] + Keys(m[1..]);
      [m[0]] + r
  }

  function Delete<K(==), V>(m: JsMap<K, V>, k: K): (r: JsMap<K, V>)
    ensures k !in Keys(r)
  {
    if m == [] then []
    else
      var r := Delete(m[1..], k);
      if m[0].0 == k then r
      else
        assert Keys([m[0]] + r) == [m[0].0] + Keys(r);
        [m[0]] + r
  }

  lemma {:induction false} GetSet<K, V>(m: JsMap<K, V>, k: K, v: V, x: K)
    ensures Get(Set(m, k, v), x) == if x == k then Some(v) else Get(m, x)
  {
    if m != [] && m[0].0 != k {
      GetSet(m[1..], k, v, x);
    }
  }

  lemma {:induction false} GetDelete<K, V>(m: JsMap<K, V>, k: K, x: K)
    ensures Get(Delete(m, k), x) == if x == k then None else Get(m, x)
  {
    if m != [] {
      GetDelete(m[1..], k, x);
    }
  }

  lemma SetKeys<K, V>(m: JsMap<K, V>, k: K, v: V)
    ensures forall x :: x in Keys(Set(m, k, v)) <==> x in Keys(m) || x == k
    ensures IsMap(m) ==> IsMap(Set(m, k, v))
  {
    if k !in Keys(m) {
      assert Keys(m + [(k, v)]) == Keys(m) + [k];
    }
  }

  lemma KeysCons<K, V>(e: (K, V), m: JsMap<K, V>)
    ensures Keys([e] + m) == [e.0] + Keys(m)
  {
  }

  lemma {:induction false} DeleteKeys<K, V>(m: JsMap<K, V>, k: K)
    ensures forall x :: x in Keys(Delete(m, k)) <==> x in Keys(m) && x != k
  {
    if m != [] {
      DeleteKeys(m[1..], k);
      assert m == [m[0]] + m[1..];
      KeysCons(m[0], m[1..]);
      KeysCons(m[0], Delete(m[1..], k));
    }
  }

  lemma ConsIsMap<K, V>(e: (K, V), m: JsMap<K, V>)
    ensures IsMap([e] + m) <==> IsMap(m) && e.0 !in Keys(m)
  {
    var keys := Keys([e] + m);
    KeysCons(e, m);
    if IsMap([e] + m) {
      assert forall i :: 0 <= i < |m| ==> Keys(m)[i] == keys[i + 1];
      assert keys[0] == e.0;
    }
  }

  lemma {:induction false} DeleteIsMap<K, V>(m: JsMap<K, V>, k: K)
    requires IsMap(m)
    ensures IsMap(Delete(m, k))
  {
    if m != [] {
      assert m == [m[0]] + m[1..];
      ConsIsMap(m[0], m[1..]);
      DeleteIsMap(m[1..], k);
      DeleteKeys(m[1..], k);
      ConsIsMap(m[0], Delete(m[1..], k));
    }
  }

  lemma {:induction false} SetEntries<K, V>(m: JsMap<K, V>, k: K, v: V)
    ensures forall i :: 0 <= i < |Set(m, k, v)| ==> Set(m, k, v)[i] == (k, v) || Set(m, k, v)[i] in m
  {
    if m != [] {
      SetEntries(m[1..], k, v);
    }
  }

  lemma {:induction false} DeleteEntries<K, V>(m: JsMap<K, V>, k: K)
    ensures forall i :: 0 <= i < |Delete(m, k)| ==> Delete(m, k)[i] in m
  {
    if m != [] {
      DeleteEntries(m[1..], k);
    }
  }

  /** The map under translated keys. */
  function MapKeys<K, L, V>(m: JsMap<K, V>, f: K -> L): JsMap<L, V> {
    if m == [] then [] else [(f(m[0].0), m[0].1)] + MapKeys(m[1..], f)
  }

  lemma {:induction false} MapKeysIs<K, L, V>(m: JsMap<K, V>, f: K -> L)
    ensures |MapKeys(m, f)| == |m|
    ensures forall i :: 0 <= i < |m| ==> MapKeys(m, f)[i] == (f(m[i].0), m[i].1)
  {
    if m != [] {
      MapKeysIs(m[1..], f);
    }
  }

  /** No other key of the map is translated to what `k` is translated to. */
  ghost predicate Separates<K, L, V>(m: JsMap<K, V>, f: K -> L, k: K) {
    forall i :: 0 <= i < |m| && m[i].0 != k ==> f(m[i].0) != f(k)
  }

  /** Looking up, setting and deleting commute with an injective translation. */
  lemma {:induction false} GetMapped<K, L, V>(m: JsMap<K, V>, f: K -> L, k: K)
    requires Separates(m, f, k)
    ensures Get(MapKeys(m, f), f(k)) == Get(m, k)
  {
    if m != [] {
      assert forall i :: 0 <= i < |m| - 1 ==> m[1..][i] == m[i + 1];
      GetMapped(m[1..], f, k);
    }
  }

  lemma {:induction false} SetMapped<K, L, V>(m: JsMap<K, V>, f: K -> L, k: K, v: V)
    requires Separates(m, f, k)
    ensures Set(MapKeys(m, f), f(k), v) == MapKeys(Set(m, k, v), f)
  {
    if m != [] {
      assert forall i :: 0 <= i < |m| - 1 ==> m[1..][i] == m[i + 1];
      SetMapped(m[1..], f, k, v);
    }
  }

  lemma {:induction false} DeleteMapped<K, L, V>(m: JsMap<K, V>, f: K -> L, k: K)
    requires Separates(m, f, k)
    ensures Delete(MapKeys(m, f), f(k)) == MapKeys(Delete(m, k), f)
  {
    if m != [] {
      assert forall i :: 0 <= i < |m| - 1 ==> m[1..][i] == m[i + 1];
      DeleteMapped(m[1..], f, k);
    }
  }
}
