/**
  A JavaScript `Map`: an association list whose entries keep the order in
  which their keys were first inserted. `set` on a present key replaces the
  value where it stands; on a new key it appends an entry.
 */
module OrderedMap {
  import opened Wrappers

  type Assoc<K, V> = seq<(K, V)>

  /** The keys of `m` in iteration order. */
  function Keys<K, V>(m: Assoc<K, V>): seq<K> {
    seq(|m|, i requires 0 <= i < |m| => m[i].0)
  }

  predicate Distinct<T(==)>(s: seq<T>) {
    forall i, j :: 0 <= i < j < |s| ==> s[i] != s[j]
  }

  /** `m.get(k)`: the value stored under `k`, or `undefined`. */
  function Lookup<K(==), V>(m: Assoc<K, V>, k: K): (r: Option<V>)
    ensures r.Some? <==> k in Keys(m)
  {
    if m == [] then None
    else
      assert Keys(m) == [m[0].0] + Keys(m[1..]);
      if m[0].0 == k then Some(m[0].1) else Lookup(m[1..], k)
  }

  /** `m.set(k, v)`. */
  function Put<K(==, !new), V>(m: Assoc<K, V>, k: K, v: V): (r: Assoc<K, V>)
    ensures Lookup(r, k) == Some(v)
    ensures forall j :: j != k ==> Lookup(r, j) == Lookup(m, j)
  {
    if m == [] then [(k, v)]
    else if m[0].0 == k then [(k, v)] + m[1..]
    else
      var r := [m[0]] + Put(m[1..], k, v);
      assert r[1..] == Put(m[1..], k, v);
      r
  }

  /** `set` keeps the position of a present key and appends a new one. */
  lemma {:induction false} PutKeys<K(!new), V>(m: Assoc<K, V>, k: K, v: V)
    ensures Keys(Put(m, k, v)) == if k in Keys(m) then Keys(m) else Keys(m) + [k]
    ensures Distinct(Keys(m)) ==> Distinct(Keys(Put(m, k, v)))
  {
    if m != [] {
      var r := Put(m, k, v);
      assert Keys(m) == [m[0].0] + Keys(m[1..]);
      assert Keys(r) == [r[0].0] + Keys(r[1..]);
      if m[0].0 != k {
        PutKeys(m[1..], k, v);
        assert r[1..] == Put(m[1..], k, v);
      } else {
        assert r[1..] == m[1..];
      }
    }
  }

  /** Under distinct keys, each entry is what `get` finds for its key. */
  lemma {:induction false} LookupAt<K, V>(m: Assoc<K, V>, i: nat)
    requires Distinct(Keys(m)) && i < |m|
    ensures Lookup(m, m[i].0) == Some(m[i].1)
  {
    if i > 0 {
      assert Keys(m)[0] != Keys(m)[i];
      assert Keys(m[1..]) == Keys(m)[1..];
      LookupAt(m[1..], i - 1);
    }
  }

  /** The same map with every value marked as defined (not `undefined`). */
  function Defined<K, V>(m: Assoc<K, V>): Assoc<K, Option<V>> {
    if m == [] then [] else [(m[0].0, Some(m[0].1))] + Defined(m[1..])
  }

  lemma {:induction false} DefinedLookup<K, V>(m: Assoc<K, V>, k: K)
    ensures Lookup(Defined(m), k) == if Lookup(m, k).Some? then Some(Some(Lookup(m, k).value)) else None
  {
    if m != [] {
      DefinedLookup(m[1..], k);
      assert Defined(m)[1..] == Defined(m[1..]);
    }
  }

  lemma {:induction false} DefinedPut<K(!new), V>(m: Assoc<K, V>, k: K, v: V)
    ensures Defined(Put(m, k, v)) == Put(Defined(m), k, Some(v))
  {
    if m != [] && m[0].0 != k {
      DefinedPut(m[1..], k, v);
      assert Put(m, k, v)[1..] == Put(m[1..], k, v);
      assert Defined(m)[1..] == Defined(m[1..]);
    }
  }
}
