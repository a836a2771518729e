/**
  Group-by over a sequence of keyed values into a JavaScript `Map`, the way
  `createProfilesSections` fills its maps: for each value in input order,
  `m.set(k, [...(m.get(k) || []), x])`. Beside the fold stand two reference
  definitions that do not mention maps: `Select` (the values with one key, in
  input order) and `FirstOccurrences` (the distinct keys in encounter order).
 */
module Grouping {
  import opened Wrappers
  import opened OrderedMap

  /** Appends `x` to the group stored under `k`, creating the group when absent. */
  function Append<K(==, !new), V>(m: Assoc<K, seq<V>>, k: K, x: V): Assoc<K, seq<V>> {
    Put(m, k, Lookup(m, k).GetOr([]) + [x])
  }

  /** Appending extends the group of `k` (a new group `[x]` when absent) and leaves every other group alone. */
  lemma AppendLookup<K(!new), V>(m: Assoc<K, seq<V>>, k: K, x: V, j: K)
    ensures Lookup(Append(m, k, x), j)
         == if j != k then Lookup(m, j)
            else if Lookup(m, k).Some? then Some(Lookup(m, k).value + [x])
            else Some([x])
  {
    var v := Lookup(m, k).GetOr([]) + [x];
    assert Append(m, k, x) == Put(m, k, v);
    if Lookup(m, k).None? {
      assert v == [x];
    }
  }

  /** The map left behind by appending every pair of `pairs`, left to right, to an empty map. */
  function Group<K(==, !new), V>(pairs: seq<(K, V)>): Assoc<K, seq<V>> {
    if pairs == [] then []
    else
      var n := |pairs| - 1;
      Append(Group(pairs[..n]), pairs[n].0, pairs[n].1)
  }

  lemma GroupSnoc<K(!new), V>(pairs: seq<(K, V)>, k: K, x: V)
    ensures Group(pairs + [(k, x)]) == Append(Group(pairs), k, x)
  {
    assert (pairs + [(k, x)])[..|pairs|] == pairs;
  }

  /** The values of `pairs` whose key is `k`, in input order. */
  function Select<K(==), V>(pairs: seq<(K, V)>, k: K): seq<V> {
    if pairs == [] then []
    else
      var n := |pairs| - 1;
      Select(pairs[..n], k) + (if pairs[n].0 == k then [pairs[n].1] else [])
  }

  /** The distinct elements of `s`, each where it first occurs. */
  function FirstOccurrences<T(==)>(s: seq<T>): seq<T> {
    if s == [] then []
    else
      var n := |s| - 1;
      var d := FirstOccurrences(s[..n]);
      if s[n] in d then d else d + [s[n]]
  }

  /** Sum of the sizes of the groups of `m`. */
  function TotalSize<K, V>(m: Assoc<K, seq<V>>): nat {
    if m == [] then 0 else |m[0].1| + TotalSize(m[1..])
  }

  lemma {:induction false} SelectEmpty<K, V>(pairs: seq<(K, V)>, k: K)
    ensures Select(pairs, k) == [] <==> k !in Keys(pairs)
  {
    if pairs != [] {
      var n := |pairs| - 1;
      SelectEmpty(pairs[..n], k);
      assert Keys(pairs) == Keys(pairs[..n]) + [pairs[n].0];
    }
  }

  /** The group of each key holds exactly the values with that key, in input order. */
  lemma {:induction false} GroupLookup<K(!new), V>(pairs: seq<(K, V)>, k: K)
    ensures Lookup(Group(pairs), k) == if Select(pairs, k) == [] then None else Some(Select(pairs, k))
  {
    if pairs != [] {
      var n := |pairs| - 1;
      GroupLookup(pairs[..n], k);
      var g := Group(pairs[..n]);
      var v := Lookup(g, pairs[n].0).GetOr([]) + [pairs[n].1];
      assert Group(pairs) == Put(g, pairs[n].0, v);
      assert Select(pairs, k) == Select(pairs[..n], k) + (if pairs[n].0 == k then [pairs[n].1] else []);
      if pairs[n].0 == k {
        assert Lookup(Put(g, k, v), k) == Some(v);
      } else {
        assert Lookup(Put(g, pairs[n].0, v), k) == Lookup(g, k);
        assert Select(pairs, k) == Select(pairs[..n], k);
      }
    }
  }

  lemma {:induction false} FirstOccurrencesMembers<T>(s: seq<T>)
    ensures forall x :: x in FirstOccurrences(s) ==> x in s
    ensures forall x :: x in s ==> x in FirstOccurrences(s)
    ensures Distinct(FirstOccurrences(s))
  {
    if s != [] {
      var n := |s| - 1;
      FirstOccurrencesMembers(s[..n]);
      assert s == s[..n] + [s[n]];
    }
  }

  /**
    Encounter order: if `d[i]` comes before `d[j]` among the first occurrences,
    then every occurrence of `d[j]` in `s` is preceded by an occurrence of `d[i]`.
   */
  lemma {:induction false} FirstOccurrencesOrder<T>(s: seq<T>, i: nat, j: nat, q: nat)
    requires i < j < |FirstOccurrences(s)| && q < |s|
    requires s[q] == FirstOccurrences(s)[j]
    ensures exists p :: 0 <= p < q && s[p] == FirstOccurrences(s)[i]
  {
    var n := |s| - 1;
    var d := FirstOccurrences(s[..n]);
    FirstOccurrencesMembers(s[..n]);
    if q < n {
      assert s[..n][q] == s[q];
      if j < |d| {
        FirstOccurrencesOrder(s[..n], i, j, q);
        var p :| 0 <= p < q && s[..n][p] == d[i];
        assert s[p] == FirstOccurrences(s)[i];
      } else {
        assert false;
      }
    } else {
      assert i < |d| && FirstOccurrences(s)[i] == d[i];
      assert d[i] in d;
      assert d[i] in s[..n];
      var p :| 0 <= p < n && s[..n][p] == d[i];
      assert s[p] == FirstOccurrences(s)[i];
    }
  }

  /** The keys of the grouped map are the input's keys in encounter order. */
  lemma {:induction false} GroupKeys<K(!new), V>(pairs: seq<(K, V)>)
    ensures Keys(Group(pairs)) == FirstOccurrences(Keys(pairs))
  {
    if pairs != [] {
      var n := |pairs| - 1;
      var g := Group(pairs[..n]);
      GroupKeys(pairs[..n]);
      FirstOccurrencesMembers(Keys(pairs[..n]));
      PutKeys(g, pairs[n].0, Lookup(g, pairs[n].0).GetOr([]) + [pairs[n].1]);
      assert Keys(pairs)[..n] == Keys(pairs[..n]);
      assert Keys(pairs)[n] == pairs[n].0;
    }
  }

  lemma {:induction false} PutTotalSize<K(!new), V>(m: Assoc<K, seq<V>>, k: K, v: seq<V>)
    ensures TotalSize(Put(m, k, v)) + |Lookup(m, k).GetOr([])| == TotalSize(m) + |v|
  {
    if m != [] && m[0].0 != k {
      PutTotalSize(m[1..], k, v);
      assert Put(m, k, v)[1..] == Put(m[1..], k, v);
    }
  }

  /** Grouping neither loses nor duplicates a value. */
  lemma {:induction false} GroupTotal<K(!new), V>(pairs: seq<(K, V)>)
    ensures TotalSize(Group(pairs)) == |pairs|
  {
    if pairs != [] {
      var n := |pairs| - 1;
      GroupTotal(pairs[..n]);
      var g := Group(pairs[..n]);
      PutTotalSize(g, pairs[n].0, Lookup(g, pairs[n].0).GetOr([]) + [pairs[n].1]);
    }
  }
}
