/**
 * Kotlin's read-only maps with `Int` values, as association lists whose order is the
 * map's iteration order. `GroupSum` is `groupingBy { key }.fold(0) { acc, x -> acc + weight(x) }`
 * (a `LinkedHashMap`: keys in order of first encounter), `ToMap` is `toMap()` on a list of pairs
 * (a later pair with a key already present replaces the value in place), and `ToSortedMap` is
 * `toSortedMap()` (a `TreeMap` over `String.compareTo`).
 */
module Assoc {
  import opened Wrappers
  import opened Text

  /** `m.keys`, in iteration order. */
  function Keys<K>(m: seq<(K, int)>): seq<K> {
    seq(|m|, i requires 0 <= i < |m| => m[i].0)
  }

  predicate Distinct<K(==)>(s: seq<K>) {
    forall i, j :: 0 <= i < j < |s| ==> s[i] != s[j]
  }

  predicate DistinctKeys<K(==)>(m: seq<(K, int)>) {
    Distinct(Keys(m))
  }

  /** `m[k]`: the value of the first entry with key `k`, or null. */
  function Lookup<K(==)>(m: seq<(K, int)>, k: K): Option<int> {
    if m == [] then None else if m[0].0 == k then Some(m[0].1) else Lookup(m[1..], k)
  }

  /** `m[k] ?: 0`, the accumulator a fold starts from. */
  function Current<K(==)>(m: seq<(K, int)>, k: K): int {
    match Lookup(m, k)
    case Some(v) => v
    case None => 0
  }

  /** `m.values.sum()`. */
  function ValueSum<K>(m: seq<(K, int)>): int {
    if m == [] then 0 else m[0].1 + ValueSum(m[1..])
  }

  lemma KeysSnoc<K>(m: seq<(K, int)>, e: (K, int))
    ensures Keys(m + [e]) == Keys(m) + [e.0]
  {
    assert forall i :: 0 <= i < |m| + 1 ==> Keys(m + [e])[i] == (Keys(m) + [e.0])[i];
  }

  lemma KeysCons<K>(e: (K, int), m: seq<(K, int)>)
    ensures Keys([e] + m) == [e.0] + Keys(m)
  {
    assert forall i :: 0 <= i < |m| + 1 ==> Keys([e] + m)[i] == ([e.0] + Keys(m))[i];
  }

  lemma KeysUncons<K>(m: seq<(K, int)>)
    requires m != []
    ensures Keys(m) == [m[0].0] + Keys(m[1..])
  {
    KeysCons(m[0], m[1..]);
    assert [m[0]] + m[1..] == m;
  }

  lemma DistinctSnoc<K>(s: seq<K>, k: K)
    requires Distinct(s) && k !in s
    ensures Distinct(s + [k])
  {
  }

  /** Distinct keys stay distinct in a prefix, and the last key is not among the earlier ones. */
  lemma DistinctKeysSnoc<K>(m: seq<(K, int)>)
    requires m != [] && DistinctKeys(m)
    ensures DistinctKeys(m[..|m| - 1])
    ensures m[|m| - 1].0 !in Keys(m[..|m| - 1])
  {
    var n := |m| - 1;
    assert Keys(m[..n]) == Keys(m)[..n];
    forall i | 0 <= i < n ensures Keys(m[..n])[i] != m[n].0 {
      assert Keys(m)[i] != Keys(m)[n];
    }
  }

  /** A key has a value exactly when it is one of the map's keys. */
  lemma {:induction false} LookupSome<K>(m: seq<(K, int)>, k: K)
    ensures Lookup(m, k).Some? <==> k in Keys(m)
  {
    if m != [] {
      KeysUncons(m);
      LookupSome(m[1..], k);
    }
  }

  lemma {:induction false} LookupSnoc<K>(m: seq<(K, int)>, e: (K, int), k: K)
    ensures Lookup(m + [e], k) == if k in Keys(m) then Lookup(m, k) else if k == e.0 then Some(e.1) else None
  {
    if m != [] {
      KeysUncons(m);
      assert (m + [e])[1..] == m[1..] + [e];
      LookupSnoc(m[1..], e, k);
    }
  }

  lemma {:induction false} ValueSumSnoc<K>(m: seq<(K, int)>, e: (K, int))
    ensures ValueSum(m + [e]) == ValueSum(m) + e.1
  {
    if m != [] {
      assert (m + [e])[1..] == m[1..] + [e];
      ValueSumSnoc(m[1..], e);
    }
  }

  // ---------------------------------------------------------------------------
  // groupingBy { key }.fold(0) { acc, x -> acc + weight(x) }

  /** One step of the fold: add `d` to the entry for `k`, appending `(k, 0 + d)` when `k` is new. */
  function Bump<K(==)>(m: seq<(K, int)>, k: K, d: int): seq<(K, int)> {
    if m == [] then [(k, d)]
    else if m[0].0 == k then [(k, m[0].1 + d)] + m[1..]
    else [m[0]] + Bump(m[1..], k, d)
  }

  /** A step of the fold keeps the keys in place and appends a new key at the end. */
  lemma {:induction false} BumpKeys<K>(m: seq<(K, int)>, k: K, d: int)
    ensures Keys(Bump(m, k, d)) == if k in Keys(m) then Keys(m) else Keys(m) + [k]
  {
    if m != [] {
      KeysUncons(m);
      if m[0].0 == k {
        KeysCons((k, m[0].1 + d), m[1..]);
      } else {
        BumpKeys(m[1..], k, d);
        KeysCons(m[0], Bump(m[1..], k, d));
      }
    }
  }

  /** A step of the fold adds `d` to the value of `k` (null counting as 0) and no other value changes. */
  lemma {:induction false} BumpLookup<K>(m: seq<(K, int)>, k: K, d: int, k': K)
    ensures Lookup(Bump(m, k, d), k') == if k' == k then Some(Current(m, k) + d) else Lookup(m, k')
  {
    if m != [] {
      if m[0].0 == k {
        var r := [(k, m[0].1 + d)] + m[1..];
        assert r[1..] == m[1..];
      } else {
        var rest := Bump(m[1..], k, d);
        assert ([m[0]] + rest)[1..] == rest;
        BumpLookup(m[1..], k, d, k');
      }
    }
  }

  lemma {:induction false} BumpValueSum<K>(m: seq<(K, int)>, k: K, d: int)
    ensures ValueSum(Bump(m, k, d)) == ValueSum(m) + d
  {
    if m != [] && m[0].0 != k {
      BumpValueSum(m[1..], k, d);
    }
  }

  /** The sum of all weights. */
  function SumAll<T>(xs: seq<T>, weight: T -> int): int {
    if xs == [] then 0 else SumAll(xs[..|xs| - 1], weight) + weight(xs[|xs| - 1])
  }

  /** The sum of the weights of the elements whose key is `k`. */
  function SumWhere<T, K(==)>(xs: seq<T>, key: T -> K, weight: T -> int, k: K): int {
    if xs == [] then 0
    else SumWhere(xs[..|xs| - 1], key, weight, k) + (if key(xs[|xs| - 1]) == k then weight(xs[|xs| - 1]) else 0)
  }

  lemma {:induction false} SumAllOnes<T>(xs: seq<T>, weight: T -> int)
    requires forall x :: weight(x) == 1
    ensures SumAll(xs, weight) == |xs|
  {
    if xs != [] {
      SumAllOnes(xs[..|xs| - 1], weight);
    }
  }

  /** The key of every element, in order. */
  function KeysOf<T, K>(xs: seq<T>, key: T -> K): (ks: seq<K>)
    ensures |ks| == |xs|
    ensures forall i :: 0 <= i < |xs| ==> ks[i] == key(xs[i])
  {
    seq(|xs|, i requires 0 <= i < |xs| => key(xs[i]))
  }

  lemma KeysOfSnoc<T, K>(xs: seq<T>, key: T -> K)
    requires xs != []
    ensures KeysOf(xs, key) == KeysOf(xs[..|xs| - 1], key) + [key(xs[|xs| - 1])]
  {
    var n := |xs| - 1;
    assert forall i :: 0 <= i <= n ==> KeysOf(xs, key)[i] == (KeysOf(xs[..n], key) + [key(xs[n])])[i];
  }

  /** The distinct elements of `s` in order of first occurrence. */
  function Dedup<K(==)>(s: seq<K>): seq<K> {
    if s == [] then []
    else
      var d := Dedup(s[..|s| - 1]);
      if s[|s| - 1] in d then d else d + [s[|s| - 1]]
  }

  /** Dedup keeps each element of `s` exactly once. */
  lemma {:induction false} DedupSpec<K>(s: seq<K>)
    ensures Distinct(Dedup(s))
    ensures forall k :: k in Dedup(s) <==> k in s
  {
    if s != [] {
      var n := |s| - 1;
      DedupSpec(s[..n]);
      assert s == s[..n] + [s[n]];
    }
  }

  /** `xs.groupingBy(key).fold(0) { acc, x -> acc + weight(x) }`. */
  function GroupSum<T, K(==)>(xs: seq<T>, key: T -> K, weight: T -> int): seq<(K, int)> {
    if xs == [] then []
    else Bump(GroupSum(xs[..|xs| - 1], key, weight), key(xs[|xs| - 1]), weight(xs[|xs| - 1]))
  }

  /** The groups appear once each, in the order their keys are first met in `xs`. */
  lemma {:induction false} GroupSumKeys<T, K>(xs: seq<T>, key: T -> K, weight: T -> int)
    ensures Keys(GroupSum(xs, key, weight)) == Dedup(KeysOf(xs, key))
    ensures DistinctKeys(GroupSum(xs, key, weight))
    ensures forall k :: k in Keys(GroupSum(xs, key, weight)) <==> k in KeysOf(xs, key)
  {
    if xs != [] {
      var n := |xs| - 1;
      GroupSumKeys(xs[..n], key, weight);
      BumpKeys(GroupSum(xs[..n], key, weight), key(xs[n]), weight(xs[n]));
      KeysOfSnoc(xs, key);
    }
    DedupSpec(KeysOf(xs, key));
  }

  /** Each group's value is the sum of the weights of the elements with that key; absent keys have none. */
  lemma {:induction false} GroupSumLookup<T, K>(xs: seq<T>, key: T -> K, weight: T -> int, k: K)
    ensures Lookup(GroupSum(xs, key, weight), k) ==
      if k in KeysOf(xs, key) then Some(SumWhere(xs, key, weight, k)) else None
    ensures k !in KeysOf(xs, key) ==> SumWhere(xs, key, weight, k) == 0
  {
    if xs != [] {
      var n := |xs| - 1;
      var prev := GroupSum(xs[..n], key, weight);
      GroupSumLookup(xs[..n], key, weight, k);
      BumpLookup(prev, key(xs[n]), weight(xs[n]), k);
      KeysOfSnoc(xs, key);
    }
  }

  /** The values of all groups add up to the total weight. */
  lemma {:induction false} GroupSumTotal<T, K>(xs: seq<T>, key: T -> K, weight: T -> int)
    ensures ValueSum(GroupSum(xs, key, weight)) == SumAll(xs, weight)
  {
    if xs != [] {
      var n := |xs| - 1;
      GroupSumTotal(xs[..n], key, weight);
      BumpValueSum(GroupSum(xs[..n], key, weight), key(xs[n]), weight(xs[n]));
    }
  }

  // ---------------------------------------------------------------------------
  // toMap()

  /** `LinkedHashMap.put`: replace the value of an existing key in place, or append. */
  function Put<K(==)>(m: seq<(K, int)>, e: (K, int)): seq<(K, int)> {
    if m == [] then [e]
    else if m[0].0 == e.0 then [e] + m[1..]
    else [m[0]] + Put(m[1..], e)
  }

  lemma {:induction false} PutKeys<K>(m: seq<(K, int)>, e: (K, int))
    ensures Keys(Put(m, e)) == if e.0 in Keys(m) then Keys(m) else Keys(m) + [e.0]
    ensures e.0 !in Keys(m) ==> Put(m, e) == m + [e]
  {
    if m != [] {
      KeysUncons(m);
      if m[0].0 == e.0 {
        KeysCons(e, m[1..]);
      } else {
        PutKeys(m[1..], e);
        KeysCons(m[0], Put(m[1..], e));
      }
    }
  }

  /** `pairs.toMap()`. */
  function ToMap<K(==)>(pairs: seq<(K, int)>): seq<(K, int)> {
    if pairs == [] then [] else Put(ToMap(pairs[..|pairs| - 1]), pairs[|pairs| - 1])
  }

  /** `toMap` keeps one entry per key, never grows, and keeps the set of keys. */
  lemma {:induction false} ToMapSpec<K>(pairs: seq<(K, int)>)
    ensures DistinctKeys(ToMap(pairs))
    ensures |ToMap(pairs)| <= |pairs|
    ensures forall k :: k in Keys(ToMap(pairs)) <==> k in Keys(pairs)
  {
    if pairs != [] {
      var n := |pairs| - 1;
      var ys, x := pairs[..n], pairs[n];
      var prev := ToMap(ys);
      ToMapSpec(ys);
      PutKeys(prev, x);
      if x.0 !in Keys(prev) {
        DistinctSnoc(Keys(prev), x.0);
      }
      assert |Put(prev, x)| == |Keys(Put(prev, x))|;
      KeysSnoc(ys, x);
      assert ys + [x] == pairs;
    }
  }

  /** The value of the last pair with key `k`, if any: the value `toMap` keeps for `k`. */
  function LastValue<K(==)>(pairs: seq<(K, int)>, k: K): Option<int> {
    if pairs == [] then None
    else if pairs[|pairs| - 1].0 == k then Some(pairs[|pairs| - 1].1)
    else LastValue(pairs[..|pairs| - 1], k)
  }

  /** `put` sets the value of its own key and leaves every other lookup as it was. */
  lemma {:induction false} PutLookup<K>(m: seq<(K, int)>, e: (K, int), k: K)
    ensures Lookup(Put(m, e), k) == if k == e.0 then Some(e.1) else Lookup(m, k)
  {
    if m != [] && m[0].0 != e.0 {
      PutLookup(m[1..], e, k);
      assert ([m[0]] + Put(m[1..], e))[1..] == Put(m[1..], e);
    } else if m != [] {
      assert ([e] + m[1..])[1..] == m[1..];
    }
  }

  /** For a repeated key `toMap` keeps the value of the last pair; a key with no pair has no entry. */
  lemma {:induction false} ToMapLookup<K>(pairs: seq<(K, int)>, k: K)
    ensures Lookup(ToMap(pairs), k) == LastValue(pairs, k)
  {
    if pairs != [] {
      var n := |pairs| - 1;
      ToMapLookup(pairs[..n], k);
      PutLookup(ToMap(pairs[..n]), pairs[n], k);
    }
  }

  /** On pairs whose keys are already distinct, `toMap` is the identity. */
  lemma {:induction false} ToMapDistinct<K>(pairs: seq<(K, int)>)
    requires DistinctKeys(pairs)
    ensures ToMap(pairs) == pairs
  {
    if pairs != [] {
      var n := |pairs| - 1;
      DistinctKeysSnoc(pairs);
      ToMapDistinct(pairs[..n]);
      PutKeys(pairs[..n], pairs[n]);
      assert pairs[..n] + [pairs[n]] == pairs;
    }
  }

  // ---------------------------------------------------------------------------
  // toSortedMap()

  predicate Ascending(m: seq<(string, int)>) {
    forall i, j :: 0 <= i < j < |m| ==> StrLess(m[i].0, m[j].0)
  }

  /** Every key of `m` sorts after `b`. */
  predicate Above(b: string, m: seq<(string, int)>) {
    forall j :: 0 <= j < |m| ==> StrLess(b, m[j].0)
  }

  /** `TreeMap.put` on a map kept in ascending key order. */
  function InsertSorted(m: seq<(string, int)>, e: (string, int)): seq<(string, int)> {
    if m == [] || StrLess(e.0, m[0].0) then [e] + m
    else if m[0].0 == e.0 then [e] + m[1..]
    else [m[0]] + InsertSorted(m[1..], e)
  }

  /** Putting into an ascending map keeps it ascending, and a bound below every old key and below the new one stays a bound. */
  lemma {:induction false} InsertSortedAscending(m: seq<(string, int)>, e: (string, int))
    requires Ascending(m)
    ensures Ascending(InsertSorted(m, e))
    ensures forall b :: Above(b, m) && StrLess(b, e.0) ==> Above(b, InsertSorted(m, e))
  {
    if m == [] || StrLess(e.0, m[0].0) {
      forall j | 0 < j < |m| ensures StrLess(e.0, m[j].0) {
        StrLessTransitive(e.0, m[0].0, m[j].0);
      }
    } else if m[0].0 != e.0 {
      StrLessTotal(e.0, m[0].0);
      InsertSortedAscending(m[1..], e);
      assert Above(m[0].0, m[1..]);
    }
  }

  /** After the put, `e`'s key holds `e`'s value, other keys keep theirs, and a new entry adds its value to the total. */
  lemma {:induction false} InsertSortedLookup(m: seq<(string, int)>, e: (string, int), k: string)
    ensures k in Keys(InsertSorted(m, e)) <==> k in Keys(m) || k == e.0
    ensures Lookup(InsertSorted(m, e), k) == if k == e.0 then Some(e.1) else Lookup(m, k)
    ensures e.0 !in Keys(m) ==> ValueSum(InsertSorted(m, e)) == ValueSum(m) + e.1
  {
    if m == [] || StrLess(e.0, m[0].0) {
      KeysCons(e, m);
      assert ([e] + m)[1..] == m;
    } else {
      KeysUncons(m);
      if m[0].0 == e.0 {
        KeysCons(e, m[1..]);
      } else {
        var rest := InsertSorted(m[1..], e);
        InsertSortedLookup(m[1..], e, k);
        KeysCons(m[0], rest);
        assert ([m[0]] + rest)[1..] == rest;
      }
    }
  }

  /** `m.toSortedMap()`. */
  function ToSortedMap(m: seq<(string, int)>): seq<(string, int)> {
    if m == [] then [] else InsertSorted(ToSortedMap(m[..|m| - 1]), m[|m| - 1])
  }

  /** The sorted map is ascending and has the same keys; for a map (distinct keys) it has the same values. */
  lemma {:induction false} ToSortedMapSpec(m: seq<(string, int)>)
    ensures Ascending(ToSortedMap(m))
    ensures forall k :: k in Keys(ToSortedMap(m)) <==> k in Keys(m)
    ensures DistinctKeys(m) ==> forall k :: Lookup(ToSortedMap(m), k) == Lookup(m, k)
    ensures DistinctKeys(m) ==> ValueSum(ToSortedMap(m)) == ValueSum(m)
  {
    if m != [] {
      var n := |m| - 1;
      var prev := ToSortedMap(m[..n]);
      ToSortedMapSpec(m[..n]);
      InsertSortedAscending(prev, m[n]);
      assert m[..n] + [m[n]] == m;
      KeysSnoc(m[..n], m[n]);
      ValueSumSnoc(m[..n], m[n]);
      forall k ensures k in Keys(ToSortedMap(m)) <==> k in Keys(m) {
        InsertSortedLookup(prev, m[n], k);
      }
      if DistinctKeys(m) {
        DistinctKeysSnoc(m);
        forall k ensures Lookup(ToSortedMap(m), k) == Lookup(m, k) {
          InsertSortedLookup(prev, m[n], k);
          LookupSnoc(m[..n], m[n], k);
          LookupSome(m[..n], k);
        }
        InsertSortedLookup(prev, m[n], m[n].0);
      }
    }
  }
}
