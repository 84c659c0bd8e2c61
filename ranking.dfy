/**
 * `sortedBy { (_, v) -> -v }` on a list of (name, count) pairs: a stable sort by
 * descending count, written as an insertion sort. A stable sort by a key is unique, so
 * proving that the result is a non-increasing permutation that keeps the input order
 * among equal counts pins down exactly the list Kotlin's sort returns.
 */
module Ranking {
  import opened Assoc

  predicate NonIncreasing(s: seq<(string, int)>) {
    forall i, j :: 0 <= i < j < |s| ==> s[i].1 >= s[j].1
  }

  /** No count in `s` exceeds `b`. */
  predicate AtMost(b: int, s: seq<(string, int)>) {
    forall j :: 0 <= j < |s| ==> s[j].1 <= b
  }

  /** The entries of `s` whose count is `v`, in their order in `s`. */
  function WithCount(s: seq<(string, int)>, v: int): seq<(string, int)> {
    if s == [] then [] else (if s[0].1 == v then [s[0]] else []) + WithCount(s[1..], v)
  }

  /** Places `p` in front of the first entry whose count is not larger than its own. */
  function InsertDesc(s: seq<(string, int)>, p: (string, int)): seq<(string, int)> {
    if s == [] || s[0].1 <= p.1 then [p] + s else [s[0]] + InsertDesc(s[1..], p)
  }

  /** The stable sort by descending count. */
  function SortDesc(ps: seq<(string, int)>): seq<(string, int)> {
    if ps == [] then [] else InsertDesc(SortDesc(ps[1..]), ps[0])
  }

  lemma {:induction false} InsertDescBound(s: seq<(string, int)>, p: (string, int), b: int)
    requires AtMost(b, s) && p.1 <= b
    ensures AtMost(b, InsertDesc(s, p))
  {
    if s != [] && s[0].1 > p.1 {
      InsertDescBound(s[1..], p, b);
    }
  }

  lemma NonIncreasingCons(x: (string, int), t: seq<(string, int)>)
    requires AtMost(x.1, t) && NonIncreasing(t)
    ensures NonIncreasing([x] + t)
  {
    forall i, j | 0 <= i < j < |t| + 1 ensures ([x] + t)[i].1 >= ([x] + t)[j].1 {
      assert ([x] + t)[j] == t[j - 1];
      if i > 0 {
        assert ([x] + t)[i] == t[i - 1];
      }
    }
  }

  /** Inserting adds exactly `p`. */
  lemma {:induction false} InsertDescPermutes(s: seq<(string, int)>, p: (string, int))
    ensures multiset(InsertDesc(s, p)) == multiset(s) + multiset{p}
  {
    if s != [] && s[0].1 > p.1 {
      InsertDescPermutes(s[1..], p);
      assert s == [s[0]] + s[1..];
    }
  }

  /** Inserting keeps a non-increasing list non-increasing. */
  lemma {:induction false} InsertDescSorted(s: seq<(string, int)>, p: (string, int))
    requires NonIncreasing(s)
    ensures NonIncreasing(InsertDesc(s, p))
  {
    if s == [] || s[0].1 <= p.1 {
      NonIncreasingCons(p, s);
    } else {
      InsertDescSorted(s[1..], p);
      InsertDescBound(s[1..], p, s[0].1);
      NonIncreasingCons(s[0], InsertDesc(s[1..], p));
    }
  }

  lemma WithCountCons(x: (string, int), t: seq<(string, int)>, v: int)
    ensures WithCount([x] + t, v) == (if x.1 == v then [x] else []) + WithCount(t, v)
  {
    assert ([x] + t)[1..] == t;
  }

  /** Among entries with one count, `p` comes first and the others keep their order. */
  lemma {:induction false} InsertDescWithCount(s: seq<(string, int)>, p: (string, int), v: int)
    ensures WithCount(InsertDesc(s, p), v) == (if p.1 == v then [p] else []) + WithCount(s, v)
  {
    if s == [] || s[0].1 <= p.1 {
      WithCountCons(p, s, v);
    } else {
      var rest := InsertDesc(s[1..], p);
      WithCountCons(s[0], rest, v);
      WithCountCons(s[0], s[1..], v);
      assert [s[0]] + s[1..] == s;
      InsertDescWithCount(s[1..], p, v);
    }
  }

  lemma DistinctCons<K>(a: K, t: seq<K>)
    ensures Distinct([a] + t) <==> a !in t && Distinct(t)
  {
    if a !in t && Distinct(t) {
      forall i, j | 0 <= i < j < |t| + 1 ensures ([a] + t)[i] != ([a] + t)[j] {
        if i > 0 {
          assert ([a] + t)[i] == t[i - 1];
        }
      }
    }
    if Distinct([a] + t) {
      forall i | 0 <= i < |t| ensures t[i] != a {
        assert ([a] + t)[0] != ([a] + t)[i + 1];
      }
      assert forall i :: 0 <= i < |t| ==> t[i] == ([a] + t)[i + 1];
    }
  }

  /** The names after inserting are the old names and `p`'s; they stay distinct when `p`'s name is new. */
  lemma {:induction false} InsertDescKeys(s: seq<(string, int)>, p: (string, int))
    ensures forall k :: k in Keys(InsertDesc(s, p)) <==> k in Keys(s) || k == p.0
    ensures DistinctKeys(s) && p.0 !in Keys(s) ==> DistinctKeys(InsertDesc(s, p))
  {
    if s == [] || s[0].1 <= p.1 {
      KeysCons(p, s);
      DistinctCons(p.0, Keys(s));
    } else {
      var rest := InsertDesc(s[1..], p);
      InsertDescKeys(s[1..], p);
      KeysUncons(s);
      KeysCons(s[0], rest);
      DistinctCons(s[0].0, Keys(s[1..]));
      DistinctCons(s[0].0, Keys(rest));
    }
  }

  /** The sort returns a non-increasing permutation of its input. */
  lemma {:induction false} SortDescSorted(ps: seq<(string, int)>)
    ensures multiset(SortDesc(ps)) == multiset(ps)
    ensures NonIncreasing(SortDesc(ps))
  {
    if ps != [] {
      SortDescSorted(ps[1..]);
      InsertDescPermutes(SortDesc(ps[1..]), ps[0]);
      InsertDescSorted(SortDesc(ps[1..]), ps[0]);
      assert ps == [ps[0]] + ps[1..];
    }
  }

  /** The sort keeps the set of names, and distinct names stay distinct. */
  lemma {:induction false} SortDescKeys(ps: seq<(string, int)>)
    ensures forall k :: k in Keys(SortDesc(ps)) <==> k in Keys(ps)
    ensures DistinctKeys(ps) ==> DistinctKeys(SortDesc(ps))
  {
    if ps != [] {
      var rest := SortDesc(ps[1..]);
      SortDescKeys(ps[1..]);
      InsertDescKeys(rest, ps[0]);
      KeysUncons(ps);
      DistinctCons(ps[0].0, Keys(ps[1..]));
    }
  }

  /** The sort is stable: entries with equal counts keep their input order. */
  lemma {:induction false} SortDescStable(ps: seq<(string, int)>, v: int)
    ensures WithCount(SortDesc(ps), v) == WithCount(ps, v)
  {
    if ps != [] {
      SortDescStable(ps[1..], v);
      InsertDescWithCount(SortDesc(ps[1..]), ps[0], v);
    }
  }

  /** Cutting a list keeps, for each count, a prefix of its entries with that count. */
  lemma {:induction false} WithCountPrefix(s: seq<(string, int)>, n: nat, v: int)
    requires n <= |s|
    ensures WithCount(s[..n], v) <= WithCount(s, v)
  {
    if n > 0 {
      assert s[..n][1..] == s[1..][..n - 1];
      WithCountPrefix(s[1..], n - 1, v);
    }
  }
}
