/** Sequence operations the model needs in several places:
    `Array.prototype.filter`, order-preserving subsequences, and a stable
    sort on an integer key (`Array.prototype.sort` with a numeric comparator,
    or an `ORDER BY` on one column). */
module Seqs {

  // ---------------------------------------------------------------------
  // Subsequences
  // ---------------------------------------------------------------------

  /** `r` is obtained from `s` by deleting elements, keeping the order of
      those that remain. */
  predicate IsSubsequence<T(==)>(r: seq<T>, s: seq<T>)
    decreases |s|
  {
    if |r| == 0 then true
    else if |s| == 0 then false
    else if r[0] == s[0] then IsSubsequence(r[1..], s[1..])
    else IsSubsequence(r, s[1..])
  }

  lemma {:induction false} SubsequenceRefl<T>(s: seq<T>)
    ensures IsSubsequence(s, s)
    decreases |s|
  {
    if |s| > 0 {
      SubsequenceRefl(s[1..]);
    }
  }

  /** A subsequence of `s` is a subsequence of `s` with anything in front. */
  lemma {:induction false} SubsequenceExtend<T>(x: T, r: seq<T>, s: seq<T>)
    requires IsSubsequence(r, s)
    ensures IsSubsequence(r, [x] + s)
    decreases |s|, 1
  {
    assert ([x] + s)[1..] == s;
    if |r| > 0 && r[0] == x {
      SubsequenceTail(r, s);
    }
  }

  /** Removing the first element of a subsequence keeps it a subsequence. */
  lemma {:induction false} SubsequenceTail<T>(r: seq<T>, s: seq<T>)
    requires |r| > 0 && IsSubsequence(r, s)
    ensures IsSubsequence(r[1..], s)
    decreases |s|, 0
  {
    assert s == [s[0]] + s[1..];
    if r[0] == s[0] {
      SubsequenceExtend(s[0], r[1..], s[1..]);
    } else {
      SubsequenceTail(r, s[1..]);
      SubsequenceExtend(s[0], r[1..], s[1..]);
    }
  }

  /** Every element of a subsequence is an element of the whole. */
  lemma {:induction false} SubsequenceMembers<T>(r: seq<T>, s: seq<T>, x: T)
    requires IsSubsequence(r, s) && x in r
    ensures x in s
    decreases |s|
  {
    if r[0] == s[0] {
      if x != r[0] {
        assert x in r[1..];
        SubsequenceMembers(r[1..], s[1..], x);
      }
    } else {
      SubsequenceMembers(r, s[1..], x);
    }
  }

  // ---------------------------------------------------------------------
  // Filter
  // ---------------------------------------------------------------------

  /** `s.filter(keep)`. */
  function Filter<T>(s: seq<T>, keep: T -> bool): (r: seq<T>)
    ensures |r| <= |s|
    ensures IsSubsequence(r, s)
    ensures forall i :: 0 <= i < |r| ==> keep(r[i])
    decreases |s|
  {
    if |s| == 0 then []
    else
      var rest := Filter(s[1..], keep);
      assert s == [s[0]] + s[1..];
      assert ([s[0]] + rest)[1..] == rest;
      SubsequenceExtend(s[0], rest, s[1..]);
      if keep(s[0]) then [s[0]] + rest else rest
  }

  /** Every element of `s` that satisfies `keep` survives the filter. */
  lemma {:induction false} FilterComplete<T>(s: seq<T>, keep: T -> bool, x: T)
    requires x in s && keep(x)
    ensures x in Filter(s, keep)
    decreases |s|
  {
    if s[0] != x {
      FilterComplete(s[1..], keep, x);
    }
  }

  /** An element is kept exactly when it is in `s` and satisfies `keep`. */
  lemma FilterMembership<T>(s: seq<T>, keep: T -> bool, x: T)
    ensures x in Filter(s, keep) <==> x in s && keep(x)
  {
    if x in s && keep(x) {
      FilterComplete(s, keep, x);
    }
    if x in Filter(s, keep) {
      SubsequenceMembers(Filter(s, keep), s, x);
    }
  }

  /** Two successive filters are one filter on the conjunction. */
  lemma {:induction false} FilterFilter<T>(s: seq<T>, f: T -> bool, g: T -> bool, h: T -> bool)
    requires forall x :: h(x) == (f(x) && g(x))
    ensures Filter(Filter(s, f), g) == Filter(s, h)
    decreases |s|
  {
    if |s| > 0 {
      FilterFilter(s[1..], f, g, h);
      var rest := Filter(s[1..], f);
      if f(s[0]) {
        assert Filter(s, f) == [s[0]] + rest;
        assert ([s[0]] + rest)[1..] == rest;
      }
    }
  }

  /** A filter whose predicate holds everywhere in `s` returns `s`. */
  lemma {:induction false} FilterAll<T>(s: seq<T>, keep: T -> bool)
    requires forall i :: 0 <= i < |s| ==> keep(s[i])
    ensures Filter(s, keep) == s
    decreases |s|
  {
    if |s| > 0 {
      FilterAll(s[1..], keep);
      assert [s[0]] + s[1..] == s;
    }
  }

  /** Filters with predicates that agree on every element agree. */
  lemma {:induction false} FilterCongruent<T>(s: seq<T>, f: T -> bool, g: T -> bool)
    requires forall i :: 0 <= i < |s| ==> f(s[i]) == g(s[i])
    ensures Filter(s, f) == Filter(s, g)
    decreases |s|
  {
    if |s| > 0 {
      FilterCongruent(s[1..], f, g);
    }
  }

  /** The elements satisfying `f` and those failing it account for all of
      `s`. */
  lemma {:induction false} FilterSplit<T>(s: seq<T>, f: T -> bool, g: T -> bool)
    requires forall x :: g(x) == !f(x)
    ensures |Filter(s, f)| + |Filter(s, g)| == |s|
    decreases |s|
  {
    if |s| > 0 {
      FilterSplit(s[1..], f, g);
    }
  }

  /** `s.filter(keep)` when `active`, otherwise `s` itself. */
  function FilterWhen<T>(s: seq<T>, active: bool, keep: T -> bool): seq<T> {
    if active then Filter(s, keep) else s
  }

  /** A filter applied only when `active` is the filter that keeps every
      element when inactive. */
  lemma FilterWhenIsFilter<T>(s: seq<T>, active: bool, keep: T -> bool, k: T -> bool)
    requires forall x :: k(x) == (!active || keep(x))
    ensures FilterWhen(s, active, keep) == Filter(s, k)
  {
    if active {
      FilterCongruent(s, keep, k);
    } else {
      FilterAll(s, k);
    }
  }

  // ---------------------------------------------------------------------
  // Stable sort on an integer key
  // ---------------------------------------------------------------------

  /** The keys of `s` never decrease. */
  predicate SortedBy<T>(s: seq<T>, key: T -> int) {
    forall i, j :: 0 <= i < j < |s| ==> key(s[i]) <= key(s[j])
  }

  /** Inserts `x` before the first element whose key is at least `key(x)`. */
  function Insert<T>(x: T, s: seq<T>, key: T -> int): (r: seq<T>)
    requires SortedBy(s, key)
    ensures SortedBy(r, key)
    ensures multiset(r) == multiset(s) + multiset{x}
    ensures |r| == |s| + 1
    decreases |s|
  {
    if |s| == 0 || key(x) <= key(s[0]) then [x] + s
    else
      var rest := Insert(x, s[1..], key);
      assert s == [s[0]] + s[1..];
      assert forall i :: 0 <= i < |rest| ==> key(s[0]) <= key(rest[i]) by {
        forall i | 0 <= i < |rest|
          ensures key(s[0]) <= key(rest[i])
        {
          assert rest[i] in multiset(rest);
          assert rest[i] == x || rest[i] in multiset(s[1..]);
        }
      }
      [s[0]] + rest
  }

  /** Sorts `s` by ascending key; elements with equal keys keep their order. */
  function SortBy<T>(s: seq<T>, key: T -> int): (r: seq<T>)
    ensures SortedBy(r, key)
    ensures multiset(r) == multiset(s)
    ensures |r| == |s|
    decreases |s|
  {
    if |s| == 0 then []
    else
      assert s == [s[0]] + s[1..];
      Insert(s[0], SortBy(s[1..], key), key)
  }

  /** The elements whose key is `k`. */
  function WithKey<T>(key: T -> int, k: int): T -> bool {
    e => key(e) == k
  }

  /** `SortBy` is stable: the elements that share a key come out in the
      order they had in `s`. */
  lemma {:induction false} SortByStable<T>(s: seq<T>, key: T -> int, k: int)
    ensures Filter(SortBy(s, key), WithKey(key, k)) == Filter(s, WithKey(key, k))
    decreases |s|
  {
    if |s| > 0 {
      SortByStable(s[1..], key, k);
      InsertStable(s[0], SortBy(s[1..], key), key, k);
    }
  }

  /** Inserting `x` puts it after every element with a smaller key and
      before every element with the same key. */
  lemma {:induction false} InsertStable<T>(x: T, t: seq<T>, key: T -> int, k: int)
    requires SortedBy(t, key)
    ensures Filter(Insert(x, t, key), WithKey(key, k))
         == (if key(x) == k then [x] else []) + Filter(t, WithKey(key, k))
    decreases |t|
  {
    if |t| == 0 || key(x) <= key(t[0]) {
      assert ([x] + t)[1..] == t;
    } else {
      InsertStable(x, t[1..], key, k);
      assert ([t[0]] + Insert(x, t[1..], key))[1..] == Insert(x, t[1..], key);
    }
  }

  /** The first `k` elements of a sorted sequence are the `k` smallest: none
      of the remaining elements has a smaller key. */
  lemma SortedPrefixIsSmallest<T>(s: seq<T>, key: T -> int, k: nat)
    requires SortedBy(s, key) && k <= |s|
    ensures multiset(s[..k]) + multiset(s[k..]) == multiset(s)
    ensures forall i, y :: 0 <= i < k && y in multiset(s[k..]) ==> key(s[i]) <= key(y)
  {
    assert s == s[..k] + s[k..];
    forall i, y | 0 <= i < k && y in multiset(s[k..])
      ensures key(s[i]) <= key(y)
    {
      assert y in s[k..];
      var j :| 0 <= j < |s[k..]| && s[k..][j] == y;
      assert s[k + j] == y;
    }
  }

  /** The first `k` elements of the sorted sequence come from `s`. */
  lemma SortedTake<T>(s: seq<T>, key: T -> int, k: nat)
    requires k <= |s|
    ensures multiset(SortBy(s, key)[..k]) <= multiset(s)
    ensures forall i :: 0 <= i < k ==> SortBy(s, key)[i] in s
  {
    PermutationPrefix(SortBy(s, key), s, k);
  }

  /** A prefix of a permutation of `s` draws its elements from `s`. */
  lemma PermutationPrefix<T>(r: seq<T>, s: seq<T>, k: nat)
    requires multiset(r) == multiset(s) && k <= |r|
    ensures multiset(r[..k]) <= multiset(s)
    ensures forall i :: 0 <= i < k ==> r[i] in s
  {
    assert r == r[..k] + r[k..];
    assert multiset(r[..k]) + multiset(r[k..]) == multiset(s);
    forall i | 0 <= i < k ensures r[i] in s {
      assert r[i] in multiset(r);
    }
  }
}
