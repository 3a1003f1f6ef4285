/**
 * The array combinators the pages build their views from: `filter`, `reduce`
 * with `+` (a sum over the elements) and `slice(0, n)`.  Each is defined by
 * recursion on the last element, so that a fold over a prefix extends one
 * element at a time.
 */
module Seqs {

  /** `r` is `s` with some elements deleted and the rest kept in their order. */
  ghost predicate IsSubsequence<T>(r: seq<T>, s: seq<T>)
    decreases |s|
  {
    if s == [] then r == []
    else
      (r != [] && r[|r| - 1] == s[|s| - 1] && IsSubsequence(r[..|r| - 1], s[..|s| - 1]))
      || IsSubsequence(r, s[..|s| - 1])
  }

  /** `Array.prototype.filter`: the elements of `s` that satisfy `p`, in order. */
  function Filter<T(!new)>(s: seq<T>, p: T -> bool): (r: seq<T>)
    ensures |r| <= |s|
    ensures IsSubsequence(r, s)
    ensures forall i :: 0 <= i < |r| ==> p(r[i])
    ensures forall x :: p(x) ==> multiset(r)[x] == multiset(s)[x]
    ensures forall x :: x in r <==> x in s && p(x)
  {
    if s == [] then []
    else
      var init, last := s[..|s| - 1], s[|s| - 1];
      assert s == init + [last];
      var rest := Filter(init, p);
      if p(last) then
        assert (rest + [last])[..|rest|] == rest;
        rest + [last]
      else
        rest
  }

  /** Filtering a sequence extended by one element. */
  lemma FilterSnoc<T(!new)>(s: seq<T>, x: T, p: T -> bool)
    ensures Filter(s + [x], p) == Filter(s, p) + (if p(x) then [x] else [])
  {
    assert (s + [x])[..|s|] == s;
  }

  /** Filtering with two predicates that agree everywhere gives the same result. */
  lemma {:induction false} FilterExt<T(!new)>(s: seq<T>, p: T -> bool, q: T -> bool)
    requires forall x :: p(x) == q(x)
    ensures Filter(s, p) == Filter(s, q)
  {
    if s != [] {
      FilterExt(s[..|s| - 1], p, q);
    }
  }

  /** Two chained `filter` calls keep what the conjunction of their predicates keeps. */
  lemma {:induction false} FilterFilter<T(!new)>(s: seq<T>, p: T -> bool, q: T -> bool, pq: T -> bool)
    requires forall x :: pq(x) == (p(x) && q(x))
    ensures Filter(Filter(s, p), q) == Filter(s, pq)
  {
    if s != [] {
      var init, last := s[..|s| - 1], s[|s| - 1];
      FilterFilter(init, p, q, pq);
      var f := Filter(s, p);
      if p(last) {
        assert f[..|f| - 1] == Filter(init, p);
      } else {
        assert f == Filter(init, p);
      }
    }
  }

  /** A filter whose predicate holds of every element keeps the whole sequence. */
  lemma {:induction false} FilterKeepsAll<T(!new)>(s: seq<T>, p: T -> bool)
    requires forall i :: 0 <= i < |s| ==> p(s[i])
    ensures Filter(s, p) == s
  {
    if s != [] {
      var init, last := s[..|s| - 1], s[|s| - 1];
      assert s == init + [last];
      FilterKeepsAll(init, p);
      FilterSnoc(init, last, p);
    }
  }

  /** A filter whose predicate holds of no element keeps nothing. */
  lemma {:induction false} FilterKeepsNone<T(!new)>(s: seq<T>, p: T -> bool)
    requires forall i :: 0 <= i < |s| ==> !p(s[i])
    ensures Filter(s, p) == []
  {
    if s != [] {
      FilterKeepsNone(s[..|s| - 1], p);
    }
  }

  /** Filtering distributes over concatenation. */
  lemma {:induction false} FilterConcat<T(!new)>(a: seq<T>, b: seq<T>, p: T -> bool)
    ensures Filter(a + b, p) == Filter(a, p) + Filter(b, p)
    decreases |b|
  {
    if b == [] {
      assert a + b == a;
    } else {
      var init, last := b[..|b| - 1], b[|b| - 1];
      var t := if p(last) then [last] else [];
      calc {
        Filter(a + b, p);
        { assert b == init + [last]; assert a + b == (a + init) + [last]; }
        Filter((a + init) + [last], p);
        { FilterSnoc(a + init, last, p); }
        Filter(a + init, p) + t;
        { FilterConcat(a, init, p); }
        (Filter(a, p) + Filter(init, p)) + t;
        Filter(a, p) + (Filter(init, p) + t);
        { FilterSnoc(init, last, p); assert b == init + [last]; }
        Filter(a, p) + Filter(b, p);
      }
    }
  }

  /** A filter by a weaker predicate keeps everything a stronger one keeps, in the same order. */
  lemma {:induction false} FilterMonotone<T(!new)>(s: seq<T>, p: T -> bool, q: T -> bool)
    requires forall x :: p(x) ==> q(x)
    ensures IsSubsequence(Filter(s, p), Filter(s, q))
    ensures |Filter(s, p)| <= |Filter(s, q)|
  {
    if s != [] {
      var init, last := s[..|s| - 1], s[|s| - 1];
      FilterMonotone(init, p, q);
      var a, b := Filter(init, p), Filter(init, q);
      if p(last) {
        assert (a + [last])[..|a|] == a;
        assert (b + [last])[..|b|] == b;
      } else if q(last) {
        assert (b + [last])[..|b|] == b;
      }
    }
  }

  /** Filters by a predicate and by its negation split a sequence's length between them. */
  lemma {:induction false} FilterSplitLength<T(!new)>(s: seq<T>, p: T -> bool, q: T -> bool)
    requires forall x :: q(x) == !p(x)
    ensures |Filter(s, p)| + |Filter(s, q)| == |s|
  {
    if s != [] {
      FilterSplitLength(s[..|s| - 1], p, q);
    }
  }

  /** `s.reduce((sum, x) => sum + f(x), 0)`. */
  function SumOf<T>(s: seq<T>, f: T -> int): int {
    if s == [] then 0 else SumOf(s[..|s| - 1], f) + f(s[|s| - 1])
  }

  /** A sum of terms none of which is negative is not negative. */
  lemma {:induction false} SumOfNonNegative<T>(s: seq<T>, f: T -> int)
    ensures (forall i :: 0 <= i < |s| ==> f(s[i]) >= 0) ==> SumOf(s, f) >= 0
  {
    if s != [] {
      SumOfNonNegative(s[..|s| - 1], f);
    }
  }

  /** Summing a pointwise difference is taking the difference of the sums. */
  lemma {:induction false} SumOfDifference<T>(s: seq<T>, f: T -> int, g: T -> int, h: T -> int)
    requires forall x :: h(x) == f(x) - g(x)
    ensures SumOf(s, h) == SumOf(s, f) - SumOf(s, g)
  {
    if s != [] {
      SumOfDifference(s[..|s| - 1], f, g, h);
    }
  }

  /** Appending an element adds its term to the sum. */
  lemma SumOfSnoc<T>(s: seq<T>, x: T, f: T -> int)
    ensures SumOf(s + [x], f) == SumOf(s, f) + f(x)
  {
    assert (s + [x])[..|s|] == s;
  }

  /** The sum of a concatenation is the sum of the sums. */
  lemma {:induction false} SumOfConcat<T>(a: seq<T>, b: seq<T>, f: T -> int)
    ensures SumOf(a + b, f) == SumOf(a, f) + SumOf(b, f)
    decreases |b|
  {
    if b == [] {
      assert a + b == a;
    } else {
      assert (a + b)[..|a + b| - 1] == a + b[..|b| - 1];
      SumOfConcat(a, b[..|b| - 1], f);
    }
  }

  /** Replacing one element changes a sum by the difference of the two values. */
  lemma {:induction false} SumOfReplaced<T>(s: seq<T>, t: seq<T>, k: nat, f: T -> int)
    requires k < |s| == |t|
    requires forall i :: 0 <= i < |s| && i != k ==> t[i] == s[i]
    ensures SumOf(t, f) == SumOf(s, f) - f(s[k]) + f(t[k])
  {
    var n := |s| - 1;
    if k == n {
      assert t[..n] == s[..n];
    } else {
      assert t[n] == s[n];
      SumOfReplaced(s[..n], t[..n], k, f);
    }
  }

  /** Dropping the element at `k` takes its value off the sum. */
  lemma {:induction false} SumOfRemoved<T>(s: seq<T>, k: nat, f: T -> int)
    requires k < |s|
    ensures SumOf(s[..k] + s[k + 1..], f) == SumOf(s, f) - f(s[k])
  {
    var n := |s| - 1;
    var r := s[..k] + s[k + 1..];
    if k == n {
      assert r == s[..n];
    } else {
      var init := s[..n];
      assert r[..|r| - 1] == init[..k] + init[k + 1..];
      assert r[|r| - 1] == s[n];
      SumOfRemoved(init, k, f);
    }
  }

  /** Reordering a sequence does not change its sum. */
  lemma {:induction false} SumOfPermutation<T>(a: seq<T>, b: seq<T>, f: T -> int)
    requires multiset(a) == multiset(b)
    ensures SumOf(a, f) == SumOf(b, f)
    decreases |a|
  {
    if a != [] {
      var init, x := a[..|a| - 1], a[|a| - 1];
      assert a == init + [x];
      assert multiset(init) == multiset(a) - multiset{x};
      assert x in multiset(b);
      var j :| 0 <= j < |b| && b[j] == x;
      MultisetOfRemoved(b, j);
      SumOfPermutation(init, b[..j] + b[j + 1..], f);
      SumOfRemoved(b, j, f);
    }
  }

  /** Removing the element at `j` removes one copy of it from the multiset. */
  lemma MultisetOfRemoved<T>(b: seq<T>, j: nat)
    requires j < |b|
    ensures multiset(b[..j] + b[j + 1..]) == multiset(b) - multiset{b[j]}
  {
    assert b == b[..j] + [b[j]] + b[j + 1..];
  }

  /** The sums of the parts kept by `p` and by `q` make up the sum kept by `pq` when they partition it. */
  lemma {:induction false} SumOfFilterSplit<T(!new)>(s: seq<T>, f: T -> int, p: T -> bool, q: T -> bool, pq: T -> bool)
    requires forall x :: pq(x) == (p(x) || q(x))
    requires forall x :: !(p(x) && q(x))
    ensures SumOf(Filter(s, p), f) + SumOf(Filter(s, q), f) == SumOf(Filter(s, pq), f)
  {
    if s != [] {
      var init, last := s[..|s| - 1], s[|s| - 1];
      SumOfFilterSplit(init, f, p, q, pq);
      SumOfConcat(Filter(init, p), if p(last) then [last] else [], f);
      SumOfConcat(Filter(init, q), if q(last) then [last] else [], f);
      SumOfConcat(Filter(init, pq), if pq(last) then [last] else [], f);
      assert SumOf([last], f) == f(last) by { assert [last][..0] == []; }
    }
  }

  function Min(a: int, b: int): int {
    if a <= b then a else b
  }

  /** `s.slice(0, n)`. */
  function Take<T>(s: seq<T>, n: nat): (r: seq<T>)
    ensures |r| == Min(n, |s|)
    ensures r == s[..|r|]
  {
    s[..Min(n, |s|)]
  }

  /** No value occurs twice. */
  ghost predicate Distinct<K>(ks: seq<K>) {
    forall i, j :: 0 <= i < j < |ks| ==> ks[i] != ks[j]
  }

  /** The elements whose key is `k`. */
  function KeyIs<T, K(==)>(key: T -> K, k: K): T -> bool {
    x => key(x) == k
  }

  /** The elements whose key is one of `ks`. */
  function KeyIn<T, K(==)>(key: T -> K, ks: seq<K>): T -> bool {
    x => key(x) in ks
  }

  /** The keys of `s` in order of first occurrence, each once (the keys of an object built by a `reduce`). */
  function DistinctKeys<T, K(==)>(s: seq<T>, key: T -> K): (r: seq<K>)
    ensures Distinct(r)
    ensures forall i :: 0 <= i < |s| ==> key(s[i]) in r
  {
    if s == [] then []
    else
      var init := s[..|s| - 1];
      var ks := DistinctKeys(init, key);
      var k := key(s[|s| - 1]);
      assert forall i :: 0 <= i < |init| ==> s[i] == init[i];
      if k in ks then ks else ks + [k]
  }

  /** Every key listed is the key of some element. */
  lemma {:induction false} DistinctKeysOccur<T, K>(s: seq<T>, key: T -> K, k: K)
    requires k in DistinctKeys(s, key)
    ensures exists i :: 0 <= i < |s| && key(s[i]) == k
  {
    var init := s[..|s| - 1];
    if k in DistinctKeys(init, key) {
      DistinctKeysOccur(init, key, k);
      var i :| 0 <= i < |init| && key(init[i]) == k;
      assert s[i] == init[i];
    } else {
      assert key(s[|s| - 1]) == k;
    }
  }

  /** The sum of `f` over the elements of each key in `ks`, added up over the keys. */
  function GroupSum<T(!new), K(==)>(s: seq<T>, f: T -> int, key: T -> K, ks: seq<K>): int {
    if ks == [] then 0
    else GroupSum(s, f, key, ks[..|ks| - 1]) + SumOf(Filter(s, KeyIs(key, ks[|ks| - 1])), f)
  }

  /** Grouping by distinct keys neither loses nor double-counts: the group sums add up to the sum over those keys. */
  lemma {:induction false} GroupSumIsFilteredSum<T(!new), K>(s: seq<T>, f: T -> int, key: T -> K, ks: seq<K>)
    requires Distinct(ks)
    ensures GroupSum(s, f, key, ks) == SumOf(Filter(s, KeyIn(key, ks)), f)
  {
    if ks == [] {
      FilterKeepsNone(s, KeyIn(key, ks));
    } else {
      var init, last := ks[..|ks| - 1], ks[|ks| - 1];
      assert Distinct(init);
      GroupSumIsFilteredSum(s, f, key, init);
      assert last !in init;
      assert forall x :: KeyIn(key, ks)(x) == (KeyIn(key, init)(x) || KeyIs(key, last)(x)) by {
        assert ks == init + [last];
      }
      SumOfFilterSplit(s, f, KeyIn(key, init), KeyIs(key, last), KeyIn(key, ks));
    }
  }

  /** Grouping by the keys that occur gives the sum over the whole sequence. */
  lemma GroupSumOfAllKeys<T(!new), K>(s: seq<T>, f: T -> int, key: T -> K, ks: seq<K>)
    requires Distinct(ks)
    requires forall i :: 0 <= i < |s| ==> key(s[i]) in ks
    ensures GroupSum(s, f, key, ks) == SumOf(s, f)
  {
    GroupSumIsFilteredSum(s, f, key, ks);
    FilterKeepsAll(s, KeyIn(key, ks));
  }

  /** Summing a function that is zero outside `p` is summing over the elements that satisfy `p`. */
  lemma {:induction false} SumOfMasked<T(!new)>(s: seq<T>, f: T -> int, g: T -> int, p: T -> bool)
    requires forall x :: g(x) == (if p(x) then f(x) else 0)
    ensures SumOf(s, g) == SumOf(Filter(s, p), f)
  {
    if s != [] {
      var init, last := s[..|s| - 1], s[|s| - 1];
      SumOfMasked(init, f, g, p);
      if p(last) {
        var r := Filter(init, p);
        assert (r + [last])[..|r|] == r;
      }
    }
  }

  /** A sequence without repeats holds each value at most once. */
  lemma {:induction false} DistinctCount<T>(a: seq<T>)
    requires Distinct(a)
    ensures forall x :: multiset(a)[x] <= 1
  {
    if a != [] {
      var init, last := a[..|a| - 1], a[|a| - 1];
      assert a == init + [last];
      assert Distinct(init);
      DistinctCount(init);
      assert last !in init;
    }
  }

  /** Reordering a sequence without repeats gives one without repeats. */
  lemma DistinctPermutation<T>(a: seq<T>, b: seq<T>)
    requires Distinct(a)
    requires multiset(a) == multiset(b)
    ensures Distinct(b)
  {
    DistinctCount(a);
    forall i, j | 0 <= i < j < |b| ensures b[i] != b[j] {
      RepeatCount(b, i, j);
    }
  }

  /** A value at two positions occurs at least twice. */
  lemma RepeatCount<T>(b: seq<T>, i: nat, j: nat)
    requires i < j < |b|
    ensures b[i] == b[j] ==> multiset(b)[b[i]] >= 2
  {
    assert b == b[..i] + [b[i]] + b[i + 1..j] + [b[j]] + b[j + 1..];
  }
}
