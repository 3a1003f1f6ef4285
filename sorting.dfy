/**
 * Sorting a copy of an array by one column, as the pages do with
 * `[...xs].sort(comparator)`.  A comparator that answers "less", "greater" or
 * "equal" from one column's value in one direction is consistent, and
 * `Array.prototype.sort` is stable, so the result is the stable sort by that
 * column: an insertion sort that places each element after every element it
 * does not strictly precede.
 */
module Sorting {
  import opened Seqs

  datatype Direction = Asc | Desc

  /** A sort request: which column, and in which direction. */
  datatype SortConfig<K> = SortConfig(key: K, direction: Direction)

  /** A column value as the comparators compare it: numbers numerically, text by character code. */
  datatype KeyValue = Num(n: int) | Text(s: string)

  /** Lexicographic order on strings; a proper prefix comes first. */
  predicate TextLe(a: string, b: string)
    decreases |a|
  {
    a == [] || (b != [] && (a[0] < b[0] || (a[0] == b[0] && TextLe(a[1..], b[1..]))))
  }

  /** The order on column values; a column holds values of one kind only, so the mixed case is arbitrary. */
  predicate KeyLe(a: KeyValue, b: KeyValue) {
    match a
    case Num(x) => b.Text? || x <= b.n
    case Text(x) => b.Text? && TextLe(x, b.s)
  }

  /** `a` may come before `b` in a list sorted in direction `dir`. */
  predicate InOrder(a: KeyValue, b: KeyValue, dir: Direction) {
    if dir == Asc then KeyLe(a, b) else KeyLe(b, a)
  }

  lemma {:induction false} TextLeTotal(a: string, b: string)
    ensures TextLe(a, b) || TextLe(b, a)
    decreases |a|
  {
    if a != [] && b != [] && a[0] == b[0] {
      TextLeTotal(a[1..], b[1..]);
    }
  }

  lemma {:induction false} TextLeTrans(a: string, b: string, c: string)
    requires TextLe(a, b) && TextLe(b, c)
    ensures TextLe(a, c)
    decreases |a|
  {
    if a != [] && a[0] == b[0] && b[0] == c[0] {
      TextLeTrans(a[1..], b[1..], c[1..]);
    }
  }

  lemma InOrderTotal(a: KeyValue, b: KeyValue, dir: Direction)
    ensures InOrder(a, b, dir) || InOrder(b, a, dir)
  {
    if a.Text? && b.Text? {
      TextLeTotal(a.s, b.s);
    }
  }

  lemma InOrderTrans(a: KeyValue, b: KeyValue, c: KeyValue, dir: Direction)
    requires InOrder(a, b, dir) && InOrder(b, c, dir)
    ensures InOrder(a, c, dir)
  {
    if a.Text? && b.Text? && c.Text? {
      if dir == Asc {
        TextLeTrans(a.s, b.s, c.s);
      } else {
        TextLeTrans(c.s, b.s, a.s);
      }
    }
  }

  /** Every earlier element may come before every later one. */
  ghost predicate Sorted<T>(s: seq<T>, key: T -> KeyValue, dir: Direction) {
    forall i, j :: 0 <= i < j < |s| ==> InOrder(key(s[i]), key(s[j]), dir)
  }

  /** Puts `x` before the first element of the sorted `s` that it may precede. */
  function Insert<T>(x: T, s: seq<T>, key: T -> KeyValue, dir: Direction): (r: seq<T>)
    requires Sorted(s, key, dir)
    ensures |r| == |s| + 1
    ensures multiset(r) == multiset(s) + multiset{x}
    ensures Sorted(r, key, dir)
    decreases |s|
  {
    if s == [] then [x]
    else if InOrder(key(x), key(s[0]), dir) then
      InsertAtFront(x, s, key, dir);
      [x] + s
    else
      var rest := Insert(x, s[1..], key, dir);
      assert s == [s[0]] + s[1..];
      InsertBehind(x, s, rest, key, dir);
      [s[0]] + rest
  }

  lemma InsertAtFront<T>(x: T, s: seq<T>, key: T -> KeyValue, dir: Direction)
    requires Sorted(s, key, dir) && s != []
    requires InOrder(key(x), key(s[0]), dir)
    ensures Sorted([x] + s, key, dir)
  {
    var r := [x] + s;
    forall i, j | 0 <= i < j < |r|
      ensures InOrder(key(r[i]), key(r[j]), dir)
    {
      if i == 0 && j > 1 {
        InOrderTrans(key(x), key(s[0]), key(s[j - 1]), dir);
      }
    }
  }

  lemma InsertBehind<T>(x: T, s: seq<T>, rest: seq<T>, key: T -> KeyValue, dir: Direction)
    requires Sorted(s, key, dir) && s != []
    requires !InOrder(key(x), key(s[0]), dir)
    requires Sorted(rest, key, dir)
    requires multiset(rest) == multiset(s[1..]) + multiset{x}
    ensures Sorted([s[0]] + rest, key, dir)
  {
    var r := [s[0]] + rest;
    InOrderTotal(key(x), key(s[0]), dir);
    forall j | 0 <= j < |rest|
      ensures InOrder(key(s[0]), key(rest[j]), dir)
    {
      assert rest[j] in multiset(rest);
      if rest[j] != x {
        assert rest[j] in multiset(s[1..]);
        var k :| 0 <= k < |s[1..]| && s[1..][k] == rest[j];
        assert s[k + 1] == rest[j];
      }
    }
    forall i, j | 0 <= i < j < |r|
      ensures InOrder(key(r[i]), key(r[j]), dir)
    {
      if i > 0 {
        assert r[i] == rest[i - 1] && r[j] == rest[j - 1];
      } else {
        assert r[j] == rest[j - 1];
      }
    }
  }

  /** The stable sort of `s` by `key` in direction `dir`. */
  function Sort<T>(s: seq<T>, key: T -> KeyValue, dir: Direction): (r: seq<T>)
    ensures |r| == |s|
    ensures multiset(r) == multiset(s)
    ensures Sorted(r, key, dir)
    decreases |s|
  {
    if s == [] then []
    else
      assert s == [s[0]] + s[1..];
      Insert(s[0], Sort(s[1..], key, dir), key, dir)
  }

  /**
   * `[...s].sort(...).slice(0, n)`: the first `n` elements in sort order.  An
   * element is left out only when the list is full, and none of those left
   * out comes before the last one kept.
   */
  function Top<T>(s: seq<T>, key: T -> KeyValue, dir: Direction, n: nat): (r: seq<T>)
    ensures |r| == Min(n, |s|)
    ensures Sorted(r, key, dir)
    ensures multiset(r) <= multiset(s)
    ensures forall x :: x in multiset(s) - multiset(r) ==>
              |r| == n && (n > 0 ==> InOrder(key(r[n - 1]), key(x), dir))
  {
    var t := Sort(s, key, dir);
    var r := Take(t, n);
    TopOmitted(t, r, key, dir, n);
    r
  }

  lemma TopOmitted<T>(t: seq<T>, r: seq<T>, key: T -> KeyValue, dir: Direction, n: nat)
    requires Sorted(t, key, dir)
    requires r == Take(t, n)
    ensures multiset(r) <= multiset(t)
    ensures forall x :: x in multiset(t) - multiset(r) ==>
              |r| == n && (n > 0 ==> InOrder(key(r[n - 1]), key(x), dir))
  {
    var m := |r|;
    assert t == r + t[m..];
    assert multiset(t) == multiset(r) + multiset(t[m..]);
    forall x | x in multiset(t) - multiset(r)
      ensures |r| == n && (n > 0 ==> InOrder(key(r[n - 1]), key(x), dir))
    {
      assert x in multiset(t[m..]);
      var k :| 0 <= k < |t[m..]| && t[m..][k] == x;
      assert t[m + k] == x;
    }
  }
}
