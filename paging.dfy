/**
 * Client-side pagination: `Math.ceil(n / per)` pages, and page `p` (counted
 * from 1) is `s.slice((p - 1) * per, p * per)`.  `slice` is modelled with
 * its negative-index rule, so a page number the interface never offers is
 * still given the meaning the code gives it; no page number is clamped.
 */
module Paging {
  import opened Seqs
  import opened Sorting

  /** What a page hands to the table: the filtered count, the page count and the rows of the current page. */
  datatype Listing<T> = Listing(totalItems: nat, totalPages: nat, rows: seq<T>)

  /** `Array.prototype.slice(start, end)`: a negative bound counts back from the end. */
  function JsSlice<T>(s: seq<T>, start: int, end: int): (r: seq<T>)
    ensures |r| <= |s|
  {
    var from := if start < 0 then (if |s| + start < 0 then 0 else |s| + start) else Min(start, |s|);
    var to := if end < 0 then (if |s| + end < 0 then 0 else |s| + end) else Min(end, |s|);
    if from < to then s[from..to] else []
  }

  /** `Math.ceil(n / per)` for a count `n` and a positive page size. */
  function CeilDiv(n: nat, per: nat): (k: nat)
    requires per > 0
    ensures k * per >= n
    ensures k > 0 ==> (k - 1) * per < n
  {
    (n + per - 1) / per
  }

  /** The `page`-th page of `s` with `per` elements per page. */
  function Page<T>(s: seq<T>, page: int, per: nat): seq<T> {
    JsSlice(s, (page - 1) * per, page * per)
  }

  /**
   * For a page number from 1 on, the page is exactly the elements at indices
   * `(page - 1) * per` up to `page * per` (or the end), so it holds at most
   * `per` of them.
   */
  lemma PageContents<T>(s: seq<T>, page: int, per: nat)
    requires page >= 1
    ensures (page - 1) * per <= page * per
    ensures Page(s, page, per) == s[Min((page - 1) * per, |s|)..Min(page * per, |s|)]
    ensures |Page(s, page, per)| <= per
  {
    assert page * per == (page - 1) * per + per;
  }

  /** A page past the last one is empty. */
  lemma PageBeyondLastIsEmpty<T>(s: seq<T>, page: int, per: nat)
    requires per > 0
    requires page > CeilDiv(|s|, per)
    ensures Page(s, page, per) == []
  {
    var k := CeilDiv(|s|, per);
    assert (page - 1) * per >= k * per by {
      assert page - 1 >= k;
      MulMono(k, page - 1, per);
    }
  }

  lemma MulMono(a: int, b: int, c: nat)
    requires a <= b
    ensures a * c <= b * c
  {
    assert b * c == a * c + (b - a) * c;
  }

  /** Pages 1 to `k` laid end to end. */
  function Pages<T>(s: seq<T>, k: nat, per: nat): seq<T> {
    if k == 0 then [] else Pages(s, k - 1, per) + Page(s, k, per)
  }

  /** Pages 1 to `k` are the first `k * per` elements. */
  lemma {:induction false} PagesArePrefix<T>(s: seq<T>, k: nat, per: nat)
    ensures Pages(s, k, per) == s[..Min(k * per, |s|)]
  {
    if k > 0 {
      PagesArePrefix(s, k - 1, per);
      PageContents(s, k, per);
      PrefixThenSlice(s, Min((k - 1) * per, |s|), Min(k * per, |s|));
    }
  }

  lemma PrefixThenSlice<T>(s: seq<T>, lo: nat, hi: nat)
    requires lo <= hi <= |s|
    ensures s[..lo] + s[lo..hi] == s[..hi]
  {
  }

  /** Together, pages 1 to `Math.ceil(|s| / per)` show every element once, in order. */
  lemma PagesCoverAll<T>(s: seq<T>, per: nat)
    requires per > 0
    ensures Pages(s, CeilDiv(|s|, per), per) == s
  {
    PagesArePrefix(s, CeilDiv(|s|, per), per);
  }

  /** Any page is a contiguous slice of the list it is cut from. */
  lemma PageBounds<T>(s: seq<T>, page: int, per: nat) returns (lo: nat, hi: nat)
    ensures lo <= hi <= |s|
    ensures Page(s, page, per) == s[lo..hi]
  {
    var start, end := (page - 1) * per, page * per;
    var from := if start < 0 then (if |s| + start < 0 then 0 else |s| + start) else Min(start, |s|);
    var to := if end < 0 then (if |s| + end < 0 then 0 else |s| + end) else Min(end, |s|);
    if from < to {
      lo, hi := from, to;
    } else {
      lo, hi := 0, 0;
    }
  }

  /** Every element of a page is an element of the list it was cut from. */
  lemma PageMembers<T>(s: seq<T>, page: int, per: nat)
    ensures forall x :: x in Page(s, page, per) ==> x in s
  {
    var lo, hi := PageBounds(s, page, per);
    forall x | x in Page(s, page, per) ensures x in s {
      var i :| 0 <= i < hi - lo && s[lo..hi][i] == x;
      assert s[lo + i] == x;
    }
  }

  /** A page of a sorted list is sorted. */
  lemma PageKeepsSorted<T>(s: seq<T>, key: T -> KeyValue, dir: Direction, page: int, per: nat)
    requires Sorted(s, key, dir)
    ensures Sorted(Page(s, page, per), key, dir)
  {
    var lo, hi := PageBounds(s, page, per);
    var r := Page(s, page, per);
    forall i, j | 0 <= i < j < |r| ensures InOrder(key(r[i]), key(r[j]), dir) {
      assert r[i] == s[lo + i] && r[j] == s[lo + j];
    }
  }

  /**
   * A page of a sorted reordering of `s`: at most `per` elements from page 1
   * on, nothing past the last page, only elements of `s`, and in order.
   */
  lemma PageOfSorted<T>(s: seq<T>, sorted: seq<T>, key: T -> KeyValue, dir: Direction, page: int, per: nat)
    requires per > 0
    requires multiset(sorted) == multiset(s)
    requires Sorted(sorted, key, dir)
    ensures |sorted| == |s|
    ensures page >= 1 ==> |Page(sorted, page, per)| <= per
    ensures page > CeilDiv(|sorted|, per) ==> Page(sorted, page, per) == []
    ensures forall x :: x in Page(sorted, page, per) ==> x in s
    ensures Sorted(Page(sorted, page, per), key, dir)
  {
    assert |sorted| == |multiset(sorted)| == |multiset(s)| == |s|;
    if page > CeilDiv(|sorted|, per) {
      PageBeyondLastIsEmpty(sorted, page, per);
    }
    if page >= 1 {
      PageContents(sorted, page, per);
    }
    PageMembers(sorted, page, per);
    forall x | x in sorted ensures x in s {
      assert x in multiset(sorted);
    }
    PageKeepsSorted(sorted, key, dir, page, per);
  }
}
