/**
 * The pagination the candidate tables share: the page count
 * `Math.max(1, Math.ceil(n / size))`, the window
 * `list.slice((page - 1) * size, page * size)`, and the Prev and Next
 * handlers `Math.max(1, p - 1)` and `Math.min(pageCount, p + 1)`.
 */
module Paging {

  /** `Math.max(1, Math.ceil(n / size))`: the fewest pages of `size` that hold `n` items, and never zero. */
  function PageCount(n: nat, size: nat): (c: nat)
    requires size > 0
    ensures c >= 1
    ensures n <= c * size
    ensures c == 1 || (c - 1) * size < n
    decreases n
  {
    if n <= size then 1
    else
      var rest := PageCount(n - size, size);
      assert (rest + 1) * size == rest * size + size;
      rest + 1
  }

  /** How `Array.prototype.slice` reads an index: a negative one counts from the end; both are clamped to the length. */
  function SliceIndex(i: int, len: nat): (r: nat)
    ensures r <= len
  {
    if i < 0 then (if len + i < 0 then 0 else len + i)
    else if i > len then len
    else i
  }

  /** Clamping never widens a window (it may empty it: a negative start can land after a non-negative end). */
  lemma SliceIndexSpread(i: int, j: int, len: nat)
    ensures i <= j ==> SliceIndex(j, len) - SliceIndex(i, len) <= j - i
  {
  }

  /** `s.slice(start, end)`. */
  function JsSlice<T>(s: seq<T>, start: int, end: int): (r: seq<T>)
    ensures |r| <= |s|
    ensures start <= end ==> |r| <= end - start
    ensures 0 <= start <= end ==>
      SliceIndex(start, |s|) <= SliceIndex(end, |s|) && r == s[SliceIndex(start, |s|)..SliceIndex(end, |s|)]
    ensures forall x :: x in r ==> x in s
  {
    var from := SliceIndex(start, |s|);
    var to := SliceIndex(end, |s|);
    SliceIndexSpread(start, end, |s|);
    if from < to then s[from..to] else []
  }

  /** The items shown on `page`. */
  function PageItems<T>(s: seq<T>, page: int, size: nat): (r: seq<T>)
    requires size > 0
    ensures |r| <= size
    ensures forall x :: x in r ==> x in s
    ensures page >= 1 ==>
      var from := if (page - 1) * size < |s| then (page - 1) * size else |s|;
      var to := if page * size < |s| then page * size else |s|;
      0 <= from <= to && r == s[from..to]
  {
    var r := JsSlice(s, (page - 1) * size, page * size);
    PageItemsWindow(s, page, size, r);
    r
  }

  /** What `PageItems` promises, for the slice it takes. */
  lemma PageItemsWindow<T>(s: seq<T>, page: int, size: nat, r: seq<T>)
    requires size > 0 && r == JsSlice(s, (page - 1) * size, page * size)
    ensures |r| <= size
    ensures forall x :: x in r ==> x in s
    ensures page >= 1 ==>
      var from := if (page - 1) * size < |s| then (page - 1) * size else |s|;
      var to := if page * size < |s| then page * size else |s|;
      0 <= from <= to && r == s[from..to]
  {
    var start, end := (page - 1) * size, page * size;
    PageWindow(page, size, |s|);
    assert end - start == size;
    if page >= 1 {
      assert 0 <= start <= end;
      assert r == s[SliceIndex(start, |s|)..SliceIndex(end, |s|)];
    }
  }

  /** The window of `page` is `size` wide, and from page 1 on its bounds need no clamping from below. */
  lemma PageWindow(page: int, size: nat, len: nat)
    ensures page * size - (page - 1) * size == size
    ensures page >= 1 ==>
      && 0 <= (page - 1) * size
      && SliceIndex((page - 1) * size, len) == (if (page - 1) * size < len then (page - 1) * size else len)
      && SliceIndex(page * size, len) == (if page * size < len then page * size else len)
  {
    PageBounds(page, size);
  }

  /** The first `a` items followed by items `a` to `b` are the first `b` items. */
  lemma PrefixThenSlice<T>(s: seq<T>, a: nat, b: nat)
    requires a <= b <= |s|
    ensures s[..a] + s[a..b] == s[..b]
  {
  }

  /** Page `page` starts `size` items before it ends, and at or after 0 from page 1 on. */
  lemma PageBounds(page: int, size: nat)
    ensures page * size == (page - 1) * size + size
    ensures page >= 1 ==> (page - 1) * size >= 0
  {
    if page >= 1 {
      MulMonotone(0, page - 1, size);
    }
  }

  /** `Math.max(1, p - 1)`. */
  function Prev(p: int): (r: int)
    ensures r >= 1 && r >= p - 1
    ensures r == 1 || r == p - 1
  {
    if p - 1 > 1 then p - 1 else 1
  }

  /** `Math.min(pageCount, p + 1)`. */
  function Next(p: int, count: nat): (r: int)
    ensures r <= count && r <= p + 1
    ensures r == count || r == p + 1
  {
    if p + 1 < count then p + 1 else count
  }

  /** Both handlers keep a page that is in range in range, and move it by at most one. */
  lemma HandlersStayInRange(p: int, count: nat)
    requires 1 <= p <= count
    ensures 1 <= Prev(p) <= count && 1 <= Next(p, count) <= count
    ensures Prev(p) == (if p == 1 then 1 else p - 1)
    ensures Next(p, count) == (if p == count then count else p + 1)
  {
  }

  /** Next brings back a page that is past the end; Prev does not, unless the page is just past it. */
  lemma NextRecoversPastEnd(p: int, count: nat)
    requires count >= 1 && p > count
    ensures Next(p, count) == count
    ensures p > count + 1 ==> Prev(p) > count
  {
  }

  /** The items of pages 1 to `k`, in page order. */
  function PagesUpTo<T>(s: seq<T>, size: nat, k: nat): seq<T>
    requires size > 0
  {
    if k == 0 then [] else PagesUpTo(s, size, k - 1) + PageItems(s, k, size)
  }

  /** Pages 1 to `k` hold exactly the first `k * size` items. */
  lemma {:induction false} PagesUpToPrefix<T>(s: seq<T>, size: nat, k: nat)
    requires size > 0
    ensures PagesUpTo(s, size, k) == s[..if k * size < |s| then k * size else |s|]
  {
    if k > 0 {
      PagesUpToPrefix(s, size, k - 1);
      PageBounds(k, size);
      var a := if (k - 1) * size < |s| then (k - 1) * size else |s|;
      var b := if k * size < |s| then k * size else |s|;
      assert PageItems(s, k, size) == s[a..b];
      PrefixThenSlice(s, a, b);
    }
  }

  /** The pages partition the list: reading pages 1 to `pageCount` in order gives back every item once, in order. */
  lemma PagesPartition<T>(s: seq<T>, size: nat)
    requires size > 0
    ensures PagesUpTo(s, size, PageCount(|s|, size)) == s
  {
    PagesUpToPrefix(s, size, PageCount(|s|, size));
  }

  /** A page past the count is empty; every page up to the count is non-empty when the list is. */
  lemma PageEmptiness<T>(s: seq<T>, page: int, size: nat)
    requires size > 0
    ensures page > PageCount(|s|, size) ==> PageItems(s, page, size) == []
    ensures 1 <= page <= PageCount(|s|, size) && s != [] ==> PageItems(s, page, size) != []
  {
    var c := PageCount(|s|, size);
    if page > c {
      MulMonotone(c, page - 1, size);
      WindowFrom(s, page, size, |s|);
    } else if 1 <= page && s != [] {
      MulMonotone(page - 1, c - 1, size);
      assert (page - 1) * size < |s| by {
        if c > 1 {
          assert (c - 1) * size < |s|;
        }
      }
      WindowFrom(s, page, size, (page - 1) * size);
    }
  }

  /** The window of `page` starts at `from`, the clamped `(page - 1) * size`, and holds an item exactly when `from` is inside the list. */
  lemma WindowFrom<T>(s: seq<T>, page: int, size: nat, from: nat)
    requires size > 0 && page >= 1
    requires from == if (page - 1) * size < |s| then (page - 1) * size else |s|
    ensures PageItems(s, page, size) == [] <==> from == |s|
  {
    var a := (page - 1) * size;
    assert page * size == a + size;
  }

  lemma MulMonotone(a: int, b: int, size: nat)
    requires a <= b
    ensures a * size <= b * size
  {
    assert b * size == a * size + (b - a) * size;
  }
}
