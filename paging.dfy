/**
 * Client-side pagination as both list pages do it: the page count is
 * `Math.ceil(length / pageSize)` and page `p` is
 * `list.slice((p - 1) * pageSize, (p - 1) * pageSize + pageSize)`.
 */
module Paging {

  /** `Math.ceil(n / size)` for a whole `n` and a positive `size`. */
  function CeilDiv(n: nat, size: nat): (r: nat)
    requires size > 0
    ensures r * size >= n
    ensures r == 0 || (r - 1) * size < n
  {
    (n + size - 1) / size
  }

  /** How `Array.prototype.slice` turns an index argument into a position: negative counts from the end. */
  function SliceIndex(len: nat, i: int): (r: nat)
    ensures r <= len
    ensures i >= 0 ==> r == if i < len then i else len
    ensures i < 0 ==> r == if len + i > 0 then len + i else 0
  {
    if i < 0 then (if len + i > 0 then len + i else 0)
    else if i < len then i else len
  }

  /** `s.slice(start, end)`. */
  function Slice<T>(s: seq<T>, start: int, end: int): (r: seq<T>)
    ensures |r| <= |s|
  {
    var lo := SliceIndex(|s|, start);
    var hi := SliceIndex(|s|, end);
    if hi <= lo then [] else s[lo..hi]
  }

  /** The rows shown on page `p`. */
  function Page<T>(s: seq<T>, p: int, size: nat): seq<T> {
    var start := (p - 1) * size;
    Slice(s, start, start + size)
  }

  function Min(a: nat, b: nat): nat {
    if a < b then a else b
  }

  /** A page numbered from 1 is the window `[(p - 1) * size, p * size)` cut to the list, never longer than a page. */
  lemma PageWindow<T>(s: seq<T>, p: int, size: nat)
    requires p >= 1
    ensures (p - 1) * size >= 0
    ensures Page(s, p, size) == s[Min((p - 1) * size, |s|)..Min(p * size, |s|)]
    ensures |Page(s, p, size)| <= size
  {
    assert (p - 1) * size + size == p * size;
  }

  /** Page 0, which the events list can reach when it has no pages, shows nothing. */
  lemma PageZero<T>(s: seq<T>, size: nat)
    ensures Page(s, 0, size) == []
  {
  }

  lemma MulMonotone(a: nat, b: nat, c: nat)
    requires a <= b
    ensures a * c <= b * c
  {
    assert b * c == a * c + (b - a) * c;
  }

  /** A page from 1 shows something exactly when its number is within the page count. */
  lemma PageNonEmptyIff<T>(s: seq<T>, p: int, size: nat)
    requires p >= 1 && size > 0
    ensures Page(s, p, size) != [] <==> p <= CeilDiv(|s|, size)
  {
    PageWindow(s, p, size);
    var n := CeilDiv(|s|, size);
    var start: nat := (p - 1) * size;
    assert p * size == start + size;
    assert Page(s, p, size) != [] <==> start < |s|;
    if p <= n {
      MulMonotone(p - 1, n - 1, size);
    } else {
      MulMonotone(n, p - 1, size);
    }
  }

  /** Pages `1..k` laid end to end. */
  function Pages<T>(s: seq<T>, k: nat, size: nat): seq<T> {
    if k == 0 then [] else Pages(s, k - 1, size) + Page(s, k, size)
  }

  /** The first `k` pages are the first `k * size` rows. */
  lemma {:induction false} PagesPrefix<T>(s: seq<T>, k: nat, size: nat)
    ensures Pages(s, k, size) == s[..Min(k * size, |s|)]
  {
    if k > 0 {
      PagesPrefix(s, k - 1, size);
      PageWindow(s, k, size);
      assert (k - 1) * size + size == k * size;
      var a := Min((k - 1) * size, |s|);
      var b := Min(k * size, |s|);
      assert s[..a] + s[a..b] == s[..b];
    }
  }

  /** All the pages the count promises show every row once, in order. */
  lemma PagesCoverAll<T>(s: seq<T>, size: nat)
    requires size > 0
    ensures Pages(s, CeilDiv(|s|, size), size) == s
  {
    PagesPrefix(s, CeilDiv(|s|, size), size);
  }
}
