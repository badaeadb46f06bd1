/** Page arithmetic shared by the dashboard's tables: `Math.ceil(n / size)`
    page counts, `Array.prototype.slice` with JavaScript's index rules, the
    client-side page of a filtered list, the server-side row range a page
    asks for, and the clamps of the previous/next buttons. */
module Paging {
  import opened Seqs

  /** `k * d`, counted one `d` at a time so that page proofs stay linear;
      `TimesIsProduct` shows it is the product. */
  function Times(k: nat, d: nat): nat
  {
    if k == 0 then 0 else Times(k - 1, d) + d
  }

  lemma {:induction false} TimesIsProduct(k: nat, d: nat)
    ensures Times(k, d) == k * d
  {
    if k > 0 {
      TimesIsProduct(k - 1, d);
    }
  }

  lemma {:induction false} TimesMonotone(a: nat, b: nat, d: nat)
    requires a <= b
    ensures Times(a, d) <= Times(b, d)
    decreases b
  {
    if a < b {
      TimesMonotone(a, b - 1, d);
    }
  }

  /** `Math.ceil(n / d)` for a non-negative count and a positive size: the
      least `q` with `q * d >= n`. */
  function CeilDiv(n: nat, d: nat): (q: nat)
    requires d > 0
    ensures Times(q, d) >= n
    ensures q > 0 ==> Times(q - 1, d) < n
    ensures q == 0 <==> n == 0
    decreases n
  {
    if n == 0 then 0
    else if n <= d then 1
    else 1 + CeilDiv(n - d, d)
  }

  /** The two bounds of `CeilDiv` pin it down: no other count satisfies them. */
  lemma CeilDivUnique(n: nat, d: nat, q: nat)
    requires d > 0
    requires Times(q, d) >= n
    requires q > 0 ==> Times(q - 1, d) < n
    ensures q == CeilDiv(n, d)
  {
    var c := CeilDiv(n, d);
    if q < c {
      TimesMonotone(q, c - 1, d);
    } else if c < q {
      TimesMonotone(c, q - 1, d);
    }
  }

  /** How `slice` resolves one index against a length: negative indices
      count from the end, and everything is clipped into `[0, len]`. */
  function SliceIndex(i: int, len: nat): (r: nat)
    ensures r <= len
    ensures 0 <= i ==> r == Min(i, len)
    ensures i < 0 ==> r == Max(len + i, 0)
  {
    if i < 0 then (if len + i < 0 then 0 else len + i)
    else if i > len then len
    else i
  }

  /** `s.slice(start, end)`. */
  function JsSlice<T>(s: seq<T>, start: int, end: int): (r: seq<T>)
    ensures |r| <= |s|
    ensures 0 <= start && 0 <= end ==> |r| <= Max(end - start, 0)
    ensures 0 <= start <= end ==> r == s[Min(start, |s|)..Min(end, |s|)]
    ensures forall x :: x in r ==> x in s
  {
    var a := SliceIndex(start, |s|);
    var b := SliceIndex(end, |s|);
    if a < b then s[a..b] else []
  }

  /** The index of the first row of a page, `(page - 1) * size`. */
  function PageStart(page: nat, size: nat): int
  {
    if page == 0 then -(size as int) else Times(page - 1, size)
  }

  /** `PageStart` and `PageStart + size` are the slice bounds
      `(page - 1) * size` and `page * size` of the components. */
  lemma PageBounds(page: nat, size: nat)
    ensures PageStart(page, size) == (page - 1) * size
    ensures PageStart(page, size) + size == page * size
  {
    if page > 0 {
      TimesIsProduct(page - 1, size);
    }
  }

  /** `rows.slice((page - 1) * size, page * size)`: the client-side page.
      Pages are `nat`s: the pager never goes below 0 (see `NextPage`). */
  function Page<T>(s: seq<T>, page: nat, size: nat): (r: seq<T>)
    ensures |r| <= size
    ensures forall x :: x in r ==> x in s
    ensures 1 <= page ==> r == s[Min(Times(page - 1, size), |s|)..Min(Times(page, size), |s|)]
    ensures page == 0 ==> r == []
  {
    var start := PageStart(page, size);
    JsSlice(s, start, start + size)
  }

  /** A page is the slice `[(page - 1) * size, page * size)` of the rows,
      cut to the rows that exist. */
  lemma PageIsSlice<T>(s: seq<T>, page: nat, size: nat)
    requires page >= 1
    ensures Page(s, page, size) == s[Min((page - 1) * size, |s|)..Min(page * size, |s|)]
  {
    TimesIsProduct(page - 1, size);
    TimesIsProduct(page, size);
  }

  /** The pages `1..Math.ceil(|s| / size)` are exactly the non-empty ones. */
  lemma PageNonEmptyIff<T>(s: seq<T>, page: nat, size: nat)
    requires size > 0
    ensures Page(s, page, size) != [] <==> 1 <= page <= CeilDiv(|s|, size)
  {
    var n := CeilDiv(|s|, size);
    if 1 <= page {
      var lo := Times(page - 1, size);
      var hi := Times(page, size);
      assert hi == lo + size;
      assert Page(s, page, size) == s[Min(lo, |s|)..Min(hi, |s|)];
      if page <= n {
        TimesMonotone(page - 1, n - 1, size);
        assert lo < |s|;
        assert Min(lo, |s|) < Min(hi, |s|);
      } else {
        TimesMonotone(n, page - 1, size);
        assert |s| <= lo;
        assert Min(lo, |s|) == Min(hi, |s|);
      }
    }
  }

  /** `s` cut into consecutive chunks of `size` elements (the last one may
      be shorter). This is both the sequence of pages of a table and the
      batch plan of a bulk send. */
  function Chunks<T>(s: seq<T>, size: nat): (r: seq<seq<T>>)
    requires size > 0
    ensures |r| == CeilDiv(|s|, size)
    ensures forall k :: 0 <= k < |r| ==> 0 < |r[k]| <= size
    ensures Concat(r) == s
    decreases |s|
  {
    if |s| == 0 then []
    else if |s| <= size then
      assert Concat([s]) == s + Concat([s][1..]);
      [s]
    else
      var rest := Chunks(s[size..], size);
      assert s == s[..size] + s[size..];
      [s[..size]] + rest
  }

  /** The `k`-th chunk is the page `k + 1`: paging through a table visits
      every row once, in order. */
  lemma {:induction false} ChunkIsPage<T>(s: seq<T>, size: nat, k: nat)
    requires size > 0
    requires k < CeilDiv(|s|, size)
    ensures Chunks(s, size)[k] == Page(s, k + 1, size)
    decreases k
  {
    if k > 0 {
      assert |s| > size;
      var t := s[size..];
      assert Chunks(s, size) == [s[..size]] + Chunks(t, size);
      ChunkIsPage(t, size, k - 1);
      PageShift(s, size, k);
    }
  }

  /** Dropping the first page shifts every later page down by one. */
  lemma PageShift<T>(s: seq<T>, size: nat, k: nat)
    requires size <= |s| && k >= 1
    ensures Page(s, k + 1, size) == Page(s[size..], k, size)
  {
    var t := s[size..];
    var lo := Min(Times(k - 1, size), |t|);
    var hi := Min(Times(k, size), |t|);
    var a := Min(Times(k, size), |s|);
    var b := Min(Times(k + 1, size), |s|);
    assert Page(s, k + 1, size) == s[a..b] by {
      assert k + 1 - 1 == k;
    }
    assert a == size + lo && b == size + hi by {
      assert Times(k + 1, size) == Times(k, size) + size;
      assert Times(k, size) == Times(k - 1, size) + size;
    }
    SliceOfDrop(s, size, lo, hi);
  }

  /** A slice of the rows after the first `d` is a slice of the rows. */
  lemma SliceOfDrop<T>(s: seq<T>, d: nat, lo: nat, hi: nat)
    requires d <= |s| && lo <= hi <= |s| - d
    ensures s[d..][lo..hi] == s[d + lo..d + hi]
  {
    forall i | 0 <= i < hi - lo ensures s[d..][lo..hi][i] == s[d + lo..d + hi][i] {
      assert s[d..][lo..hi][i] == s[d..][lo + i] == s[d + lo + i];
    }
  }

  /** The next page, as the "next" button computes it:
      `Math.min(page + 1, totalPages)`. With no rows at all `totalPages` is 0
      and so is the page this yields. */
  function NextPage(page: nat, totalPages: nat): (r: nat)
    ensures r <= totalPages
    ensures page < totalPages ==> r == page + 1
    ensures page >= totalPages ==> r == totalPages
  {
    Min(page + 1, totalPages)
  }

  /** The previous page, as the "previous" button computes it:
      `Math.max(page - 1, 1)`. */
  function PrevPage(page: nat): (r: nat)
    ensures r >= 1
    ensures page > 1 ==> r == page - 1
    ensures page <= 1 ==> r == 1
  {
    Max(page - 1, 1)
  }

  /** Both buttons keep a page that is in `[1, totalPages]` in that range,
      and each undoes the other away from the ends. */
  lemma ButtonsStayInRange(page: nat, totalPages: nat)
    requires 1 <= page <= totalPages
    ensures 1 <= NextPage(page, totalPages) <= totalPages
    ensures 1 <= PrevPage(page) <= totalPages
    ensures page < totalPages ==> PrevPage(NextPage(page, totalPages)) == page
    ensures page > 1 ==> NextPage(PrevPage(page), totalPages) == page
  {
  }

  /** The inclusive row range `[from, to]` a server-side page requests:
      `.range((page - 1) * size, page * size - 1)`. */
  datatype Range = Range(from: int, to: int)

  function RangeFor(page: nat, size: nat): (r: Range)
    ensures r.to - r.from + 1 == size
  {
    Range((page - 1) * size, page * size - 1)
  }

  /** Consecutive pages request adjacent ranges: no row is skipped and
      none is fetched twice. */
  lemma RangesAdjacent(page: nat, size: nat)
    ensures RangeFor(page + 1, size).from == RangeFor(page, size).to + 1
  {
  }

  /** The rows a server returns for an inclusive range that starts at a
      valid index: those from `from` through `to`, as far as they exist. */
  function RangeRows<T>(s: seq<T>, r: Range): (rows: seq<T>)
    requires 0 <= r.from
    ensures |rows| <= Max(r.to - r.from + 1, 0)
    ensures |rows| > 0 ==> r.from + |rows| <= |s|
    ensures forall k :: 0 <= k < |rows| ==> rows[k] == s[r.from + k]
  {
    s[Min(r.from, |s|)..Min(Max(r.to + 1, r.from), |s|)]
  }

  /** A server-side range returns the same rows as the client-side page. */
  lemma RangeIsPage<T>(s: seq<T>, page: nat, size: nat)
    requires page >= 1
    ensures RangeFor(page, size).from >= 0
    ensures RangeRows(s, RangeFor(page, size)) == Page(s, page, size)
  {
    PageBounds(page, size);
  }

  /** The page change of a numbered pager: a target outside
      `[1, totalPages]` is ignored. */
  function ChangePage(current: nat, target: int, totalPages: nat): (r: nat)
    ensures 0 < target <= totalPages ==> r == target
    ensures !(0 < target <= totalPages) ==> r == current
  {
    if 0 < target <= totalPages then target else current
  }
}
