/**
 * The client-side paginator every list page repeats: a fixed page size, the
 * visible slice `list.slice((page - 1) * size, page * size)`,
 * `totalPages = Math.ceil(length / size)`, and the Prev/Next moves.
 */
module Paging {

  /** `Math.ceil(n / size)`: the least page count whose pages hold `n` rows. */
  function TotalPages(n: nat, size: nat): (r: nat)
    requires size > 0
    ensures r * size >= n
    ensures r == 0 || (r - 1) * size < n
    ensures r == 0 <==> n == 0
  {
    var q := (n + size - 1) / size;
    assert q * size + (n + size - 1) % size == n + size - 1;
    assert q > 0 ==> (q - 1) * size == q * size - size;
    q
  }

  /** Index of the first row of `page` (1-based): `(page - 1) * size`. */
  function FirstIndex(page: int, size: nat): int {
    (page - 1) * size
  }

  /**
   * `list.slice(FirstIndex(page), page * size)` for `page >= 1`: the rows of
   * that page, or nothing once the page lies past the end.
   */
  function PageSlice<T>(list: seq<T>, page: int, size: nat): (r: seq<T>)
    requires page >= 1 && size > 0
    ensures |r| <= size
    ensures FirstIndex(page, size) < |list| ==> |r| == (if |list| - FirstIndex(page, size) < size then |list| - FirstIndex(page, size) else size)
    ensures FirstIndex(page, size) >= |list| ==> r == []
    ensures forall i :: 0 <= i < |r| ==> FirstIndex(page, size) + i < |list| && r[i] == list[FirstIndex(page, size) + i]
  {
    PageBounds(page, size);
    SliceFrom(list, FirstIndex(page, size), size)
  }

  /** `list.slice(first, first + size)` for a non-negative start. */
  function SliceFrom<T>(list: seq<T>, first: nat, size: nat): (r: seq<T>)
    ensures |r| <= size
    ensures first < |list| ==> |r| == (if |list| - first < size then |list| - first else size)
    ensures first >= |list| ==> r == []
    ensures forall i :: 0 <= i < |r| ==> first + i < |list| && r[i] == list[first + i]
  {
    if first >= |list| then []
    else if first + size <= |list| then list[first..first + size]
    else list[first..]
  }

  /** `page * size` ends the page that starts at `FirstIndex(page)`, which is not negative. */
  lemma PageBounds(page: int, size: nat)
    requires page >= 1
    ensures FirstIndex(page, size) >= 0
    ensures page * size == FirstIndex(page, size) + size
  {
    MulMonotone(0, page - 1, size);
  }

  /**
   * Row `i` of the visible page is the list element at the global index
   * `FirstIndex(page) + i` that the row handlers receive; the shown row
   * number is that index plus one.
   */
  lemma RowAddress<T>(list: seq<T>, page: int, size: nat, i: nat)
    requires page >= 1 && size > 0
    requires i < |PageSlice(list, page, size)|
    ensures 0 <= FirstIndex(page, size) + i < |list|
    ensures list[FirstIndex(page, size) + i] == PageSlice(list, page, size)[i]
  {
    assert FirstIndex(page, size) >= 0;
  }

  /** The first page holds `min(n, size)` rows. */
  lemma FirstPageSize<T>(list: seq<T>, size: nat)
    requires size > 0
    ensures |PageSlice(list, 1, size)| == if |list| < size then |list| else size
  {
  }

  /** The last page holds `n - size * (totalPages - 1)` rows, between 1 and `size`. */
  lemma LastPageSize<T>(list: seq<T>, size: nat)
    requires size > 0 && list != []
    ensures var t := TotalPages(|list|, size);
      t >= 1 && 1 <= |list| - size * (t - 1) <= size &&
      |PageSlice(list, t, size)| == |list| - size * (t - 1)
  {
    var t := TotalPages(|list|, size);
    assert (t - 1) * size == size * (t - 1);
    assert t * size == (t - 1) * size + size;
  }

  /** Pages 1..count laid end to end. */
  function PagesUpTo<T>(list: seq<T>, size: nat, count: nat): seq<T>
    requires size > 0
  {
    if count == 0 then [] else PagesUpTo(list, size, count - 1) + PageSlice(list, count, size)
  }

  /** The first `count` pages are the list's first `count * size` rows (or all of it). */
  lemma {:induction false} PagesUpToIsPrefix<T>(list: seq<T>, size: nat, count: nat)
    requires size > 0
    ensures PagesUpTo(list, size, count) == list[..if count * size < |list| then count * size else |list|]
  {
    if count > 0 {
      PagesUpToIsPrefix(list, size, count - 1);
      PageBounds(count, size);
      var first := FirstIndex(count, size);
      var lo := if first < |list| then first else |list|;
      var hi := if first + size < |list| then first + size else |list|;
      PageIsSlice(list, first, size, lo, hi);
      AppendSlice(list, lo, hi);
    }
  }

  /** A page starting at `first` is the slice between the clamped bounds. */
  lemma PageIsSlice<T>(list: seq<T>, first: nat, size: nat, lo: nat, hi: nat)
    requires lo == (if first < |list| then first else |list|)
    requires hi == (if first + size < |list| then first + size else |list|)
    ensures lo <= hi <= |list| && SliceFrom(list, first, size) == list[lo..hi]
  {
  }

  /** Extending a prefix by the slice that follows it. */
  lemma AppendSlice<T>(list: seq<T>, lo: nat, hi: nat)
    requires lo <= hi <= |list|
    ensures list[..lo] + list[lo..hi] == list[..hi]
  {
  }

  /**
   * Exhaustiveness: concatenating pages 1..totalPages gives back the list,
   * in order, with no row repeated or lost.
   */
  lemma PagesCoverList<T>(list: seq<T>, size: nat)
    requires size > 0
    ensures PagesUpTo(list, size, TotalPages(|list|, size)) == list
  {
    PagesUpToIsPrefix(list, size, TotalPages(|list|, size));
  }

  /** Every page from 1 to totalPages is non-empty; every page past it is empty. */
  lemma PageEmptyIffPastEnd<T>(list: seq<T>, page: int, size: nat)
    requires page >= 1 && size > 0
    ensures PageSlice(list, page, size) == [] <==> page > TotalPages(|list|, size)
  {
    var t := TotalPages(|list|, size);
    var first := FirstIndex(page, size);
    if page > t {
      MulMonotone(t, page - 1, size);
      assert first >= |list|;
    } else {
      MulMonotone(page - 1, t - 1, size);
      assert first < |list|;
      assert |PageSlice(list, page, size)| > 0;
    }
  }

  lemma MulMonotone(a: int, b: int, c: nat)
    requires a <= b
    ensures a * c <= b * c
  {
    assert b * c == a * c + (b - a) * c;
  }

  /** The Prev handler guarded by `currentPage > 1`. */
  function PrevPage(current: int): int {
    if current > 1 then current - 1 else current
  }

  /** The Next handler guarded by `currentPage < totalPages`. */
  function NextPage(current: int, total: int): int {
    if current < total then current + 1 else current
  }

  /** The Prev handler written as `Math.max(prev - 1, 1)`. */
  function ClampedPrev(current: int): int {
    if current - 1 > 1 then current - 1 else 1
  }

  /** The Next handler written as `Math.min(prev + 1, totalPages)`. */
  function ClampedNext(current: int, total: int): int {
    if current + 1 < total then current + 1 else total
  }

  /** A page number a page can show rows for. */
  predicate InRange(page: int, total: int) {
    1 <= page <= total
  }

  /**
   * Guarded moves: from a page in range they stay in range, move by exactly
   * one, and move exactly when the guard holds.
   */
  lemma GuardedMoves(current: int, total: int)
    requires InRange(current, total)
    ensures InRange(PrevPage(current), total) && InRange(NextPage(current, total), total)
    ensures PrevPage(current) != current <==> current > 1
    ensures PrevPage(current) != current ==> PrevPage(current) == current - 1
    ensures NextPage(current, total) != current <==> current < total
    ensures NextPage(current, total) != current ==> NextPage(current, total) == current + 1
  {
  }

  /** From a page in range the clamped moves behave as the guarded ones. */
  lemma ClampedAgreesWithGuarded(current: int, total: int)
    requires InRange(current, total)
    ensures ClampedPrev(current) == PrevPage(current)
    ensures ClampedNext(current, total) == NextPage(current, total)
  {
  }

  /**
   * The clamped Next lands in range from any page once there is a page:
   * from a stale page past the end it jumps back to the last page.
   */
  lemma ClampedNextRecovers(current: int, total: int)
    requires current >= 1 && total >= 1
    ensures InRange(ClampedNext(current, total), total)
  {
  }

  /** Moves never take a page below 1. */
  lemma MovesStayPositive(current: int, total: int)
    requires current >= 1
    ensures PrevPage(current) >= 1 && NextPage(current, total) >= 1 && ClampedPrev(current) >= 1
  {
  }

  /** The Next button's `disabled={currentPage === totalPages || totalPages === 0}`. */
  predicate NextDisabled(current: int, total: int) {
    current == total || total == 0
  }

  /**
   * On a page in range (or on page 1 of an empty list) the buttons are
   * disabled exactly when their guarded handler would leave the page as it is.
   */
  lemma DisabledMatchesGuard(current: int, total: nat)
    requires current == 1 || InRange(current, total)
    ensures (current == 1) <==> PrevPage(current) == current
    ensures NextDisabled(current, total) <==> NextPage(current, total) == current
  {
  }
}
