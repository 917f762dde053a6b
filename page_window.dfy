/**
 * The compressed page-number bar of the Staff and Notifications pages: the
 * page numbers {1, last, current - 1, current, current + 1} (those in range),
 * sorted, with an ellipsis wherever two neighbouring numbers are more than
 * one apart.
 */
module PageWindow {

  /** One control of the bar: an ellipsis (keyed by the page after it) or a page button. */
  datatype PageItem = Ellipsis(before: int) | Item(page: int, active: bool)

  /** The rendered bar: Prev, the page items, Next, with the two disabled flags. */
  datatype Controls = Controls(prevDisabled: bool, items: seq<PageItem>, nextDisabled: bool)

  predicate Distinct(s: seq<int>) {
    forall i, j :: 0 <= i < j < |s| ==> s[i] != s[j]
  }

  predicate Sorted(s: seq<int>) {
    forall i, j :: 0 <= i < j < |s| ==> s[i] <= s[j]
  }

  predicate StrictlyIncreasing(s: seq<int>) {
    forall i, j :: 0 <= i < j < |s| ==> s[i] < s[j]
  }

  /**
   * `pageSet.add(x)` on a JavaScript Set, which remembers insertion order:
   * the set is held as its sequence of distinct members.
   */
  function AddToSet(s: seq<int>, x: int): (r: seq<int>)
    ensures Distinct(s) ==> Distinct(r)
    ensures forall y :: y in r <==> y in s || y == x
    ensures |r| <= |s| + 1
  {
    if x in s then s else s + [x]
  }

  /** Inserts `x` into a sorted sequence. */
  function Insert(x: int, s: seq<int>): (r: seq<int>)
    ensures |r| == |s| + 1
    ensures forall y :: y in r <==> y == x || y in s
  {
    if s == [] || x <= s[0] then [x] + s
    else [s[0]] + Insert(x, s[1..])
  }

  /** Insertion keeps a sorted sequence sorted. */
  lemma {:induction false} InsertSorted(x: int, s: seq<int>)
    requires Sorted(s)
    ensures Sorted(Insert(x, s))
  {
    if s != [] && x > s[0] {
      var rest := Insert(x, s[1..]);
      InsertSorted(x, s[1..]);
      forall j | 0 <= j < |rest|
        ensures s[0] <= rest[j]
      {
        assert rest[j] in rest;
      }
      ConsSorted(s[0], rest);
    }
  }

  /** Insertion keeps a strictly increasing sequence strict when `x` is new. */
  lemma {:induction false} InsertStrict(x: int, s: seq<int>)
    requires StrictlyIncreasing(s) && x !in s
    ensures StrictlyIncreasing(Insert(x, s))
  {
    if s != [] && x > s[0] {
      var rest := Insert(x, s[1..]);
      assert x !in s[1..];
      InsertStrict(x, s[1..]);
      forall j | 0 <= j < |rest|
        ensures s[0] < rest[j]
      {
        assert rest[j] in rest;
      }
      ConsStrict(s[0], rest);
    }
  }

  /** A head no greater than a sorted tail gives a sorted sequence. */
  lemma ConsSorted(a: int, rest: seq<int>)
    requires Sorted(rest)
    requires forall j :: 0 <= j < |rest| ==> a <= rest[j]
    ensures Sorted([a] + rest)
  {
    var r := [a] + rest;
    forall i, j | 0 <= i < j < |r|
      ensures r[i] <= r[j]
    {
      assert r[j] == rest[j - 1];
      if i > 0 {
        assert r[i] == rest[i - 1];
      }
    }
  }

  /** A head below a strictly increasing tail gives a strictly increasing sequence. */
  lemma ConsStrict(a: int, rest: seq<int>)
    requires StrictlyIncreasing(rest)
    requires forall j :: 0 <= j < |rest| ==> a < rest[j]
    ensures StrictlyIncreasing([a] + rest)
  {
    var r := [a] + rest;
    forall i, j | 0 <= i < j < |r|
      ensures r[i] < r[j]
    {
      assert r[j] == rest[j - 1];
      if i > 0 {
        assert r[i] == rest[i - 1];
      }
    }
  }

  /** Insertion adds exactly one occurrence of `x`. */
  lemma {:induction false} InsertPermutes(x: int, s: seq<int>)
    ensures multiset(Insert(x, s)) == multiset(s) + multiset{x}
  {
    if s != [] && x > s[0] {
      InsertPermutes(x, s[1..]);
      assert s == [s[0]] + s[1..];
    }
  }

  /** `Array.from(pageSet).sort((a, b) => a - b)`: a numeric ascending sort. */
  function SortAscending(s: seq<int>): (r: seq<int>)
    ensures |r| == |s|
    ensures forall y :: y in r <==> y in s
    ensures Sorted(r)
    ensures Distinct(s) ==> StrictlyIncreasing(r)
  {
    if s == [] then []
    else
      var rest := SortAscending(s[1..]);
      assert forall y :: y in s <==> y == s[0] || y in s[1..];
      InsertSorted(s[0], rest);
      assert Distinct(s) ==> StrictlyIncreasing(Insert(s[0], rest)) by {
        if Distinct(s) {
          assert Distinct(s[1..]);
          assert s[0] !in s[1..];
          InsertStrict(s[0], rest);
        }
      }
      Insert(s[0], rest)
  }

  /** The sort is a permutation of its input. */
  lemma {:induction false} SortPermutes(s: seq<int>)
    ensures multiset(SortAscending(s)) == multiset(s)
  {
    if s != [] {
      SortPermutes(s[1..]);
      InsertPermutes(s[0], SortAscending(s[1..]));
      assert s == [s[0]] + s[1..];
    }
  }

  /** The page numbers the bar must show for `current` out of `total` pages. */
  ghost function WindowSet(current: int, total: int): set<int> {
    {1, current}
    + (if total > 1 then {total} else {})
    + (if current > 1 then {current - 1} else {})
    + (if current < total then {current + 1} else {})
  }

  /** The page shown before position `j` (0 before the first, as `lastPage` starts at 0). */
  function Before(pages: seq<int>, j: int): int
    requires 0 <= j < |pages|
  {
    if j == 0 then 0 else pages[j - 1]
  }

  /** The items pushed for one page: an ellipsis on a gap, then its button. */
  function Step(page: int, last: int, current: int): seq<PageItem> {
    (if page - last > 1 then [Ellipsis(page)] else []) + [Item(page, page == current)]
  }

  /** The items pushed for a run of sorted page numbers, left to right. */
  function Layout(pages: seq<int>, current: int): seq<PageItem>
    decreases |pages|
  {
    if pages == [] then []
    else
      var n := |pages| - 1;
      Layout(pages[..n], current) + Step(pages[n], Before(pages, n), current)
  }

  /** The page numbers of the buttons among `items`, in order. */
  function ItemPages(items: seq<PageItem>): seq<int>
    decreases |items|
  {
    if items == [] then []
    else
      var n := |items| - 1;
      ItemPages(items[..n]) + (if items[n].Item? then [items[n].page] else [])
  }

  lemma ItemPagesAppend(a: seq<PageItem>, b: seq<PageItem>)
    ensures ItemPages(a + b) == ItemPages(a) + ItemPages(b)
    decreases |b|
  {
    if b != [] {
      var n := |b| - 1;
      assert (a + b)[..|a + b| - 1] == a + b[..n];
      ItemPagesAppend(a, b[..n]);
    } else {
      assert a + b == a;
    }
  }

  /** The buttons of a layout are exactly the pages it was built from, in order. */
  lemma {:induction false} LayoutPages(pages: seq<int>, current: int)
    ensures ItemPages(Layout(pages, current)) == pages
    decreases |pages|
  {
    if pages != [] {
      var n := |pages| - 1;
      var step := Step(pages[n], Before(pages, n), current);
      LayoutPages(pages[..n], current);
      ItemPagesAppend(Layout(pages[..n], current), step);
      if pages[n] - Before(pages, n) > 1 {
        assert step[..1] == [Ellipsis(pages[n])];
        assert ItemPages(step[..1]) == [];
      } else {
        assert step[..0] == [];
      }
      assert pages == pages[..n] + [pages[n]];
    }
  }

  /** A button carries the active flag exactly for the current page. */
  lemma {:induction false} LayoutActive(pages: seq<int>, current: int)
    ensures forall p, a :: Item(p, a) in Layout(pages, current) <==> p in pages && a == (p == current)
    decreases |pages|
  {
    if pages != [] {
      var n := |pages| - 1;
      LayoutActive(pages[..n], current);
      assert pages == pages[..n] + [pages[n]];
    }
  }

  /**
   * An ellipsis comes before a shown page exactly when that page exceeds the
   * previously shown one (0 for the first) by more than one; no other
   * ellipsis appears.
   */
  lemma {:induction false} LayoutEllipsis(pages: seq<int>, current: int)
    requires StrictlyIncreasing(pages)
    ensures forall p :: Ellipsis(p) in Layout(pages, current) ==> p in pages
    ensures forall j :: 0 <= j < |pages| ==>
      (Ellipsis(pages[j]) in Layout(pages, current) <==> pages[j] - Before(pages, j) > 1)
    decreases |pages|
  {
    if pages != [] {
      var n := |pages| - 1;
      var prefix := pages[..n];
      var last := pages[n];
      var earlier := Layout(prefix, current);
      var step := Step(last, Before(pages, n), current);
      LayoutEllipsis(prefix, current);
      assert Layout(pages, current) == earlier + step;
      forall j | 0 <= j < n
        ensures pages[j] == prefix[j] && pages[j] < last && Before(pages, j) == Before(prefix, j)
      {
      }
      forall p | Ellipsis(p) in Layout(pages, current)
        ensures p in pages
      {
        StepEllipsis(last, Before(pages, n), current, p);
        if Ellipsis(p) in earlier {
          var j :| 0 <= j < n && prefix[j] == p;
          assert pages[j] == p;
        } else {
          assert pages[n] == p;
        }
      }
      forall j | 0 <= j < |pages|
        ensures Ellipsis(pages[j]) in Layout(pages, current) <==> pages[j] - Before(pages, j) > 1
      {
        StepEllipsis(last, Before(pages, n), current, pages[j]);
        if j < n {
          assert Ellipsis(pages[j]) in earlier <==> prefix[j] - Before(prefix, j) > 1;
        } else {
          assert last !in prefix;
        }
      }
    }
  }

  /** One step holds an ellipsis only before its own page, and only on a gap. */
  lemma StepEllipsis(page: int, last: int, current: int, p: int)
    ensures Ellipsis(p) in Step(page, last, current) <==> p == page && page - last > 1
  {
  }

  /**
   * `renderPagination`'s body: fill the page set, sort it, then lay the
   * sorted pages out as buttons and ellipses.
   */
  method RenderItems(current: int, total: int) returns (items: seq<PageItem>)
    ensures StrictlyIncreasing(ItemPages(items))
    ensures forall p :: p in ItemPages(items) <==> p in WindowSet(current, total)
    ensures |ItemPages(items)| <= 5
    ensures items == Layout(ItemPages(items), current)
  {
    var pageSet := FillPageSet(current, total);
    var sortedPages := SortAscending(pageSet);
    items := PushPageItems(sortedPages, current);
    LayoutPages(sortedPages, current);
  }

  /**
   * The page set in insertion order: 1, the last page when there is more
   * than one, the previous page, the current page and the next page.
   */
  method FillPageSet(current: int, total: int) returns (pageSet: seq<int>)
    ensures Distinct(pageSet) && |pageSet| <= 5
    ensures forall p :: p in pageSet <==> p in WindowSet(current, total)
  {
    pageSet := [];
    ghost var shown: set<int> := {};
    pageSet, shown := AddShown(pageSet, shown, 1);
    if total > 1 {
      pageSet, shown := AddShown(pageSet, shown, total);
    }
    if current > 1 {
      pageSet, shown := AddShown(pageSet, shown, current - 1);
    }
    pageSet, shown := AddShown(pageSet, shown, current);
    if current < total {
      pageSet, shown := AddShown(pageSet, shown, current + 1);
    }
    assert shown == WindowSet(current, total);
  }

  /** One `pageSet.add(x)`, with the set of members it stands for. */
  method AddShown(s: seq<int>, ghost shown: set<int>, x: int) returns (r: seq<int>, ghost now: set<int>)
    requires Distinct(s) && forall p :: p in s <==> p in shown
    ensures Distinct(r) && |r| <= |s| + 1
    ensures now == shown + {x} && forall p :: p in r <==> p in now
  {
    r := AddToSet(s, x);
    now := shown + {x};
  }

  /**
   * The `sortedPages.forEach` walk: push an ellipsis before every gap and a
   * button for every page, with `lastPage` remembering the page pushed last.
   */
  method PushPageItems(sortedPages: seq<int>, current: int) returns (items: seq<PageItem>)
    ensures items == Layout(sortedPages, current)
  {
    items := [];
    var lastPage := 0;
    var i := 0;
    while i < |sortedPages|
      invariant 0 <= i <= |sortedPages|
      invariant items == Layout(sortedPages[..i], current)
      invariant lastPage == if i == 0 then 0 else sortedPages[i - 1]
    {
      var page := sortedPages[i];
      assert sortedPages[..i + 1][..i] == sortedPages[..i];
      if page - lastPage > 1 {
        items := items + [Ellipsis(page)];
      }
      items := items + [Item(page, page == current)];
      lastPage := page;
      i := i + 1;
    }
    assert sortedPages[..i] == sortedPages;
  }

  /** For a page in range every shown number lies in [1, total]. */
  lemma WindowInRange(current: int, total: int)
    requires 1 <= current <= total
    ensures forall p :: p in WindowSet(current, total) ==> 1 <= p <= total
  {
  }

  /**
   * For a page in range the bar shows 1, the last page, the current page and
   * its in-range neighbours, and nothing else.
   */
  lemma WindowMembers(current: int, total: int, p: int)
    requires 1 <= current <= total
    ensures p in WindowSet(current, total) <==>
      p == 1 || p == total || p == current ||
      (p == current - 1 && p >= 1) || (p == current + 1 && p <= total)
  {
  }

  /**
   * With the current page at 1 or beyond, the first shown page is 1, so the
   * bar never opens with an ellipsis.
   */
  lemma NoLeadingEllipsis(current: int, total: int, pages: seq<int>)
    requires current >= 1
    requires StrictlyIncreasing(pages)
    requires forall p :: p in pages <==> p in WindowSet(current, total)
    ensures |pages| > 0 && pages[0] == 1
    ensures Ellipsis(1) !in Layout(pages, current)
  {
    assert 1 in WindowSet(current, total);
    var k :| 0 <= k < |pages| && pages[k] == 1;
    WindowAtLeastOne(current, total, pages[0]);
    assert pages[0] == 1;
    LayoutEllipsis(pages, current);
    assert Before(pages, 0) == 0;
  }

  /** The page set never holds a number below 1 while the current page is at least 1. */
  lemma WindowAtLeastOne(current: int, total: int, p: int)
    requires current >= 1 && p in WindowSet(current, total)
    ensures p >= 1
  {
  }

  /** With three pages or fewer and the current page in range, every page is shown. */
  lemma SmallTotalsShowEveryPage(current: int, total: int, p: int)
    requires 1 <= current <= total <= 3
    ensures p in WindowSet(current, total) <==> 1 <= p <= total
  {
  }
}
