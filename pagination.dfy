/**
 * The infinite-scroll cursor shared by both shop scripts: page `p` of a list
 * of items is the window `[p * ItemsPerPage, p * ItemsPerPage + ItemsPerPage)`
 * of it, and each render advances the cursor by one page.
 */
module Pagination {
  import opened JsArray

  /** `const itemsPerPage = 6` in both scripts. */
  const ItemsPerPage: nat := 6

  /** Index where page `page` starts, clipped to a list of `n` items. */
  function PageStart(page: nat, n: nat): nat
  {
    Min(page * ItemsPerPage, n)
  }

  /** The items one render of page `page` emits: `items.slice(start, start + 6)`. */
  function Page<T>(items: seq<T>, page: nat): seq<T>
  {
    Slice(items, page * ItemsPerPage, page * ItemsPerPage + ItemsPerPage)
  }

  /** Everything emitted by the renders of pages `0 .. pages - 1`, in emission order. */
  function Emitted<T>(items: seq<T>, pages: nat): seq<T>
  {
    if pages == 0 then [] else Emitted(items, pages - 1) + Page(items, pages - 1)
  }

  /** Number of renders needed to reach the end: the ceiling of `n / ItemsPerPage`. */
  function NumPages(n: nat): nat
  {
    (n + ItemsPerPage - 1) / ItemsPerPage
  }

  /**
   * A page is exactly the window between its own start and the next page's
   * start; it is empty once the start reaches the end of the list (an empty
   * or failed menu included) and never fails.
   */
  lemma PageWindow<T>(items: seq<T>, page: nat)
    ensures PageStart(page, |items|) <= PageStart(page + 1, |items|) <= |items|
    ensures Page(items, page) == items[PageStart(page, |items|)..PageStart(page + 1, |items|)]
    ensures page * ItemsPerPage >= |items| ==> Page(items, page) == []
    ensures page * ItemsPerPage < |items| ==> |Page(items, page)| == Min(ItemsPerPage, |items| - page * ItemsPerPage)
  {
    var lo, hi := PageStart(page, |items|), PageStart(page + 1, |items|);
    var r := Page(items, page);
    assert |r| == hi - lo;
    forall k | 0 <= k < |r| ensures r[k] == items[lo..hi][k] {
    }
  }

  /** Rendering page `page` after the earlier pages extends the rendered prefix to the next page's start. */
  lemma PageExtendsPrefix<T>(items: seq<T>, page: nat)
    ensures items[..PageStart(page, |items|)] + Page(items, page) == items[..PageStart(page + 1, |items|)]
  {
    PageWindow(items, page);
    var lo, hi := PageStart(page, |items|), PageStart(page + 1, |items|);
    assert items[..hi] == items[..lo] + items[lo..hi];
  }

  /** Later pages never start earlier. */
  lemma PageStartMonotone(a: nat, b: nat, n: nat)
    requires a <= b
    ensures PageStart(a, n) <= PageStart(b, n)
  {
    assert a * ItemsPerPage <= b * ItemsPerPage;
  }

  /**
   * Rendering page `page` after the pages `first .. page - 1` extends the
   * window they emitted to the next page's start.
   */
  lemma PageExtendsWindow<T>(items: seq<T>, first: nat, page: nat)
    requires first <= page
    ensures PageStart(first, |items|) <= PageStart(page, |items|)
    ensures items[PageStart(first, |items|)..PageStart(page, |items|)] + Page(items, page)
            == items[PageStart(first, |items|)..PageStart(page + 1, |items|)]
  {
    PageStartMonotone(first, page, |items|);
    PageWindow(items, page);
    var a, lo, hi := PageStart(first, |items|), PageStart(page, |items|), PageStart(page + 1, |items|);
    assert items[a..hi] == items[a..lo] + items[lo..hi];
  }

  /**
   * The first `pages` renders together emit exactly the prefix of the list
   * that ends where the next page would start: every item before that point
   * once, in list order, and nothing else.
   */
  lemma {:induction false} EmittedIsPrefix<T>(items: seq<T>, pages: nat)
    ensures Emitted(items, pages) == items[..PageStart(pages, |items|)]
  {
    if pages > 0 {
      EmittedIsPrefix(items, pages - 1);
      PageExtendsPrefix(items, pages - 1);
    }
  }

  /** The end of the list is reached after exactly `NumPages(n)` renders, and not before. */
  lemma EndReachedAfterNumPages(n: nat, pages: nat)
    ensures PageStart(pages, n) == n <==> pages >= NumPages(n)
  {
    var q := NumPages(n);
    assert q * ItemsPerPage >= n;
    assert q == 0 || (q - 1) * ItemsPerPage < n;
    if pages >= q {
      assert pages * ItemsPerPage >= q * ItemsPerPage;
    } else {
      assert pages * ItemsPerPage <= (q - 1) * ItemsPerPage;
    }
  }

  /**
   * Coverage: starting from page 0, `NumPages(|items|)` renders emit the
   * whole list, each item exactly once and in order; any smaller number of
   * renders leaves at least one item unemitted.
   */
  lemma Coverage<T>(items: seq<T>, pages: nat)
    ensures pages >= NumPages(|items|) ==> Emitted(items, pages) == items
    ensures pages < NumPages(|items|) ==> |Emitted(items, pages)| < |items|
  {
    EmittedIsPrefix(items, pages);
    EndReachedAfterNumPages(|items|, pages);
    assert items[..|items|] == items;
  }

  /** Once the end is reached, every further render emits nothing. */
  lemma NothingAfterEnd<T>(items: seq<T>, pages: nat, more: nat)
    requires pages >= NumPages(|items|)
    ensures Emitted(items, pages + more) == items
    ensures Page(items, pages + more) == []
  {
    Coverage(items, pages + more);
    EndReachedAfterNumPages(|items|, pages + more);
    PageWindow(items, pages + more);
  }

  /** The sequence has no repeated element. */
  ghost predicate Distinct<T>(s: seq<T>)
  {
    forall i, j :: 0 <= i < j < |s| ==> s[i] != s[j]
  }

  /** Two different pages of a list without repetitions have no item in common. */
  lemma PagesDisjoint<T>(items: seq<T>, p: nat, q: nat, x: T)
    requires Distinct(items)
    requires p != q
    requires x in Page(items, p)
    ensures x !in Page(items, q)
  {
    PageWindow(items, p);
    PageWindow(items, q);
    var a :| 0 <= a < |Page(items, p)| && Page(items, p)[a] == x;
    var i := PageStart(p, |items|) + a;
    forall b | 0 <= b < |Page(items, q)| ensures Page(items, q)[b] != x {
      var j := PageStart(q, |items|) + b;
      assert Page(items, q)[b] == items[j];
      if p < q {
        assert PageStart(p + 1, |items|) <= PageStart(q, |items|);
      } else {
        assert PageStart(q + 1, |items|) <= PageStart(p, |items|);
      }
      assert i != j;
    }
  }

  /**
   * Renders that start at a page after the first never show the list's first
   * item: whatever window of pages `first .. page - 1` with `first > 0` was
   * emitted, a list without repeats has its head outside it.
   */
  lemma LateStartMissesHead<T>(items: seq<T>, first: nat, page: nat)
    requires Distinct(items) && items != []
    requires 0 < first <= page
    ensures PageStart(first, |items|) <= PageStart(page, |items|)
    ensures items[0] !in items[PageStart(first, |items|)..PageStart(page, |items|)]
  {
    PageStartMonotone(first, page, |items|);
    var lo, hi := PageStart(first, |items|), PageStart(page, |items|);
    assert lo >= 1;
    forall k | 0 <= k < hi - lo ensures items[lo..hi][k] != items[0] {
      assert items[lo..hi][k] == items[lo + k];
    }
  }
}
