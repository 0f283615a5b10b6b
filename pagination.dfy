/** Page arithmetic over a list of posts: the page count, the bounds of a
    page and the page itself, as both the CRUD view and the array toolkit
    compute them. */
module Pagination {
  import opened Js
  import opened ApiTypes

  /** `Math.ceil(length / itemsPerPage)`: 0 for an empty list. */
  function PageCount(length: nat, itemsPerPage: int): (r: nat)
    requires itemsPerPage >= 1
    ensures length <= r * itemsPerPage < length + itemsPerPage
    ensures r == 0 <==> length == 0
  {
    CeilDiv(length, itemsPerPage)
  }

  function PageStart(currentPage: int, itemsPerPage: int): int {
    (currentPage - 1) * itemsPerPage
  }

  function PageEnd(currentPage: int, itemsPerPage: int, length: nat): int {
    var start := PageStart(currentPage, itemsPerPage);
    if start + itemsPerPage < length then start + itemsPerPage else length
  }

  /** `page` is the run of `view` that begins at index `start`. */
  predicate PageOf(page: seq<Post>, view: seq<Post>, start: int) {
    forall i :: 0 <= i < |page| ==> 0 <= start + i < |view| && page[i] == view[start + i]
  }

  /** The slice [start, min(start + itemsPerPage, length)) of the view. */
  function Paginate(view: seq<Post>, currentPage: int, itemsPerPage: int): (r: seq<Post>)
    ensures currentPage >= 1 && itemsPerPage >= 1 ==> |r| <= itemsPerPage
    ensures currentPage >= 1 && itemsPerPage >= 1 ==> PageOf(r, view, PageStart(currentPage, itemsPerPage))
    ensures currentPage >= 1 && itemsPerPage >= 1 && PageStart(currentPage, itemsPerPage) < |view| ==>
      |r| == PageEnd(currentPage, itemsPerPage, |view|) - PageStart(currentPage, itemsPerPage)
    ensures currentPage >= 1 && itemsPerPage >= 1 && PageStart(currentPage, itemsPerPage) >= |view| ==> r == []
  {
    var start := PageStart(currentPage, itemsPerPage);
    var end := PageEnd(currentPage, itemsPerPage, |view|);
    assert currentPage >= 1 && itemsPerPage >= 1 ==> 0 <= start by {
      if currentPage >= 1 && itemsPerPage >= 1 {
        MulMonotone(0, currentPage - 1, itemsPerPage);
      }
    }
    assert itemsPerPage >= 1 && start < |view| ==> start <= end <= start + itemsPerPage && end <= |view|;
    Slice(view, start, end)
  }

  /** A page from 1 on has posts exactly when it is one of the first
      totalPages pages. */
  lemma PageNonEmptyIffInRange(view: seq<Post>, currentPage: int, itemsPerPage: int)
    requires currentPage >= 1 && itemsPerPage >= 1
    ensures Paginate(view, currentPage, itemsPerPage) != [] <==> currentPage <= PageCount(|view|, itemsPerPage)
  {
    var t := PageCount(|view|, itemsPerPage);
    var start := PageStart(currentPage, itemsPerPage);
    assert Paginate(view, currentPage, itemsPerPage) != [] <==> start < |view|;
    StartBeforeEndIffInRange(|view|, currentPage, itemsPerPage, t);
  }

  /** There are never more pages than items. */
  lemma PageCountAtMostLength(length: nat, itemsPerPage: int)
    requires itemsPerPage >= 1
    ensures PageCount(length, itemsPerPage) <= length
  {
    var t := PageCount(length, itemsPerPage);
    if t >= 1 {
      assert (t - 1) * itemsPerPage == t * itemsPerPage - itemsPerPage;
      MulMonotone(1, itemsPerPage, t - 1);
    }
  }

  /** A page from 1 on starts at a non-negative index, and that index is
      inside a list of `length` items exactly when the page is in range. */
  lemma PageStartInView(length: nat, currentPage: int, itemsPerPage: int)
    requires itemsPerPage >= 1
    ensures currentPage >= 1 ==> 0 <= PageStart(currentPage, itemsPerPage)
    ensures currentPage >= 1 ==>
      (PageStart(currentPage, itemsPerPage) < length <==> currentPage <= PageCount(length, itemsPerPage))
  {
    if currentPage >= 1 {
      MulMonotone(0, currentPage - 1, itemsPerPage);
      StartBeforeEndIffInRange(length, currentPage, itemsPerPage, PageCount(length, itemsPerPage));
    }
  }

  /** With `t` pages of `n` for `length` items, page `p` starts before the
      end exactly when `p <= t`. */
  lemma StartBeforeEndIffInRange(length: nat, p: int, n: int, t: nat)
    requires p >= 1 && n >= 1
    requires length <= t * n < length + n
    ensures (p - 1) * n < length <==> p <= t
  {
    if p <= t {
      MulMonotone(p - 1, t - 1, n);
      assert (t - 1) * n == t * n - n;
    } else {
      MulMonotone(t, p - 1, n);
    }
  }

  /** Every post of the view sits on page `i / itemsPerPage + 1`, at
      position `i % itemsPerPage`, and that page is in range. */
  lemma EveryPostHasAPage(view: seq<Post>, itemsPerPage: int, i: nat)
    requires itemsPerPage >= 1 && i < |view|
    ensures 1 <= i / itemsPerPage + 1 <= PageCount(|view|, itemsPerPage)
    ensures var page := Paginate(view, i / itemsPerPage + 1, itemsPerPage);
            i % itemsPerPage < |page| && page[i % itemsPerPage] == view[i]
  {
    var n := itemsPerPage;
    var q, m := i / n, i % n;
    assert q * n + m == i;
    assert PageStart(q + 1, n) == q * n;
    PageNonEmptyIffInRange(view, q + 1, n);
  }
}
