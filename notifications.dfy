/**
 * The Notifications page: the fetched notification list, deletion by id
 * (removed locally once the server accepts it), a 10-row paginator whose
 * Prev/Next clamp instead of guarding, and a page bar that is hidden while
 * there is at most one page.
 */
module Notifications {
  import opened Wrappers
  import opened Records
  import Seqs
  import Paging
  import PageWindow

  const NotificationsPerPage: nat := 10

  /**
   * The page a delete should leave the user on: the last page when the
   * current one no longer exists, the current one otherwise.
   */
  function PageAfterDelete(current: int, remaining: nat): (page: int)
    requires current >= 1
    ensures page >= 1
    ensures remaining > 0 ==> Paging.InRange(page, Paging.TotalPages(remaining, NotificationsPerPage))
    ensures Paging.InRange(current, Paging.TotalPages(remaining, NotificationsPerPage)) ==> page == current
  {
    var total := Paging.TotalPages(remaining, NotificationsPerPage);
    if current > total && total >= 1 then total else current
  }

  /**
   * As written, deleting the only row of the last page keeps the user on a
   * page that no longer exists: with 10k+1 notifications (ids unique) on page
   * k+1, deleting the last one leaves an empty table; for k = 1 the page bar
   * is hidden too, so no control leads back to the rows.
   */
  lemma {:induction false} StaleDeleteEmptiesPage(list: seq<Record>, k: nat)
    requires UniqueIds(list) && k >= 1 && |list| == NotificationsPerPage * k + 1
    ensures var rest := RemoveById(list, IdOf(list[|list| - 1]));
      && |rest| == NotificationsPerPage * k
      && Paging.TotalPages(|rest|, NotificationsPerPage) == k
      && Paging.PageSlice(rest, k + 1, NotificationsPerPage) == []
      && (k == 1 ==> Paging.TotalPages(|rest|, NotificationsPerPage) <= 1)
  {
    var rest := RemoveById(list, IdOf(list[|list| - 1]));
    RemoveUniqueId(list, |list| - 1);
    assert |rest| == NotificationsPerPage * k;
    var total := Paging.TotalPages(|rest|, NotificationsPerPage);
    if total < k {
      Paging.MulMonotone(total, k - 1, NotificationsPerPage);
    } else if total > k {
      Paging.MulMonotone(k, total - 1, NotificationsPerPage);
    }
    Paging.PageEmptyIffPastEnd(rest, k + 1, NotificationsPerPage);
  }

  /**
   * With the page clamped after a delete, the table shows rows whenever any
   * notification is left, and a page that still exists is kept.
   */
  lemma ClampAfterDelete(list: seq<Record>, id: Option<string>, current: int)
    requires current >= 1
    ensures var rest := RemoveById(list, id);
      var page := PageAfterDelete(current, |rest|);
      && (rest != [] ==> Paging.PageSlice(rest, page, NotificationsPerPage) != [])
      && (Paging.PageSlice(rest, current, NotificationsPerPage) != [] ==> page == current)
  {
    var rest := RemoveById(list, id);
    var page := PageAfterDelete(current, |rest|);
    Paging.PageEmptyIffPastEnd(rest, page, NotificationsPerPage);
    Paging.PageEmptyIffPastEnd(rest, current, NotificationsPerPage);
  }

  /** The state the Notifications component keeps. */
  class NotificationsPage {
    var notifications: seq<Record>
    var currentPage: int
    var loading: bool

    ghost predicate Valid()
      reads this
    {
      currentPage >= 1
    }

    constructor ()
      ensures Valid()
      ensures notifications == [] && currentPage == 1 && !loading
    {
      notifications := [];
      currentPage := 1;
      loading := false;
    }

    /** `Math.ceil(notifications.length / notificationsPerPage)`. */
    function TotalPages(): nat
      reads this
    {
      Paging.TotalPages(|notifications|, NotificationsPerPage)
    }

    /** `currentNotifications`: the rows of the current page. */
    function CurrentNotifications(): seq<Record>
      reads this
      requires Valid()
    {
      Paging.PageSlice(notifications, currentPage, NotificationsPerPage)
    }

    /** The S.NO cell of row `index`: `indexOfFirst + index + 1`. */
    function RowNumber(index: nat): (n: int)
      reads this
      requires Valid() && index < |CurrentNotifications()|
      ensures 1 <= n <= |notifications|
      ensures notifications[n - 1] == CurrentNotifications()[index]
    {
      Paging.RowAddress(notifications, currentPage, NotificationsPerPage, index);
      Paging.FirstIndex(currentPage, NotificationsPerPage) + index + 1
    }

    /**
     * `fetchNotifications`: a successful load replaces the list (an absent
     * `notifications` field gives the empty list); a failure keeps it.
     */
    method FetchNotifications(response: Response<seq<Record>>)
      requires Valid()
      modifies this
      ensures Valid()
      ensures response.Ok? ==> notifications == response.body.GetOr([])
      ensures response.Failed? ==> notifications == old(notifications)
      ensures currentPage == old(currentPage) && !loading
    {
      loading := true;
      if response.Ok? {
        notifications := response.body.GetOr([]);
      }
      loading := false;
    }

    /**
     * `handleDelete`: after confirmation and a successful request, every
     * notification carrying `id` is dropped locally; the page is not moved.
     */
    method HandleDelete(id: Option<string>, confirmed: bool, deleteOk: bool)
      requires Valid()
      modifies this`notifications
      ensures Valid()
      ensures confirmed && deleteOk ==> notifications == RemoveById(old(notifications), id)
      ensures !(confirmed && deleteOk) ==> notifications == old(notifications)
    {
      if !confirmed {
        return;
      }
      if deleteOk {
        notifications := RemoveById(notifications, id);
      }
    }

    /** The delete with the page brought back in range, as the page bar expects. */
    method HandleDeleteClamped(id: Option<string>, confirmed: bool, deleteOk: bool)
      requires Valid()
      modifies this`notifications, this`currentPage
      ensures Valid()
      ensures confirmed && deleteOk ==> notifications == RemoveById(old(notifications), id)
      ensures !(confirmed && deleteOk) ==> notifications == old(notifications)
      ensures currentPage == PageAfterDelete(old(currentPage), |notifications|)
    {
      HandleDelete(id, confirmed, deleteOk);
      currentPage := PageAfterDelete(currentPage, |notifications|);
    }

    /** A page button's click: `setCurrentPage(page)`. */
    method SelectPage(page: int)
      requires Valid() && page >= 1
      modifies this`currentPage
      ensures Valid() && currentPage == page
    {
      currentPage := page;
    }

    /** Prev: `setCurrentPage((prev) => Math.max(prev - 1, 1))`. */
    method Prev()
      requires Valid()
      modifies this`currentPage
      ensures Valid()
      ensures currentPage == Paging.ClampedPrev(old(currentPage))
    {
      currentPage := if currentPage - 1 > 1 then currentPage - 1 else 1;
    }

    /**
     * Next: `setCurrentPage((prev) => Math.min(prev + 1, totalPages))`; the
     * button exists only while there is more than one page.
     */
    method Next()
      requires Valid() && TotalPages() > 1
      modifies this`currentPage
      ensures Valid()
      ensures currentPage == Paging.ClampedNext(old(currentPage), TotalPages())
    {
      var totalPages := TotalPages();
      currentPage := if currentPage + 1 < totalPages then currentPage + 1 else totalPages;
    }

    /**
     * `renderPagination`: nothing while there is at most one page; otherwise
     * Prev (disabled on page 1), the compressed page bar, and Next (disabled
     * on the last page).
     */
    method RenderPagination() returns (controls: Option<PageWindow.Controls>)
      requires Valid()
      ensures TotalPages() <= 1 <==> controls.None?
      ensures controls.Some? ==>
        var items := controls.value.items;
        && controls.value.prevDisabled == (currentPage == 1)
        && controls.value.nextDisabled == (currentPage == TotalPages())
        && PageWindow.StrictlyIncreasing(PageWindow.ItemPages(items))
        && (forall p :: p in PageWindow.ItemPages(items) <==> p in PageWindow.WindowSet(currentPage, TotalPages()))
        && |PageWindow.ItemPages(items)| <= 5
        && items == PageWindow.Layout(PageWindow.ItemPages(items), currentPage)
    {
      var totalPages := TotalPages();
      if totalPages <= 1 {
        return None;
      }
      var items := PageWindow.RenderItems(currentPage, totalPages);
      return Some(PageWindow.Controls(currentPage == 1, items, currentPage == totalPages));
    }
  }
}
