/**
 * The Users page: the fetched user list, an edit modal whose form is merged
 * into the edited row once the server accepts it, deletion by row position,
 * and a 10-row paginator whose bar lists every page.
 */
module Users {
  import opened Wrappers
  import opened Records
  import Seqs
  import Paging
  import PageWindow

  const UsersPerPage: nat := 10

  /** The form `handleShow` opens with when no user is given. */
  const EmptyForm: Record := map["name" := "", "email" := "", "mobile" := "", "profileImage" := ""]

  /** The four inputs of the edit modal. */
  datatype FormField = Name | Mobile | Email | ProfileImage {
    function Key(): string {
      match this
      case Name => "name"
      case Mobile => "mobile"
      case Email => "email"
      case ProfileImage => "profileImage"
    }
  }

  /** The ID cell, `u.id?.slice(-6) || '-'`: the id's last six characters, or "-". */
  function ShortId(user: Record): (cell: string)
    ensures "id" !in user || user["id"] == "" ==> cell == "-"
    ensures "id" in user && user["id"] != "" ==>
      |cell| == (if |user["id"]| < 6 then |user["id"]| else 6) &&
      user["id"] == user["id"][..|user["id"]| - |cell|] + cell
  {
    if "id" in user && user["id"] != "" then
      var id := user["id"];
      if |id| < 6 then id else id[|id| - 6..]
    else "-"
  }

  /** The pages 1..total in order, as the page bar's loop visits them. */
  function PageRange(total: nat): (pages: seq<int>)
    ensures |pages| == total
    ensures forall k :: 0 <= k < total ==> pages[k] == k + 1
  {
    seq(total, k => k + 1)
  }

  /**
   * The bar over every page is the compressed bar's layout of the gapless
   * run 1..total: one button per page, none of them preceded by an ellipsis.
   */
  lemma {:induction false} FullBarLayout(total: nat, current: int)
    ensures var items := PageWindow.Layout(PageRange(total), current);
      && |items| == total
      && forall k :: 0 <= k < total ==> items[k] == PageWindow.Item(k + 1, k + 1 == current)
  {
    if total > 0 {
      var pages := PageRange(total);
      assert pages[..total - 1] == PageRange(total - 1);
      FullBarLayout(total - 1, current);
      assert PageWindow.Before(pages, total - 1) == total - 1;
    }
  }

  /** The state the Users component keeps. */
  class UsersPage {
    var users: seq<Record>
    var loading: bool
    var show: bool
    var formData: Record
    var editingIndex: Option<nat>
    var error: bool
    var currentPage: int

    ghost predicate Valid()
      reads this
    {
      currentPage >= 1
    }

    constructor ()
      ensures Valid()
      ensures users == [] && loading && !show && formData == EmptyForm
      ensures editingIndex == None && !error && currentPage == 1
    {
      users := [];
      loading := true;
      show := false;
      formData := EmptyForm;
      editingIndex := None;
      error := false;
      currentPage := 1;
    }

    /** `Math.ceil(users.length / usersPerPage)`. */
    function TotalPages(): nat
      reads this
    {
      Paging.TotalPages(|users|, UsersPerPage)
    }

    /** `currentUsers`: the rows of the current page. */
    function CurrentUsers(): seq<Record>
      reads this
      requires Valid()
    {
      Paging.PageSlice(users, currentPage, UsersPerPage)
    }

    /**
     * The list position a row's Edit and Delete buttons pass,
     * `indexOfFirstUser + i`: the row's own place in `users`.
     */
    function RowIndex(i: nat): (index: nat)
      reads this
      requires Valid() && i < |CurrentUsers()|
      ensures index < |users| && users[index] == CurrentUsers()[i]
    {
      Paging.RowAddress(users, currentPage, UsersPerPage, i);
      Paging.FirstIndex(currentPage, UsersPerPage) + i
    }

    /**
     * The mount effect's `fetchUsers`: a good response replaces the list (an
     * absent `users` field gives the empty list); a bad one sets the error.
     */
    method FetchUsers(response: Response<seq<Record>>)
      requires Valid()
      modifies this
      ensures Valid()
      ensures response.Ok? ==> users == response.body.GetOr([]) && error == old(error)
      ensures response.Failed? ==> users == old(users) && error
      ensures !loading && currentPage == old(currentPage)
      ensures show == old(show) && formData == old(formData) && editingIndex == old(editingIndex)
    {
      if response.Ok? {
        users := response.body.GetOr([]);
      } else {
        error := true;
      }
      loading := false;
    }

    /** `handleShow(user, index)`: open the modal on a copy of `user`. */
    method HandleShow(user: Record, index: Option<nat>)
      requires Valid()
      modifies this`editingIndex, this`formData, this`show
      ensures Valid()
      ensures editingIndex == index && formData == user && show
    {
      editingIndex := index;
      formData := user;
      show := true;
    }

    /** An input's `onChange`: `setFormData({ ...formData, [field]: value })`. */
    method SetFormField(field: FormField, value: string)
      requires Valid()
      modifies this`formData
      ensures Valid()
      ensures formData == Merge(old(formData), map[field.Key() := value])
    {
      formData := formData[field.Key() := value];
    }

    /** Cancel, or the modal's close button: hide it, keeping the index. */
    method Hide()
      requires Valid()
      modifies this`show
      ensures Valid() && !show
    {
      show := false;
    }

    /**
     * `handleSave`: with no row being edited the modal just closes; with a
     * row in range and the update accepted, the form is spread over that row
     * and the modal closes; otherwise (a rejected update, or an index past
     * the list, where `users[editingIndex].id` throws) nothing changes.
     */
    method HandleSave(updateOk: bool)
      requires Valid()
      modifies this`users, this`show, this`editingIndex
      ensures Valid()
      ensures old(editingIndex).None? ==> users == old(users) && !show && editingIndex == None
      ensures old(editingIndex).Some? && old(editingIndex).value < |old(users)| && updateOk ==>
        var i := old(editingIndex).value;
        users == old(users)[i := Merge(old(users)[i], formData)] && !show && editingIndex == None
      ensures old(editingIndex).Some? && !(old(editingIndex).value < |old(users)| && updateOk) ==>
        users == old(users) && show == old(show) && editingIndex == old(editingIndex)
    {
      match editingIndex {
        case None =>
        case Some(i) =>
          if i >= |users| || !updateOk {
            return;
          }
          users := users[i := Merge(users[i], formData)];
      }
      show := false;
      editingIndex := None;
    }

    /**
     * `handleDelete(index)`: after confirmation and a successful request the
     * row at `index` is removed by position. An index past the list makes
     * the confirmation text's `user.name` throw, so nothing happens.
     */
    method HandleDelete(index: nat, confirmed: bool, deleteOk: bool)
      requires Valid()
      modifies this`users
      ensures Valid()
      ensures index < |old(users)| && confirmed && deleteOk ==> users == Seqs.RemoveAt(old(users), index)
      ensures !(index < |old(users)| && confirmed && deleteOk) ==> users == old(users)
    {
      if index >= |users| || !confirmed {
        return;
      }
      if deleteOk {
        users := Seqs.RemoveAt(users, index);
      }
    }

    /** A page button's click: `setCurrentPage(number)`. */
    method SelectPage(page: int)
      requires Valid() && page >= 1
      modifies this`currentPage
      ensures Valid() && currentPage == page
    {
      currentPage := page;
    }

    /** Prev: `currentPage > 1 && setCurrentPage(currentPage - 1)`. */
    method Prev()
      requires Valid()
      modifies this`currentPage
      ensures Valid()
      ensures currentPage == Paging.PrevPage(old(currentPage))
    {
      if currentPage > 1 {
        currentPage := currentPage - 1;
      }
    }

    /** Next: `currentPage < totalPages && setCurrentPage(currentPage + 1)`. */
    method Next()
      requires Valid()
      modifies this`currentPage
      ensures Valid()
      ensures currentPage == Paging.NextPage(old(currentPage), TotalPages())
    {
      if currentPage < TotalPages() {
        currentPage := currentPage + 1;
      }
    }

    /**
     * `renderPagination`: Prev (disabled on page 1), one button per page
     * with the current one active, and Next (disabled on the last page).
     */
    method RenderPagination() returns (controls: PageWindow.Controls)
      requires Valid()
      ensures controls.prevDisabled == (currentPage == 1)
      ensures controls.nextDisabled == (currentPage == TotalPages())
      ensures |controls.items| == TotalPages()
      ensures forall k :: 0 <= k < |controls.items| ==>
        controls.items[k] == PageWindow.Item(k + 1, k + 1 == currentPage)
      ensures controls.items == PageWindow.Layout(PageRange(TotalPages()), currentPage)
    {
      var totalPages := TotalPages();
      var pages: seq<PageWindow.PageItem> := [];
      var number := 1;
      while number <= totalPages
        invariant 1 <= number <= totalPages + 1
        invariant |pages| == number - 1
        invariant forall k :: 0 <= k < |pages| ==> pages[k] == PageWindow.Item(k + 1, k + 1 == currentPage)
      {
        pages := pages + [PageWindow.Item(number, number == currentPage)];
        number := number + 1;
      }
      FullBarLayout(totalPages, currentPage);
      return PageWindow.Controls(currentPage == 1, pages, currentPage == totalPages);
    }
  }

  /**
   * On an empty list Next is drawn enabled (page 1 is not page 0) yet its
   * guard keeps the page where it is.
   */
  method NextOnEmptyList(page: UsersPage)
    requires page.Valid() && page.users == [] && page.currentPage == 1
    modifies page`currentPage
    ensures page.currentPage == 1
  {
    var controls := page.RenderPagination();
    assert !controls.nextDisabled;
    page.Next();
  }
}
