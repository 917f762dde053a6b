/**
 * The Staff page: a fetched staff list, a search that filters it on one
 * chosen field, a 10-row paginator with a compressed page bar, badge colours
 * for role and status, and the spreadsheet export's row mapping.
 */
module Staff {
  import opened Wrappers
  import opened Records
  import Text
  import Seqs
  import Paging
  import PageWindow

  const StaffPerPage: nat := 10

  /** The fields the search selector offers. */
  datatype SearchField = Name | Email | Mobile | Role {
    function Key(): string {
      match this
      case Name => "name"
      case Email => "email"
      case Mobile => "mobile"
      case Role => "role"
    }
  }

  /**
   * `staff[filterField]?.toLowerCase().includes(query.toLowerCase())`: an
   * undefined field never matches, not even the empty query.
   */
  predicate Matches(staff: Record, key: string, query: string) {
    key in staff && Text.Includes(Text.Lower(staff[key]), Text.Lower(query))
  }

  /** The list `handleSearch` stores as the filtered staff. */
  function Search(list: seq<Record>, field: SearchField, query: string): (r: seq<Record>)
    ensures |r| <= |list|
    ensures forall x :: x in r <==> x in list && Matches(x, field.Key(), query)
    ensures forall x :: multiset(r)[x] == if Matches(x, field.Key(), query) then multiset(list)[x] else 0
  {
    Seqs.Filter(list, (x: Record) => Matches(x, field.Key(), query))
  }

  /**
   * Search keeps, in their original order, exactly the records whose field is
   * defined and whose lower-cased value contains the lower-cased query.
   */
  lemma SearchMeaning(list: seq<Record>, field: SearchField, query: string, x: Record)
    ensures x in Search(list, field, query) <==>
      x in list && field.Key() in x &&
      exists i :: Text.OccursAt(Text.Lower(x[field.Key()]), Text.Lower(query), i)
  {
    var key := field.Key();
    assert x in Search(list, field, query) <==> x in list && Matches(x, key, query);
    if key in x {
      var hay, needle := Text.Lower(x[key]), Text.Lower(query);
      Text.IncludesIffOccurs(hay, needle);
      if x in Search(list, field, query) {
        assert Text.Includes(hay, needle);
        var i :| Text.OccursAt(hay, needle, i);
        assert Text.OccursAt(Text.Lower(x[field.Key()]), Text.Lower(query), i);
        assert x in list;
        assert field.Key() in x;
        assert exists j :: Text.OccursAt(Text.Lower(x[field.Key()]), Text.Lower(query), j);
      }
    }
  }

  /** Search keeps the surviving records in their original order. */
  lemma SearchKeepsOrder(list: seq<Record>, field: SearchField, query: string)
    ensures Seqs.Subsequence(Search(list, field, query), list)
  {
    Seqs.FilterIsSubsequence(list, (y: Record) => Matches(y, field.Key(), query));
  }

  /**
   * The empty query keeps every record that has the field, and so the whole
   * list when all records have it; records lacking the field are dropped.
   */
  lemma EmptyQuery(list: seq<Record>, field: SearchField)
    ensures forall x :: x in Search(list, field, "") <==> x in list && field.Key() in x
    ensures (forall i :: 0 <= i < |list| ==> field.Key() in list[i]) ==> Search(list, field, "") == list
  {
    forall x | x in list && field.Key() in x
      ensures Matches(x, field.Key(), "")
    {
      Text.EmptyIsIncluded(Text.Lower(x[field.Key()]));
    }
    if forall i :: 0 <= i < |list| ==> field.Key() in list[i] {
      forall i | 0 <= i < |list|
        ensures Matches(list[i], field.Key(), "")
      {
        Text.EmptyIsIncluded(Text.Lower(list[i][field.Key()]));
      }
      Seqs.FilterAllPass(list, (y: Record) => Matches(y, field.Key(), ""));
    }
  }

  /** react-bootstrap colour variants used by the badges. */
  datatype Variant = Danger | Warning | Primary | Secondary | Success

  /** `getRoleBadge(staff.role)`. */
  function RoleBadge(role: Option<string>): Variant {
    match role
    case Some("admin") => Danger
    case Some("manager") => Warning
    case Some("staff") => Primary
    case _ => Secondary
  }

  /** `getStatusBadge(staff.status)`. */
  function StatusBadge(status: Option<string>): Variant {
    if status == Some("active") then Success else Danger
  }

  /**
   * The badge tables: each known role has its own colour, every other value
   * (a missing role included) is secondary; status is green exactly when it
   * is "active".
   */
  lemma BadgeTables(role: Option<string>, status: Option<string>)
    ensures RoleBadge(role) == Danger <==> role == Some("admin")
    ensures RoleBadge(role) == Warning <==> role == Some("manager")
    ensures RoleBadge(role) == Primary <==> role == Some("staff")
    ensures RoleBadge(role) == Secondary <==> role !in {Some("admin"), Some("manager"), Some("staff")}
    ensures StatusBadge(status) == Success <==> status == Some("active")
    ensures StatusBadge(status) in {Success, Danger}
  {
  }

  /** The exported columns after ID, in sheet order: header and record key. */
  const ExportColumns: seq<(string, string)> := [
    ("Name", "name"), ("Email", "email"), ("Mobile", "mobile"), ("Address", "address"),
    ("Role", "role"), ("Status", "status"), ("Profile Image", "profileImage")]

  /** One spreadsheet row: the ID cell as stored, then one text cell per column. */
  datatype ExportRow = ExportRow(id: Option<string>, cells: seq<string>)

  /**
   * The row `downloadExcel` maps one staff record to: the id copied, and each
   * column's value, or "-" where the field is missing or empty.
   */
  function ToExportRow(staff: Record): (row: ExportRow)
    ensures row.id == IdOf(staff)
    ensures |row.cells| == |ExportColumns|
    ensures forall j :: 0 <= j < |ExportColumns| ==> row.cells[j] != ""
    ensures forall j :: 0 <= j < |ExportColumns| ==>
      var key := ExportColumns[j].1;
      row.cells[j] == if key in staff && staff[key] != "" then staff[key] else "-"
  {
    ExportRow(IdOf(staff), seq(|ExportColumns|, j requires 0 <= j < |ExportColumns| => FieldOr(staff, ExportColumns[j].1, "-")))
  }

  /** `staffList.map(...)`: one row per staff record, in list order. */
  function ExportRows(list: seq<Record>): (rows: seq<ExportRow>)
    ensures |rows| == |list|
    ensures forall i :: 0 <= i < |list| ==> rows[i] == ToExportRow(list[i])
  {
    if list == [] then [] else [ToExportRow(list[0])] + ExportRows(list[1..])
  }

  /** No exported cell is ever blank: every gap shows the "-" placeholder. */
  lemma ExportHasNoBlankCells(list: seq<Record>, i: nat, j: nat)
    requires i < |list| && j < |ExportColumns|
    ensures ExportRows(list)[i].cells[j] != ""
    ensures ExportRows(list)[i].cells[j] == "-" || ExportRows(list)[i].cells[j] == list[i][ExportColumns[j].1]
  {
  }

  /** The state the Staff component keeps. */
  class StaffPage {
    var staffList: seq<Record>
    var filteredStaff: seq<Record>
    var currentPage: int
    var filterField: SearchField
    var searchQuery: string
    var loading: bool
    var error: bool

    ghost predicate Valid()
      reads this
    {
      currentPage >= 1
    }

    constructor ()
      ensures Valid()
      ensures staffList == [] && filteredStaff == [] && currentPage == 1
      ensures filterField == Name && searchQuery == "" && loading && !error
    {
      staffList := [];
      filteredStaff := [];
      currentPage := 1;
      filterField := Name;
      searchQuery := "";
      loading := true;
      error := false;
    }

    /** `Math.ceil(filteredStaff.length / staffPerPage)`. */
    function TotalPages(): nat
      reads this
    {
      Paging.TotalPages(|filteredStaff|, StaffPerPage)
    }

    /** `currentStaff`: the rows of the current page. */
    function CurrentStaff(): seq<Record>
      reads this
      requires Valid()
    {
      Paging.PageSlice(filteredStaff, currentPage, StaffPerPage)
    }

    /** `fetchStaff`: a successful load overwrites both lists, discarding any search in force. */
    method FetchStaff(response: Response<seq<Record>>)
      requires Valid()
      modifies this
      ensures Valid()
      ensures response.Ok? ==> staffList == response.body.GetOr([]) && filteredStaff == staffList && error == old(error)
      ensures response.Failed? ==> staffList == old(staffList) && filteredStaff == old(filteredStaff) && error
      ensures currentPage == old(currentPage) && filterField == old(filterField) && searchQuery == old(searchQuery)
      ensures !loading
    {
      match response {
        case Ok(body) =>
          staffList := body.GetOr([]);
          filteredStaff := body.GetOr([]);
        case Failed =>
          error := true;
      }
      loading := false;
    }

    /** `handleSearch`: remember the query, filter the full list, go back to page 1. */
    method HandleSearch(query: string)
      requires Valid()
      modifies this
      ensures Valid()
      ensures searchQuery == query && currentPage == 1
      ensures filteredStaff == Search(staffList, filterField, query)
      ensures staffList == old(staffList) && filterField == old(filterField)
      ensures loading == old(loading) && error == old(error)
    {
      searchQuery := query;
      filteredStaff := Search(staffList, filterField, query);
      currentPage := 1;
    }

    /** The field selector: it changes the field only and does not filter again. */
    method SelectFilterField(field: SearchField)
      requires Valid()
      modifies this`filterField
      ensures Valid()
      ensures filterField == field
    {
      filterField := field;
    }

    /**
     * `handleDelete`: nothing happens unless the user confirms and the
     * request succeeds; then the list is fetched again.
     */
    method HandleDelete(confirmed: bool, deleteOk: bool, refetch: Response<seq<Record>>)
      requires Valid()
      modifies this
      ensures Valid()
      ensures !(confirmed && deleteOk) ==>
        staffList == old(staffList) && filteredStaff == old(filteredStaff) &&
        currentPage == old(currentPage) && loading == old(loading) && error == old(error)
      ensures confirmed && deleteOk && refetch.Ok? ==>
        staffList == refetch.body.GetOr([]) && filteredStaff == staffList && currentPage == old(currentPage)
      ensures confirmed && deleteOk && refetch.Failed? ==>
        staffList == old(staffList) && filteredStaff == old(filteredStaff) && error
      ensures filterField == old(filterField) && searchQuery == old(searchQuery)
    {
      if !confirmed {
        return;
      }
      if deleteOk {
        FetchStaff(refetch);
      }
    }

    /** A page button's click: `setCurrentPage(page)`. */
    method SelectPage(page: int)
      requires Valid() && page >= 1
      modifies this`currentPage
      ensures Valid() && currentPage == page
    {
      currentPage := page;
    }

    /** Prev: `currentPage > 1 && setCurrentPage(currentPage - 1)`. */
    method Prev()
      requires Valid()
      modifies this`currentPage
      ensures Valid()
      ensures currentPage == Paging.PrevPage(old(currentPage))
    {
      if currentPage > 1 {
        currentPage := currentPage - 1;
      }
    }

    /** Next: `currentPage < totalPages && setCurrentPage(currentPage + 1)`. */
    method Next()
      requires Valid()
      modifies this`currentPage
      ensures Valid()
      ensures currentPage == Paging.NextPage(old(currentPage), TotalPages())
    {
      if currentPage < TotalPages() {
        currentPage := currentPage + 1;
      }
    }

    /**
     * `renderPagination`: nothing while there are no pages; otherwise Prev
     * (disabled on page 1), the compressed page bar, and Next (disabled on
     * the last page).
     */
    method RenderPagination() returns (controls: Option<PageWindow.Controls>)
      requires Valid()
      ensures TotalPages() < 1 <==> controls.None?
      ensures controls.Some? ==>
        var items := controls.value.items;
        && controls.value.prevDisabled == (currentPage == 1)
        && controls.value.nextDisabled == (currentPage == TotalPages())
        && PageWindow.StrictlyIncreasing(PageWindow.ItemPages(items))
        && (forall p :: p in PageWindow.ItemPages(items) <==> p in PageWindow.WindowSet(currentPage, TotalPages()))
        && |PageWindow.ItemPages(items)| <= 5
        && items == PageWindow.Layout(PageWindow.ItemPages(items), currentPage)
    {
      var totalPages := TotalPages();
      if totalPages < 1 {
        return None;
      }
      var items := PageWindow.RenderItems(currentPage, totalPages);
      return Some(PageWindow.Controls(currentPage == 1, items, currentPage == totalPages));
    }
  }

  /**
   * While a search is in force, a reload shows every staff member again
   * although the query is still in the search box.
   */
  method ReloadDiscardsSearch(page: StaffPage, fetched: seq<Record>)
    requires page.Valid()
    modifies page
    ensures page.filteredStaff == fetched && page.searchQuery == old(page.searchQuery)
  {
    page.FetchStaff(Ok(Some(fetched)));
  }
}
