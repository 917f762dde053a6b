/**
 * The Bookings page: the fetched bookings, a 10-row paginator with guarded
 * Prev/Next buttons, and an edit modal whose two selectors each rewrite one
 * field of a copy of the selected booking.
 */
module Bookings {
  import opened Wrappers
  import opened Records
  import Paging

  const BookingsPerPage: nat := 10

  /** The status selector's options. */
  datatype BookingStatus = Pending | Confirmed | Completed | Cancelled {
    function Value(): string {
      match this
      case Pending => "pending"
      case Confirmed => "confirmed"
      case Completed => "completed"
      case Cancelled => "cancelled"
    }
  }

  /** The payment selector's options. */
  datatype PaymentChoice = Paid | PaymentPending {
    function Value(): string {
      match this
      case Paid => "Paid"
      case PaymentPending => "Pending"
    }
  }

  /**
   * The selectors offer closed sets of values, one per option: a value
   * written through a selector names exactly one option.
   */
  lemma ChoicesAreClosed(s: BookingStatus, t: BookingStatus, p: PaymentChoice, q: PaymentChoice)
    ensures s.Value() in {"pending", "confirmed", "completed", "cancelled"}
    ensures p.Value() in {"Paid", "Pending"}
    ensures s.Value() == t.Value() ==> s == t
    ensures p.Value() == q.Value() ==> p == q
  {
  }

  /** The status selector's `{ ...selectedBooking, status: value }`: only `status` changes. */
  function WithStatus(booking: Record, status: BookingStatus): (r: Record)
    ensures r.Keys == booking.Keys + {"status"}
    ensures r["status"] == status.Value()
    ensures forall k :: k in booking && k != "status" ==> r[k] == booking[k]
  {
    Merge(booking, map["status" := status.Value()])
  }

  /** The payment selector's `{ ...selectedBooking, paymentStatus: value }`: only `paymentStatus` changes. */
  function WithPayment(booking: Record, payment: PaymentChoice): (r: Record)
    ensures r.Keys == booking.Keys + {"paymentStatus"}
    ensures r["paymentStatus"] == payment.Value()
    ensures forall k :: k in booking && k != "paymentStatus" ==> r[k] == booking[k]
  {
    Merge(booking, map["paymentStatus" := payment.Value()])
  }

  /**
   * The two selectors touch different fields, so they commute, and choosing
   * again replaces the earlier choice.
   */
  lemma SelectorsIndependent(b: Record, s: BookingStatus, t: BookingStatus, p: PaymentChoice)
    ensures WithPayment(WithStatus(b, s), p) == WithStatus(WithPayment(b, p), s)
    ensures WithStatus(WithStatus(b, s), t) == WithStatus(b, t)
  {
  }

  /** The state the Bookings page keeps. */
  class BookingsPage {
    var bookings: seq<Record>
    var selectedBooking: Option<Record>
    var showEditModal: bool
    var currentPage: int

    ghost predicate Valid()
      reads this
    {
      currentPage >= 1
    }

    constructor ()
      ensures Valid()
      ensures bookings == [] && selectedBooking == None && !showEditModal && currentPage == 1
    {
      bookings := [];
      selectedBooking := None;
      showEditModal := false;
      currentPage := 1;
    }

    /** `Math.ceil(bookings.length / bookingsPerPage)`. */
    function TotalPages(): nat
      reads this
    {
      Paging.TotalPages(|bookings|, BookingsPerPage)
    }

    /** `currentBookings`: the rows of the current page. */
    function CurrentBookings(): seq<Record>
      reads this
      requires Valid()
    {
      Paging.PageSlice(bookings, currentPage, BookingsPerPage)
    }

    /**
     * `fetchBookings`: the list is replaced only when the response carries a
     * `bookings` field; a missing field or a failed request keeps it.
     */
    method FetchBookings(response: Response<seq<Record>>)
      requires Valid()
      modifies this`bookings
      ensures Valid()
      ensures response.Ok? && response.body.Some? ==> bookings == response.body.value
      ensures !(response.Ok? && response.body.Some?) ==> bookings == old(bookings)
    {
      if response.Ok? && response.body.Some? {
        bookings := response.body.value;
      }
    }

    /** `handleEdit(booking)`: open the modal on the booking. */
    method HandleEdit(booking: Record)
      requires Valid()
      modifies this`selectedBooking, this`showEditModal
      ensures Valid()
      ensures selectedBooking == Some(booking) && showEditModal
    {
      selectedBooking := Some(booking);
      showEditModal := true;
    }

    /** The status selector, drawn only while a booking is selected. */
    method SelectStatus(status: BookingStatus)
      requires Valid() && selectedBooking.Some?
      modifies this`selectedBooking
      ensures Valid()
      ensures selectedBooking == Some(WithStatus(old(selectedBooking).value, status))
    {
      selectedBooking := Some(WithStatus(selectedBooking.value, status));
    }

    /** The payment selector, drawn only while a booking is selected. */
    method SelectPayment(payment: PaymentChoice)
      requires Valid() && selectedBooking.Some?
      modifies this`selectedBooking
      ensures Valid()
      ensures selectedBooking == Some(WithPayment(old(selectedBooking).value, payment))
    {
      selectedBooking := Some(WithPayment(selectedBooking.value, payment));
    }

    /**
     * `handleSaveChanges`: once the update is accepted the list is fetched
     * again and the modal closes; a rejected update changes nothing.
     */
    method HandleSaveChanges(saveOk: bool, refetch: Response<seq<Record>>)
      requires Valid()
      modifies this`bookings, this`showEditModal
      ensures Valid()
      ensures saveOk ==> !showEditModal
      ensures saveOk && refetch.Ok? && refetch.body.Some? ==> bookings == refetch.body.value
      ensures !(saveOk && refetch.Ok? && refetch.body.Some?) ==> bookings == old(bookings)
      ensures !saveOk ==> showEditModal == old(showEditModal)
    {
      if saveOk {
        FetchBookings(refetch);
        showEditModal := false;
      }
    }

    /** `handleDelete`: after confirmation and a successful request the list is fetched again. */
    method HandleDelete(confirmed: bool, deleteOk: bool, refetch: Response<seq<Record>>)
      requires Valid()
      modifies this`bookings
      ensures Valid()
      ensures confirmed && deleteOk && refetch.Ok? && refetch.body.Some? ==> bookings == refetch.body.value
      ensures !(confirmed && deleteOk && refetch.Ok? && refetch.body.Some?) ==> bookings == old(bookings)
    {
      if confirmed && deleteOk {
        FetchBookings(refetch);
      }
    }

    /** `handlePrevPage`: back one page unless on page 1. */
    method HandlePrevPage()
      requires Valid()
      modifies this`currentPage
      ensures Valid()
      ensures currentPage == Paging.PrevPage(old(currentPage))
    {
      if currentPage > 1 {
        currentPage := currentPage - 1;
      }
    }

    /** `handleNextPage`: on one page unless on the last. */
    method HandleNextPage()
      requires Valid()
      modifies this`currentPage
      ensures Valid()
      ensures currentPage == Paging.NextPage(old(currentPage), TotalPages())
    {
      if currentPage < TotalPages() {
        currentPage := currentPage + 1;
      }
    }

    /** The two buttons' `disabled` flags. */
    method ButtonStates() returns (prevDisabled: bool, nextDisabled: bool)
      requires Valid()
      ensures prevDisabled <==> currentPage == 1
      ensures nextDisabled <==> Paging.NextDisabled(currentPage, TotalPages())
      ensures currentPage == 1 || Paging.InRange(currentPage, TotalPages()) ==>
        (prevDisabled <==> Paging.PrevPage(currentPage) == currentPage) &&
        (nextDisabled <==> Paging.NextPage(currentPage, TotalPages()) == currentPage)
    {
      var totalPages := TotalPages();
      prevDisabled := currentPage == 1;
      nextDisabled := currentPage == totalPages || totalPages == 0;
      if currentPage == 1 || Paging.InRange(currentPage, totalPages) {
        Paging.DisabledMatchesGuard(currentPage, totalPages);
      }
    }
  }
}
