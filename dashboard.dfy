/**
 * The dashboard (`sample.jsx`, whose component is named Dashboard): the user
 * and vehicle counts, the bookings tallied by payment status, and the first
 * ten bookings shown five to a page.
 */
module Dashboard {
  import opened Wrappers
  import opened Records
  import Text
  import Paging
  import Bookings

  const BookingsPerPage: nat := 5

  /** How many bookings `slice(0, 10)` keeps for the recent-bookings table. */
  const RecentLimit: nat := 10

  /** `booking.paymentStatus?.toLowerCase() === status`. */
  predicate PaymentIs(booking: Record, status: string) {
    "paymentStatus" in booking && Text.Lower(booking["paymentStatus"]) == status
  }

  /** The number of bookings whose lower-cased payment status is `status`. */
  function CountPayment(bookings: seq<Record>, status: string): (n: nat)
    ensures n <= |bookings|
    decreases |bookings|
  {
    if bookings == [] then 0
    else
      var last := |bookings| - 1;
      CountPayment(bookings[..last], status) + (if PaymentIs(bookings[last], status) then 1 else 0)
  }

  /**
   * No booking counts as both paid and pending, so the two tallies never add
   * up to more than the list, and they add up to all of it exactly when every
   * booking's payment status reads "paid" or "pending" in any letter case.
   */
  lemma {:induction false} TallyCountsAll(bookings: seq<Record>)
    ensures CountPayment(bookings, "paid") + CountPayment(bookings, "pending") <= |bookings|
    ensures CountPayment(bookings, "paid") + CountPayment(bookings, "pending") == |bookings| <==>
      forall i :: 0 <= i < |bookings| ==> PaymentIs(bookings[i], "paid") || PaymentIs(bookings[i], "pending")
    decreases |bookings|
  {
    if bookings != [] {
      var last := |bookings| - 1;
      var front := bookings[..last];
      TallyCountsAll(front);
      assert forall i :: 0 <= i < last ==> front[i] == bookings[i];
      assert "paid" != "pending";
    }
  }

  /**
   * A payment status written by the booking editor's selector is tallied:
   * "Paid" as paid and "Pending" as pending.
   */
  lemma SelectorPaymentCounts(booking: Record, payment: Bookings.PaymentChoice)
    ensures PaymentIs(Bookings.WithPayment(booking, payment), "paid") <==> payment == Bookings.Paid
    ensures PaymentIs(Bookings.WithPayment(booking, payment), "pending") <==> payment == Bookings.PaymentPending
  {
    var lowered := Text.Lower(payment.Value());
    if payment == Bookings.Paid {
      assert lowered == "paid";
    } else {
      assert lowered == "pending";
    }
  }

  /**
   * The `forEach` over the bookings: `paid` and `pending` count the bookings
   * whose lower-cased payment status is "paid" and "pending".
   */
  method Tally(bookings: seq<Record>) returns (paid: nat, pending: nat)
    ensures paid == CountPayment(bookings, "paid")
    ensures pending == CountPayment(bookings, "pending")
  {
    paid, pending := 0, 0;
    var i := 0;
    while i < |bookings|
      invariant 0 <= i <= |bookings|
      invariant paid == CountPayment(bookings[..i], "paid")
      invariant pending == CountPayment(bookings[..i], "pending")
    {
      assert bookings[..i + 1][..i] == bookings[..i];
      if "paymentStatus" in bookings[i] {
        var paymentStatus := Text.Lower(bookings[i]["paymentStatus"]);
        if paymentStatus == "paid" {
          paid := paid + 1;
        } else if paymentStatus == "pending" {
          pending := pending + 1;
        }
      }
      i := i + 1;
    }
    assert bookings[..i] == bookings;
  }

  /** `bookings.slice(0, 10)`: the first ten bookings, or all of them when fewer. */
  function Recent(bookings: seq<Record>): (recent: seq<Record>)
    ensures |recent| == if |bookings| < RecentLimit then |bookings| else RecentLimit
    ensures recent == bookings[..|recent|]
  {
    if |bookings| < RecentLimit then bookings else bookings[..RecentLimit]
  }

  /** Ten recent bookings five to a page: the table never has more than two pages. */
  lemma RecentFitsTwoPages(bookings: seq<Record>)
    ensures Paging.TotalPages(|Recent(bookings)|, BookingsPerPage) <= 2
    ensures bookings != [] ==> Paging.TotalPages(|Recent(bookings)|, BookingsPerPage) >= 1
  {
  }

  /** `list?.length || 0`: the length of a list, 0 when the field is absent. */
  function CountOrZero(list: Option<seq<Record>>): (n: nat)
    ensures list.None? ==> n == 0
    ensures list.Some? ==> n == |list.value|
  {
    match list
    case None => 0
    case Some(items) => |items|
  }

  /**
   * The three responses' lists: `users`, `cars`, and `bookings`, the last
   * None when it is not an array.
   */
  datatype DashboardData = DashboardData(users: Option<seq<Record>>, cars: Option<seq<Record>>, bookings: Option<seq<Record>>)

  /** The state the dashboard keeps. */
  class DashboardPage {
    var userCount: nat
    var vehicleCount: nat
    var paid: nat
    var pending: nat
    var recentBookings: seq<Record>
    var loading: bool
    var currentPage: int

    ghost predicate Valid()
      reads this
    {
      currentPage >= 1
    }

    constructor ()
      ensures Valid()
      ensures userCount == 0 && vehicleCount == 0 && paid == 0 && pending == 0
      ensures recentBookings == [] && loading && currentPage == 1
    {
      userCount, vehicleCount := 0, 0;
      paid, pending := 0, 0;
      recentBookings := [];
      loading := true;
      currentPage := 1;
    }

    /** `bookingCount`: the paid and pending bookings, not the length of the list. */
    function BookingCount(): nat
      reads this
    {
      paid + pending
    }

    /** `Math.ceil(recentBookings.length / bookingsPerPage)`. */
    function TotalPages(): nat
      reads this
    {
      Paging.TotalPages(|recentBookings|, BookingsPerPage)
    }

    /** `currentBookings`: the recent bookings on the current page. */
    function CurrentBookings(): seq<Record>
      reads this
      requires Valid()
    {
      Paging.PageSlice(recentBookings, currentPage, BookingsPerPage)
    }

    /**
     * `fetchDashboardData`: with all three responses in and the bookings an
     * array, the counts, the tallies and the recent bookings are set; a
     * failed request or a non-array leaves them as they were.
     */
    method FetchDashboardData(data: Option<DashboardData>)
      requires Valid()
      modifies this
      ensures Valid() && !loading && currentPage == old(currentPage)
      ensures data.Some? && data.value.bookings.Some? ==>
        var bookings := data.value.bookings.value;
        && userCount == CountOrZero(data.value.users)
        && vehicleCount == CountOrZero(data.value.cars)
        && paid == CountPayment(bookings, "paid")
        && pending == CountPayment(bookings, "pending")
        && recentBookings == Recent(bookings)
        && BookingCount() <= |bookings|
      ensures !(data.Some? && data.value.bookings.Some?) ==>
        userCount == old(userCount) && vehicleCount == old(vehicleCount) &&
        paid == old(paid) && pending == old(pending) && recentBookings == old(recentBookings)
    {
      if data.Some? && data.value.bookings.Some? {
        var bookings := data.value.bookings.value;
        userCount := CountOrZero(data.value.users);
        vehicleCount := CountOrZero(data.value.cars);
        paid, pending := Tally(bookings);
        TallyCountsAll(bookings);
        recentBookings := Recent(bookings);
      }
      loading := false;
    }

    /** `handlePrevPage`: back one page unless on page 1. */
    method HandlePrevPage()
      requires Valid()
      modifies this`currentPage
      ensures Valid()
      ensures currentPage == Paging.PrevPage(old(currentPage))
    {
      if currentPage > 1 {
        currentPage := currentPage - 1;
      }
    }

    /** `handleNextPage`: on one page unless on the last. */
    method HandleNextPage()
      requires Valid()
      modifies this`currentPage
      ensures Valid()
      ensures currentPage == Paging.NextPage(old(currentPage), TotalPages())
    {
      if currentPage < TotalPages() {
        currentPage := currentPage + 1;
      }
    }

    /** The Previous and Next buttons' `disabled` flags. */
    method ButtonStates() returns (prevDisabled: bool, nextDisabled: bool)
      requires Valid()
      ensures prevDisabled <==> currentPage == 1
      ensures nextDisabled <==> Paging.NextDisabled(currentPage, TotalPages())
      ensures TotalPages() == 0 ==> nextDisabled
      ensures currentPage == 1 || Paging.InRange(currentPage, TotalPages()) ==>
        (prevDisabled <==> Paging.PrevPage(currentPage) == currentPage) &&
        (nextDisabled <==> Paging.NextPage(currentPage, TotalPages()) == currentPage)
    {
      var totalPages := TotalPages();
      prevDisabled := currentPage == 1;
      nextDisabled := currentPage == totalPages || totalPages == 0;
      if currentPage == 1 || Paging.InRange(currentPage, totalPages) {
        Paging.DisabledMatchesGuard(currentPage, totalPages);
      }
    }
  }
}
