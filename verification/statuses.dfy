/** The eight states of a rental order and the status subsets the services filter by. */
module Statuses {
  import opened Wrappers

  datatype RentalStatus =
    | PendingPayment
    | WaitingConfirmation
    | Approved
    | WaitingDelivery
    | InUse
    | Returned
    | Cancelled
    | Rejected

  /** The statuses in the order the status report lists them. */
  const AllStatuses: seq<RentalStatus> :=
    [PendingPayment, WaitingConfirmation, Approved, WaitingDelivery, InUse, Returned, Cancelled, Rejected]

  /** Where a status sits in `AllStatuses`. */
  function Position(s: RentalStatus): (i: nat)
    ensures i < |AllStatuses| && AllStatuses[i] == s
  {
    match s
    case PendingPayment => 0
    case WaitingConfirmation => 1
    case Approved => 2
    case WaitingDelivery => 3
    case InUse => 4
    case Returned => 5
    case Cancelled => 6
    case Rejected => 7
  }

  /** `AllStatuses` lists every status exactly once. */
  lemma AllStatusesListsEachOnce()
    ensures |AllStatuses| == 8
    ensures forall s :: s in AllStatuses
    ensures forall i, j :: 0 <= i < j < |AllStatuses| ==> AllStatuses[i] != AllStatuses[j]
  {
    forall s | true
      ensures s in AllStatuses
    {
      var i := Position(s);
    }
  }

  /** The name the database enum and the HTTP responses use for a status. */
  function Name(s: RentalStatus): (n: string)
    ensures FromName(n) == Some(s)
  {
    match s
    case PendingPayment => "PENDING_PAYMENT"
    case WaitingConfirmation => "WAITING_CONFIRMATION"
    case Approved => "APPROVED"
    case WaitingDelivery => "WAITING_DELIVERY"
    case InUse => "IN_USE"
    case Returned => "RETURNED"
    case Cancelled => "CANCELLED"
    case Rejected => "REJECTED"
  }

  /** The status a name denotes, if any (the enum check of the status DTO). */
  function FromName(n: string): Option<RentalStatus>
  {
    if n == "PENDING_PAYMENT" then Some(PendingPayment)
    else if n == "WAITING_CONFIRMATION" then Some(WaitingConfirmation)
    else if n == "APPROVED" then Some(Approved)
    else if n == "WAITING_DELIVERY" then Some(WaitingDelivery)
    else if n == "IN_USE" then Some(InUse)
    else if n == "RETURNED" then Some(Returned)
    else if n == "CANCELLED" then Some(Cancelled)
    else if n == "REJECTED" then Some(Rejected)
    else None
  }

  /** Orders the customer list and the analytics summary count as active rentals. */
  predicate IsActive(s: RentalStatus)
  {
    s == Approved || s == WaitingDelivery || s == InUse
  }

  /** Orders counted as completed. */
  predicate IsCompleted(s: RentalStatus)
  {
    s == Returned
  }

  /** Orders excluded from calendars, spending totals and the revenue trend. */
  predicate IsVoid(s: RentalStatus)
  {
    s == Cancelled || s == Rejected
  }

  /** Orders the admin dashboard counts as revenue. */
  predicate EarnsRevenue(s: RentalStatus)
  {
    s == Approved || s == InUse || s == Returned
  }
}
