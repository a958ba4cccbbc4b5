/** The customer list and customer detail, each with rental statistics and,
    in the list, the most recent rental. */
module Customers {
  import opened Wrappers
  import opened Statuses
  import opened Store
  import opened Text
  import opened Seqs

  datatype Statistics = Statistics(
    totalRentals: nat,
    activeRentals: nat,
    completedRentals: nat,
    totalSpent: nat)

  datatype LastRental = LastRental(rentalRef: string, status: RentalStatus, createdAt: int)

  datatype CustomerSummary = CustomerSummary(
    customer: Customer,
    statistics: Statistics,
    lastRental: Option<LastRental>)

  datatype CustomerDetail = CustomerDetail(
    customer: Customer,
    rentals: seq<RentalOrder>,
    statistics: Statistics)

  function Active(o: RentalOrder): bool
  {
    IsActive(o.status)
  }

  function Completed(o: RentalOrder): bool
  {
    IsCompleted(o.status)
  }

  /** Orders whose price counts towards what the customer spent. */
  function Spent(o: RentalOrder): bool
  {
    !IsVoid(o.status)
  }

  /** The statistics of a rental list, gathered in one pass. */
  function Tally(rentals: seq<RentalOrder>): (st: Statistics)
    ensures st.totalRentals == |rentals|
    ensures st.activeRentals == Count(rentals, Active)
    ensures st.completedRentals == Count(rentals, Completed)
    ensures st.totalSpent == SumBy(Filter(rentals, Spent), Price)
  {
    if rentals == [] then Statistics(0, 0, 0, 0)
    else
      var o := rentals[0];
      var rest := Tally(rentals[1..]);
      Statistics(
        rest.totalRentals + 1,
        rest.activeRentals + (if Active(o) then 1 else 0),
        rest.completedRentals + (if Completed(o) then 1 else 0),
        rest.totalSpent + (if Spent(o) then o.totalPrice else 0))
  }

  /** Active and completed rentals are disjoint, so together they never exceed the total. */
  lemma ActiveAndCompletedWithinTotal(rentals: seq<RentalOrder>)
    ensures Tally(rentals).activeRentals + Tally(rentals).completedRentals <= Tally(rentals).totalRentals
  {
    CountDisjoint(rentals, Active, Completed);
  }

  /** A customer's orders, newest first. */
  function RentalsOf(s: Store, customerId: int): (r: seq<RentalOrder>)
    ensures SortedBy(r, NewestFirst)
    ensures multiset(r) == multiset(Filter(s.orders, OfCustomer(customerId)))
    ensures |r| == Count(s.orders, OfCustomer(customerId))
  {
    SortBy(Filter(s.orders, OfCustomer(customerId)), NewestFirst)
  }

  /** The head of a newest-first rental list, if any. */
  function Latest(rentals: seq<RentalOrder>): Option<LastRental>
  {
    if rentals == [] then None
    else Some(LastRental(rentals[0].rentalRef, rentals[0].status, rentals[0].createdAt))
  }

  /** The last rental shown for a customer is one of their orders, none is more
      recent, and it is absent exactly when they have no orders. */
  lemma LatestIsNewest(s: Store, customerId: int)
    ensures var l := Latest(RentalsOf(s, customerId));
      && (l.None? <==> forall k :: 0 <= k < |s.orders| ==> s.orders[k].customerId != customerId)
      && (l.Some? ==>
            && (exists k :: 0 <= k < |s.orders| && s.orders[k].customerId == customerId
                            && s.orders[k].rentalRef == l.value.rentalRef
                            && s.orders[k].status == l.value.status
                            && s.orders[k].createdAt == l.value.createdAt)
            && (forall k :: 0 <= k < |s.orders| && s.orders[k].customerId == customerId
                            ==> s.orders[k].createdAt <= l.value.createdAt))
  {
    var rs := RentalsOf(s, customerId);
    var chosen := Filter(s.orders, OfCustomer(customerId));
    if rs == [] {
      assert |chosen| == |multiset(chosen)| == 0;
      forall k | 0 <= k < |s.orders|
        ensures s.orders[k].customerId != customerId
      {
        assert s.orders[k] in s.orders;
      }
    } else {
      assert rs[0] in multiset(chosen);
      assert rs[0] in s.orders;
      var k0 :| 0 <= k0 < |s.orders| && s.orders[k0] == rs[0];
      forall k | 0 <= k < |s.orders| && s.orders[k].customerId == customerId
        ensures s.orders[k].createdAt <= rs[0].createdAt
      {
        assert s.orders[k] in chosen;
        assert s.orders[k] in multiset(rs);
        var j :| 0 <= j < |rs| && rs[j] == s.orders[k];
        if j > 0 {
          assert NewestFirst(rs[0]) <= NewestFirst(rs[j]);
        }
      }
    }
  }

  function Summarize(s: Store, c: Customer): CustomerSummary
  {
    var rentals := RentalsOf(s, c.id);
    CustomerSummary(c, Tally(rentals), Latest(rentals))
  }

  function SummarizeAll(s: Store, cs: seq<Customer>): (r: seq<CustomerSummary>)
    ensures |r| == |cs|
    ensures forall i :: 0 <= i < |cs| ==> r[i] == Summarize(s, cs[i])
  {
    seq(|cs|, i requires 0 <= i < |cs| => Summarize(s, cs[i]))
  }

  function CustomerNewestFirst(c: Customer): int
  {
    -c.createdAt
  }

  /** The customers table reordered newest account first. */
  function CustomersNewestFirst(s: Store): (cs: seq<Customer>)
    ensures |cs| == |s.customers|
    ensures multiset(cs) == multiset(s.customers)
    ensures forall i, j :: 0 <= i < j < |cs| ==> cs[i].createdAt >= cs[j].createdAt
  {
    var sorted := SortBy(s.customers, CustomerNewestFirst);
    assert forall i, j :: 0 <= i < j < |sorted| ==> CustomerNewestFirst(sorted[i]) <= CustomerNewestFirst(sorted[j]);
    sorted
  }

  /** The customers the summaries describe, in list order. */
  function CustomersOf(r: seq<CustomerSummary>): (cs: seq<Customer>)
    ensures |cs| == |r|
    ensures forall i :: 0 <= i < |r| ==> cs[i] == r[i].customer
  {
    seq(|r|, i requires 0 <= i < |r| => r[i].customer)
  }

  /** Every customer exactly once, newest first, with statistics and the most
      recent rental taken from their own orders. */
  function FindAllCustomers(s: Store): (r: seq<CustomerSummary>)
    ensures |r| == |s.customers|
    ensures multiset(CustomersOf(r)) == multiset(s.customers)
    ensures forall i, j :: 0 <= i < j < |r| ==> r[i].customer.createdAt >= r[j].customer.createdAt
    ensures forall i :: 0 <= i < |r| ==>
      && r[i].statistics.totalRentals == Count(s.orders, OfCustomer(r[i].customer.id))
      && r[i].statistics == Tally(RentalsOf(s, r[i].customer.id))
      && r[i].lastRental == Latest(RentalsOf(s, r[i].customer.id))
  {
    var sorted := CustomersNewestFirst(s);
    SummariesOfSorted(s, sorted);
    SummarizeAll(s, sorted)
  }

  /** The summaries of the newest-first customers have the properties `FindAllCustomers` promises. */
  lemma SummariesOfSorted(s: Store, sorted: seq<Customer>)
    requires sorted == CustomersNewestFirst(s)
    ensures var r := SummarizeAll(s, sorted);
      && |r| == |s.customers|
      && multiset(CustomersOf(r)) == multiset(s.customers)
      && (forall i, j :: 0 <= i < j < |r| ==> r[i].customer.createdAt >= r[j].customer.createdAt)
      && (forall i :: 0 <= i < |r| ==>
            && r[i].statistics.totalRentals == Count(s.orders, OfCustomer(r[i].customer.id))
            && r[i].statistics == Tally(RentalsOf(s, r[i].customer.id))
            && r[i].lastRental == Latest(RentalsOf(s, r[i].customer.id)))
  {
    var r := SummarizeAll(s, sorted);
    assert multiset(CustomersOf(r)) == multiset(s.customers) by {
      assert CustomersOf(r) == sorted;
    }
    forall i | 0 <= i < |r|
      ensures r[i].statistics.totalRentals == Count(s.orders, OfCustomer(r[i].customer.id))
      ensures r[i].statistics == Tally(RentalsOf(s, r[i].customer.id))
      ensures r[i].lastRental == Latest(RentalsOf(s, r[i].customer.id))
    {
      SummaryOf(s, sorted[i]);
    }
  }

  /** A customer's summary carries the statistics and latest rental of their own orders. */
  lemma SummaryOf(s: Store, c: Customer)
    ensures Summarize(s, c).customer == c
    ensures Summarize(s, c).statistics.totalRentals == Count(s.orders, OfCustomer(c.id))
    ensures Summarize(s, c).statistics == Tally(RentalsOf(s, c.id))
    ensures Summarize(s, c).lastRental == Latest(RentalsOf(s, c.id))
  {
  }

  /** One customer with their rentals, newest first; a missing customer is a plain error. */
  function FindCustomer(s: Store, id: int): (r: Result<CustomerDetail>)
    ensures r.Ok? <==> IsId(id, |s.customers|)
    ensures r.Err? ==> r.error == ServerError("Customer #" + IntToString(id) + " not found")
    ensures r.Ok? ==>
      && r.value.customer == s.customers[id - 1]
      && r.value.rentals == RentalsOf(s, s.customers[id - 1].id)
      && r.value.statistics == Tally(r.value.rentals)
  {
    if !IsId(id, |s.customers|) then Err(ServerError("Customer #" + IntToString(id) + " not found"))
    else
      var c := s.customers[id - 1];
      var rentals := RentalsOf(s, c.id);
      Ok(CustomerDetail(c, rentals, Tally(rentals)))
  }

  /** The list and the detail report the same statistics for a customer. */
  lemma ListAndDetailAgree(s: Store, i: int)
    requires Valid(s)
    requires 0 <= i < |s.customers|
    ensures var c := FindAllCustomers(s)[i].customer;
      && FindCustomer(s, c.id).Ok?
      && FindCustomer(s, c.id).value.statistics == FindAllCustomers(s)[i].statistics
  {
    var c := FindAllCustomers(s)[i].customer;
    assert c == CustomersOf(FindAllCustomers(s))[i];
    assert c in multiset(s.customers);
    var k :| 0 <= k < |s.customers| && s.customers[k] == c;
    assert c.id == k + 1;
  }
}
