/** Booking a product: guards, inclusive day count, price, customer upsert by
    `lineUserId`, the `ORD-YYYYMMDD-NNNN` reference and the new order. */
module Rentals {
  import opened Wrappers
  import opened Statuses
  import opened Store
  import opened Text

  /** The booking form; dates are day numbers, `address` is accepted but never stored. */
  datatype RentalRequest = RentalRequest(
    productId: int,
    startDay: int,
    endDay: int,
    lineUserId: string,
    displayName: Option<string>,
    pictureUrl: Option<string>,
    firstName: string,
    lastName: string,
    phoneNumber: string,
    address: Option<string>)

  /** A calendar date as the local clock reports it. */
  datatype CivilDate = CivilDate(year: nat, month: nat, day: nat)

  predicate ValidDate(d: CivilDate)
  {
    d.year <= 9999 && 1 <= d.month <= 12 && 1 <= d.day <= 31
  }

  // ---------------------------------------------------------------- day count

  /** Whole days from start to end, counting the first day too. */
  function DayCount(startDay: int, endDay: int): (n: int)
    ensures n >= 1 <==> startDay <= endDay
    ensures startDay == endDay ==> n == 1
  {
    endDay - startDay + 1
  }

  /** Integer division truncated toward zero, as a day difference is rounded. */
  function TruncDiv(a: int, b: nat): int
    requires b > 0
  {
    if a >= 0 then a / b else -((-a) / b)
  }

  /** The day count as the date library computes it from two millisecond
      timestamps: the elapsed whole days, truncated toward zero, plus one. */
  function ElapsedDayCount(startMs: int, endMs: int): (n: int)
    ensures startMs <= endMs ==> n >= 1
    ensures endMs <= startMs - MsPerDay ==> n < 1
  {
    TruncDiv(endMs - startMs, MsPerDay) + 1
  }

  lemma ScaledDays(d: int)
    ensures TruncDiv(d * MsPerDay, MsPerDay) == d
  {
    if d < 0 {
      assert -(d * MsPerDay) == (-d) * MsPerDay;
    }
  }

  /** For dates at midnight the elapsed count is the inclusive day count. */
  lemma ElapsedDayCountOfDates(startDay: int, endDay: int)
    ensures ElapsedDayCount(startDay * MsPerDay, endDay * MsPerDay) == DayCount(startDay, endDay)
  {
    assert endDay * MsPerDay - startDay * MsPerDay == (endDay - startDay) * MsPerDay;
    ScaledDays(endDay - startDay);
  }

  /** With a time of day, an end twelve hours before the start still counts
      one day: 08:00 on day 1 to 20:00 on day 0. */
  lemma TimeOfDayAcceptsReversedRange()
    ensures var startMs := MsPerDay + 8 * 3_600_000;
      var endMs := 20 * 3_600_000;
      && endMs < startMs
      && DayOf(endMs) < DayOf(startMs)
      && ElapsedDayCount(startMs, endMs) == 1
  {
  }

  /** The calendar days a booking covers. */
  function DaysCovered(startDay: int, endDay: int): (days: set<int>)
    ensures forall d :: d in days <==> startDay <= d <= endDay
    decreases endDay - startDay
  {
    if endDay < startDay then {} else DaysCovered(startDay, endDay - 1) + {endDay}
  }

  /** The day count is the number of calendar days the range covers. */
  lemma {:induction false} DayCountCountsDays(startDay: int, endDay: int)
    requires startDay <= endDay
    ensures DayCount(startDay, endDay) == |DaysCovered(startDay, endDay)|
    decreases endDay - startDay
  {
    if startDay == endDay {
      assert DaysCovered(startDay, endDay - 1) == {};
    } else {
      DayCountCountsDays(startDay, endDay - 1);
      assert endDay !in DaysCovered(startDay, endDay - 1);
    }
  }

  /** The rental charge: the daily price times the number of days. */
  function Charge(pricePerDay: nat, days: nat): nat
  {
    pricePerDay * days
  }

  // ---------------------------------------------------------------- reference

  /** The `YYYYMMDD` rendering of a date. */
  function DateStamp(d: CivilDate): (s: string)
    requires ValidDate(d)
    ensures |s| == 8 && AllDigits(s)
  {
    Pow10Values();
    PadDecimal(d.year, 4) + PadDecimal(d.month, 2) + PadDecimal(d.day, 2)
  }

  /** The order reference: `ORD-`, today's date stamp, `-`, and the random draw. */
  function OrderRef(today: CivilDate, draw: int): (r: string)
    requires ValidDate(today)
    requires 1000 <= draw <= 9999
    ensures |r| == 17
    ensures r[..4] == "ORD-" && r[12] == '-'
    ensures AllDigits(r[4..12]) && AllDigits(r[13..])
  {
    Pow10Values();
    DecimalLength(draw, 4);
    var r := "ORD-" + DateStamp(today) + "-" + Decimal(draw);
    assert r[4..12] == DateStamp(today);
    assert r[13..] == Decimal(draw);
    r
  }

  /** Reads a reference back into its date and draw. */
  function ParseRef(r: string): Option<(CivilDate, nat)>
  {
    if && |r| == 17 && r[..4] == "ORD-" && r[12] == '-'
       && AllDigits(r[4..8]) && AllDigits(r[8..10]) && AllDigits(r[10..12]) && AllDigits(r[13..])
    then
      Some((CivilDate(DecimalValue(r[4..8]), DecimalValue(r[8..10]), DecimalValue(r[10..12])),
            DecimalValue(r[13..])))
    else None
  }

  /** A reference determines the date and the draw it was made from. */
  lemma RefRoundTrip(today: CivilDate, draw: int)
    requires ValidDate(today)
    requires 1000 <= draw <= 9999
    ensures ParseRef(OrderRef(today, draw)) == Some((today, draw as nat))
  {
    Pow10Values();
    DecimalLength(draw, 4);
    var r := OrderRef(today, draw);
    assert r == "ORD-" + PadDecimal(today.year, 4) + PadDecimal(today.month, 2)
                + PadDecimal(today.day, 2) + "-" + Decimal(draw);
    assert r[4..8] == PadDecimal(today.year, 4);
    assert r[8..10] == PadDecimal(today.month, 2);
    assert r[10..12] == PadDecimal(today.day, 2);
    assert r[13..] == Decimal(draw);
  }

  /** Two references collide exactly when they were made on the same date with the same draw. */
  lemma RefCollision(d1: CivilDate, n1: int, d2: CivilDate, n2: int)
    requires ValidDate(d1) && 1000 <= n1 <= 9999
    requires ValidDate(d2) && 1000 <= n2 <= 9999
    ensures OrderRef(d1, n1) == OrderRef(d2, n2) <==> d1 == d2 && n1 == n2
  {
    RefRoundTrip(d1, n1);
    RefRoundTrip(d2, n2);
  }

  // ---------------------------------------------------------------- customer upsert

  /** The index of the customer holding `lineUserId`, if any. */
  function FindCustomer(cs: seq<Customer>, lineUserId: string): (r: Option<nat>)
    ensures r.Some? ==> r.value < |cs| && cs[r.value].lineUserId == lineUserId
    ensures r.None? <==> forall i :: 0 <= i < |cs| ==> cs[i].lineUserId != lineUserId
  {
    if cs == [] then None
    else if cs[|cs| - 1].lineUserId == lineUserId then Some(|cs| - 1)
    else FindCustomer(cs[..|cs| - 1], lineUserId)
  }

  /** A database update writes a field only when a value is supplied for it. */
  function Supplied<T>(current: Option<T>, supplied: Option<T>): Option<T>
  {
    if supplied.Some? then supplied else current
  }

  function NewCustomer(id: int, req: RentalRequest, now: int): Customer
  {
    Customer(id, req.lineUserId, req.displayName, req.pictureUrl,
             Some(req.firstName), Some(req.lastName), Some(req.phoneNumber), now)
  }

  function Refreshed(c: Customer, req: RentalRequest): Customer
  {
    c.(displayName := Supplied(c.displayName, req.displayName),
       pictureUrl := Supplied(c.pictureUrl, req.pictureUrl),
       firstName := Some(req.firstName),
       lastName := Some(req.lastName),
       phoneNumber := Some(req.phoneNumber))
  }

  /** Updates the profile of the customer holding `req.lineUserId`, or adds one;
      returns the new table and the customer's id. */
  function UpsertCustomer(cs: seq<Customer>, req: RentalRequest, now: int): (r: (seq<Customer>, int))
    ensures |cs| <= |r.0| <= |cs| + 1
    ensures IsId(r.1, |r.0|)
    ensures r.0[r.1 - 1].lineUserId == req.lineUserId
    ensures r.0[r.1 - 1].firstName == Some(req.firstName)
    ensures r.0[r.1 - 1].lastName == Some(req.lastName)
    ensures r.0[r.1 - 1].phoneNumber == Some(req.phoneNumber)
    ensures req.displayName.Some? ==> r.0[r.1 - 1].displayName == req.displayName
    ensures req.pictureUrl.Some? ==> r.0[r.1 - 1].pictureUrl == req.pictureUrl
    ensures (exists i :: 0 <= i < |cs| && cs[i].lineUserId == req.lineUserId) ==>
      && |r.0| == |cs|
      && r.0[r.1 - 1].lineUserId == cs[r.1 - 1].lineUserId
      && r.0[r.1 - 1].createdAt == cs[r.1 - 1].createdAt
      && (req.displayName.None? ==> r.0[r.1 - 1].displayName == cs[r.1 - 1].displayName)
      && (req.pictureUrl.None? ==> r.0[r.1 - 1].pictureUrl == cs[r.1 - 1].pictureUrl)
      && (forall i :: 0 <= i < |cs| && i != r.1 - 1 ==> r.0[i] == cs[i])
    ensures (forall i :: 0 <= i < |cs| ==> cs[i].lineUserId != req.lineUserId) ==>
      && r.0[..|cs|] == cs
      && r.1 == |cs| + 1
      && r.0[r.1 - 1].createdAt == now
      && r.0[r.1 - 1].displayName == req.displayName
      && r.0[r.1 - 1].pictureUrl == req.pictureUrl
  {
    match FindCustomer(cs, req.lineUserId)
    case Some(i) => (cs[i := Refreshed(cs[i], req)], i + 1)
    case None => (cs + [NewCustomer(|cs| + 1, req, now)], |cs| + 1)
  }

  /** After the upsert exactly one customer holds the booking's `lineUserId`,
      and the table still has ids matching positions and unique `lineUserId`s. */
  lemma UpsertKeepsOneCustomerPerLine(cs: seq<Customer>, req: RentalRequest, now: int)
    requires forall i :: 0 <= i < |cs| ==> cs[i].id == i + 1
    requires forall i, j :: 0 <= i < j < |cs| ==> cs[i].lineUserId != cs[j].lineUserId
    ensures var (cs', id) := UpsertCustomer(cs, req, now);
      && (forall i :: 0 <= i < |cs'| ==> cs'[i].id == i + 1)
      && (forall i, j :: 0 <= i < j < |cs'| ==> cs'[i].lineUserId != cs'[j].lineUserId)
      && (forall i :: 0 <= i < |cs'| && cs'[i].lineUserId == req.lineUserId ==> i == id - 1)
  {
  }

  // ---------------------------------------------------------------- creation

  /** The write half of a booking whose guards have passed: upsert the
      customer and append the new order. */
  function PlaceOrder(s: Store, p: Product, req: RentalRequest, now: int, today: CivilDate, draw: int)
    : (r: (Store, RentalOrder))
    requires ValidDate(today)
    requires 1000 <= draw <= 9999
    requires req.startDay <= req.endDay
    ensures r.0.orders == s.orders + [r.1]
    ensures r.1.id == |s.orders| + 1
    ensures r.1.status == PendingPayment
    ensures r.1.totalPrice == p.pricePerDay * |DaysCovered(req.startDay, req.endDay)|
    ensures r.1.depositAmount == p.deposit
    ensures r.1.productId == p.id && r.1.branchId == p.branchId
    ensures r.1.startDay == req.startDay && r.1.endDay == req.endDay
    ensures r.1.createdAt == now
    ensures ParseRef(r.1.rentalRef) == Some((today, draw as nat))
    ensures IsId(r.1.customerId, |r.0.customers|)
    ensures r.0.customers[r.1.customerId - 1].lineUserId == req.lineUserId
    ensures (r.0.customers, r.1.customerId) == UpsertCustomer(s.customers, req, now)
    ensures r.0.branches == s.branches && r.0.products == s.products
    ensures r.0.payments == s.payments && r.0.history == s.history
  {
    var (customers', customerId) := UpsertCustomer(s.customers, req, now);
    DayCountCountsDays(req.startDay, req.endDay);
    RefRoundTrip(today, draw);
    var o := RentalOrder(
      id := |s.orders| + 1,
      rentalRef := OrderRef(today, draw),
      startDay := req.startDay,
      endDay := req.endDay,
      totalPrice := Charge(p.pricePerDay, DayCount(req.startDay, req.endDay)),
      depositAmount := p.deposit,
      status := PendingPayment,
      customerId := customerId,
      productId := p.id,
      branchId := p.branchId,
      createdAt := now);
    (s.(customers := customers', orders := s.orders + [o]), o)
  }

  /** Books a product. Fails, before anything is written, when the product is
      missing, is not AVAILABLE, or the range ends before it starts; no other
      order of the product is consulted. */
  function CreateRental(s: Store, req: RentalRequest, now: int, today: CivilDate, draw: int)
    : (r: Result<(Store, RentalOrder)>)
    requires ValidDate(today)
    requires 1000 <= draw <= 9999
    ensures !IsId(req.productId, |s.products|) ==> r == Err(NotFound("Product not found"))
    ensures (IsId(req.productId, |s.products|) && s.products[req.productId - 1].status != Available)
            ==> r == Err(BadRequest("Product is not available"))
    ensures (&& IsId(req.productId, |s.products|)
             && s.products[req.productId - 1].status == Available
             && req.endDay < req.startDay)
            ==> r == Err(BadRequest("Invalid date range"))
    ensures r.Ok? <==> (&& IsId(req.productId, |s.products|)
                        && s.products[req.productId - 1].status == Available
                        && req.startDay <= req.endDay)
    ensures r.Ok? ==> r.value == PlaceOrder(s, s.products[req.productId - 1], req, now, today, draw)
  {
    if !IsId(req.productId, |s.products|) then Err(NotFound("Product not found"))
    else
      var p := s.products[req.productId - 1];
      if p.status != Available then Err(BadRequest("Product is not available"))
      else if DayCount(req.startDay, req.endDay) < 1 then Err(BadRequest("Invalid date range"))
      else Ok(PlaceOrder(s, p, req, now, today, draw))
  }

  /** Adding an order whose links resolve, next to a grown customer table that
      keeps its ids and unique `lineUserId`s, keeps every database constraint. */
  lemma ValidAfterBooking(s: Store, cs': seq<Customer>, o: RentalOrder)
    requires Valid(s)
    requires |s.customers| <= |cs'|
    requires forall i :: 0 <= i < |cs'| ==> cs'[i].id == i + 1
    requires forall i, j :: 0 <= i < j < |cs'| ==> cs'[i].lineUserId != cs'[j].lineUserId
    requires OrderLinksResolve(s.(customers := cs'), o, |s.orders|)
    ensures Valid(s.(customers := cs', orders := s.orders + [o]))
  {
    var s' := s.(customers := cs', orders := s.orders + [o]);
    forall i | 0 <= i < |s'.orders|
      ensures OrderLinksResolve(s', s'.orders[i], i)
    {
      if i < |s.orders| {
        assert s'.orders[i] == s.orders[i];
        assert OrderLinksResolve(s, s.orders[i], i);
      }
    }
  }

  /** Booking keeps every database constraint. */
  lemma CreateRentalPreservesValid(s: Store, req: RentalRequest, now: int, today: CivilDate, draw: int)
    requires Valid(s)
    requires ValidDate(today)
    requires 1000 <= draw <= 9999
    ensures var r := CreateRental(s, req, now, today, draw);
      r.Ok? ==> Valid(r.value.0)
  {
    var r := CreateRental(s, req, now, today, draw);
    if r.Ok? {
      var (s', o) := r.value;
      UpsertKeepsOneCustomerPerLine(s.customers, req, now);
      assert s'.customers == UpsertCustomer(s.customers, req, now).0;
      ValidAfterBooking(s, s'.customers, o);
      assert s' == s.(customers := s'.customers, orders := s.orders + [o]);
    }
  }

  /** Booking twice with the same `lineUserId` adds no second customer and keeps
      the latest supplied display name. */
  lemma RepeatBookingReusesCustomer(s: Store, req1: RentalRequest, req2: RentalRequest,
                                    now1: int, now2: int, today: CivilDate, draw1: int, draw2: int)
    requires Valid(s)
    requires ValidDate(today)
    requires 1000 <= draw1 <= 9999 && 1000 <= draw2 <= 9999
    requires req1.lineUserId == req2.lineUserId
    requires CreateRental(s, req1, now1, today, draw1).Ok?
    requires CreateRental(CreateRental(s, req1, now1, today, draw1).value.0, req2, now2, today, draw2).Ok?
    ensures var (s1, o1) := CreateRental(s, req1, now1, today, draw1).value;
      var (s2, o2) := CreateRental(s1, req2, now2, today, draw2).value;
      && |s2.customers| == |s1.customers|
      && o2.customerId == o1.customerId
      && (req2.displayName.Some? ==> s2.customers[o2.customerId - 1].displayName == req2.displayName)
  {
    var (s1, o1) := CreateRental(s, req1, now1, today, draw1).value;
    CreateRentalPreservesValid(s, req1, now1, today, draw1);
    var (s2, o2) := CreateRental(s1, req2, now2, today, draw2).value;
    assert s1.customers[o1.customerId - 1].lineUserId == req2.lineUserId;
    var found := FindCustomer(s1.customers, req2.lineUserId);
    assert found.Some?;
    assert found.value == o1.customerId - 1;
  }
}
