/** The analytics overview: a summary, the most rented products, the latest
    orders, a fixed-length revenue trend and the status distribution. Unlike the
    dashboard it counts revenue from RETURNED orders in the summary and from
    every order that is not void in the trend. */
module Analytics {
  import opened Wrappers
  import opened Statuses
  import opened Store
  import opened Text
  import opened Seqs
  import Dashboard

  function Active(o: RentalOrder): bool
  {
    IsActive(o.status)
  }

  function Completed(o: RentalOrder): bool
  {
    IsCompleted(o.status)
  }

  // ---------------------------------------------------------------- summary

  datatype Summary = Summary(
    todayOrders: nat,
    totalProducts: nat,
    activeBranches: nat,
    activeRentals: nat,
    totalCustomers: nat,
    totalRevenue: nat)

  function GetSummary(s: Store, today: int): (r: Summary)
    ensures r.activeRentals == Count(s.orders, Active)
    ensures r.totalRevenue == SumBy(Filter(s.orders, Completed), Price)
    ensures r.todayOrders == Count(s.orders, Dashboard.CreatedOn(today))
    ensures r.activeBranches == Count(s.branches, Dashboard.ActiveBranch)
    ensures r.totalProducts == |s.products| && r.totalCustomers == |s.customers|
  {
    Summary(
      todayOrders := Count(s.orders, Dashboard.CreatedOn(today)),
      totalProducts := |s.products|,
      activeBranches := Count(s.branches, Dashboard.ActiveBranch),
      activeRentals := Count(s.orders, Active),
      totalCustomers := |s.customers|,
      totalRevenue := SumBy(Filter(s.orders, Completed), Price))
  }

  /** With no RETURNED order the revenue is 0. */
  lemma NoReturnsNoRevenue(s: Store, today: int)
    requires forall i :: 0 <= i < |s.orders| ==> s.orders[i].status != Returned
    ensures GetSummary(s, today).totalRevenue == 0
  {
    FilterNone(s.orders, Completed);
  }

  /** The summary counts more orders as active and less revenue than the
      dashboard's figures for the same store: IN_USE is one of its three active
      statuses, and RETURNED one of the dashboard's three earning statuses. */
  lemma SummaryAgainstDashboard(s: Store, today: int, monthStart: int, nextMonthStart: int)
    ensures Dashboard.GetStats(s, today, monthStart, nextMonthStart).activeRentals <= GetSummary(s, today).activeRentals
    ensures GetSummary(s, today).totalRevenue <= Dashboard.GetStats(s, today, monthStart, nextMonthStart).totalRevenue
    ensures GetSummary(s, today).todayOrders == Dashboard.GetStats(s, today, monthStart, nextMonthStart).todayOrders
  {
    CountMono(s.orders, Dashboard.BeingUsed, Active);
    SumMono(s.orders, Completed, Dashboard.Earning, Price);
  }

  // ---------------------------------------------------------------- most rented products

  datatype RankedProduct = RankedProduct(
    id: int,
    name: string,
    branchName: string,
    rentalCount: nat,
    pricePerDay: nat)

  /** The name of branch `id`, or empty when no such branch exists (the
      foreign key rules that out in a valid store). */
  function BranchName(s: Store, id: int): string
  {
    if IsId(id, |s.branches|) then s.branches[id - 1].name else ""
  }

  /** A product's row: its rentals of every status counted. */
  function Ranking(s: Store, p: Product): RankedProduct
  {
    RankedProduct(p.id, p.name, BranchName(s, p.branchId), Count(s.orders, OfProduct(p.id)), p.pricePerDay)
  }

  function Rankings(s: Store): (r: seq<RankedProduct>)
    ensures |r| == |s.products|
    ensures forall i :: 0 <= i < |r| ==> r[i] == Ranking(s, s.products[i])
  {
    seq(|s.products|, i requires 0 <= i < |s.products| => Ranking(s, s.products[i]))
  }

  function ByRentalsDesc(e: RankedProduct): int
  {
    -(e.rentalCount as int)
  }

  /** How many products and orders the overview lists. */
  const TopCount := 5

  lemma RankingCountsItsRentals(s: Store, e: RankedProduct)
    requires e in Rankings(s)
    ensures e.rentalCount == Count(s.orders, OfProduct(e.id))
  {
    var i :| 0 <= i < |Rankings(s)| && Rankings(s)[i] == e;
  }

  /** The five products with the most rentals of any status, most first. */
  function TopProducts(s: Store): (r: seq<RankedProduct>)
    ensures |r| == if |s.products| < TopCount then |s.products| else TopCount
    ensures forall i, j :: 0 <= i < j < |r| ==> r[i].rentalCount >= r[j].rentalCount
    ensures multiset(r) <= multiset(Rankings(s))
    ensures forall e :: e in r ==> e.rentalCount == Count(s.orders, OfProduct(e.id))
    ensures forall e, e' :: e in r && e' in multiset(Rankings(s)) - multiset(r) ==>
      e.rentalCount >= e'.rentalCount
  {
    var r := TopBy(Rankings(s), ByRentalsDesc, TopCount);
    TopRankings(s, r);
    r
  }

  lemma TopRankings(s: Store, r: seq<RankedProduct>)
    requires |r| == SliceEnd(|Rankings(s)|, TopCount)
    requires SortedBy(r, ByRentalsDesc)
    requires multiset(r) <= multiset(Rankings(s))
    requires forall x, y :: x in r && y in multiset(Rankings(s)) - multiset(r) ==> ByRentalsDesc(x) <= ByRentalsDesc(y)
    ensures |r| == if |s.products| < TopCount then |s.products| else TopCount
    ensures forall i, j :: 0 <= i < j < |r| ==> r[i].rentalCount >= r[j].rentalCount
    ensures forall e :: e in r ==> e.rentalCount == Count(s.orders, OfProduct(e.id))
    ensures forall e, e' :: e in r && e' in multiset(Rankings(s)) - multiset(r) ==>
      e.rentalCount >= e'.rentalCount
  {
    forall e | e in r
      ensures e.rentalCount == Count(s.orders, OfProduct(e.id))
    {
      assert e in multiset(Rankings(s));
      RankingCountsItsRentals(s, e);
    }
    forall e, e' | e in r && e' in multiset(Rankings(s)) - multiset(r)
      ensures e.rentalCount >= e'.rentalCount
    {
      assert ByRentalsDesc(e) <= ByRentalsDesc(e');
    }
  }

  // ---------------------------------------------------------------- latest orders

  /** The text `firstName || ''` yields. */
  function OrEmpty(x: Option<string>): string
  {
    if x.Some? then x.value else ""
  }

  /** The name shown for a customer: first and last name joined by a space and
      trimmed, or the display name when that leaves nothing. */
  function CustomerName(c: Customer): (r: Option<string>)
    ensures Trim(OrEmpty(c.firstName) + " " + OrEmpty(c.lastName)) == [] ==> r == c.displayName
    ensures Trim(OrEmpty(c.firstName) + " " + OrEmpty(c.lastName)) != [] ==>
      r.Some? && r.value != [] && !IsJsWhitespace(r.value[0]) && !IsJsWhitespace(r.value[|r.value| - 1])
  {
    var joined := Trim(OrEmpty(c.firstName) + " " + OrEmpty(c.lastName));
    if joined == [] then c.displayName else Some(joined)
  }

  /** A name with no whitespace at its ends. */
  predicate Clean(n: string)
  {
    n != [] && !IsJsWhitespace(n[0]) && !IsJsWhitespace(n[|n| - 1])
  }

  lemma NameFromBothParts(c: Customer)
    requires c.firstName.Some? && Clean(c.firstName.value)
    requires c.lastName.Some? && Clean(c.lastName.value)
    ensures CustomerName(c) == Some(c.firstName.value + " " + c.lastName.value)
  {
    var n := c.firstName.value + " " + c.lastName.value;
    assert n[0] == c.firstName.value[0];
    assert n[|n| - 1] == c.lastName.value[|c.lastName.value| - 1];
    TrimPadded("", n, "");
    assert "" + n + "" == n;
  }

  lemma NameFromFirstOnly(c: Customer)
    requires c.firstName.Some? && Clean(c.firstName.value)
    requires c.lastName.None? || c.lastName == Some("")
    ensures CustomerName(c) == c.firstName
  {
    TrimPadded("", c.firstName.value, " ");
    assert "" + c.firstName.value + " " == c.firstName.value + " " + "";
  }

  lemma NameFromLastOnly(c: Customer)
    requires c.firstName.None? || c.firstName == Some("")
    requires c.lastName.Some? && Clean(c.lastName.value)
    ensures CustomerName(c) == c.lastName
  {
    var last := c.lastName.value;
    assert OrEmpty(c.firstName) + " " + OrEmpty(c.lastName) == " " + last + "";
    TrimPadded(" ", last, "");
  }

  /** With both name parts missing or blank the display name is shown. */
  lemma NameFallsBack(c: Customer)
    requires AllWhitespace(OrEmpty(c.firstName)) && AllWhitespace(OrEmpty(c.lastName))
    ensures CustomerName(c) == c.displayName
  {
    var n := OrEmpty(c.firstName) + " " + OrEmpty(c.lastName);
    assert AllWhitespace(n) by {
      forall m | 0 <= m < |n|
        ensures IsJsWhitespace(n[m])
      {
        if m < |OrEmpty(c.firstName)| {
          assert n[m] == OrEmpty(c.firstName)[m];
        } else if m > |OrEmpty(c.firstName)| {
          assert n[m] == OrEmpty(c.lastName)[m - |OrEmpty(c.firstName)| - 1];
        }
      }
    }
  }

  datatype RecentOrder = RecentOrder(
    id: int,
    rentalRef: string,
    customerName: Option<string>,
    productName: string,
    totalPrice: nat,
    status: string,
    createdAt: int)

  /** The order's row; a customer or product the foreign keys would rule out
      reads as no name. */
  function Recent(s: Store, o: RentalOrder): RecentOrder
  {
    RecentOrder(
      o.id, o.rentalRef,
      if IsId(o.customerId, |s.customers|) then CustomerName(s.customers[o.customerId - 1]) else None,
      if IsId(o.productId, |s.products|) then s.products[o.productId - 1].name else "",
      o.totalPrice, Name(o.status), o.createdAt)
  }

  /** The five latest orders with their customer's name and product name: the
      rows of the first orders of the table stably sorted newest first. */
  function RecentOrders(s: Store): (r: seq<RecentOrder>)
    ensures |r| == if |s.orders| < TopCount then |s.orders| else TopCount
    ensures r == Rows(s, SortBy(s.orders, NewestFirst)[..|r|])
    ensures forall i, j :: 0 <= i < j < |r| ==> r[i].createdAt >= r[j].createdAt
    ensures forall i :: 0 <= i < |r| ==> ShowsAnOrder(s, r[i])
    ensures forall i, o :: 0 <= i < |r| && o in s.orders && o.createdAt > r[i].createdAt ==>
      exists j :: 0 <= j < |r| && r[j].id == o.id
  {
    var latest := TopBy(s.orders, NewestFirst, TopCount);
    RecentRows(s, latest);
    Rows(s, latest)
  }

  /** The rows of the newest orders, ordered and complete as the result of `RecentOrders` is. */
  lemma RecentRows(s: Store, latest: seq<RentalOrder>)
    requires latest == TopBy(s.orders, NewestFirst, TopCount)
    ensures var r := Rows(s, latest);
      && |r| == (if |s.orders| < TopCount then |s.orders| else TopCount)
      && r == Rows(s, SortBy(s.orders, NewestFirst)[..|r|])
      && (forall i, j :: 0 <= i < j < |r| ==> r[i].createdAt >= r[j].createdAt)
      && (forall i :: 0 <= i < |r| ==> ShowsAnOrder(s, r[i]))
      && (forall i, o :: 0 <= i < |r| && o in s.orders && o.createdAt > r[i].createdAt ==>
            exists j :: 0 <= j < |r| && r[j].id == o.id)
  {
    RowsNewestFirst(s, latest);
    RowsFromOrders(s, latest);
    RowsMissNothingNewer(s, latest);
  }

  /** Under the constraints the recent rows show distinct orders. */
  lemma RecentRowsDistinct(s: Store)
    requires Valid(s)
    ensures forall i, j :: 0 <= i < j < |RecentOrders(s)| ==> RecentOrders(s)[i].id != RecentOrders(s)[j].id
  {
    var r := RecentOrders(s);
    var sorted := SortBy(s.orders, NewestFirst);
    forall a, b | 0 <= a < b < |s.orders|
      ensures OrderId(s.orders[a]) != OrderId(s.orders[b])
    {
      OrderIdsDistinct(s, a, b);
    }
    PermutationDistinctBy(s.orders, sorted, OrderId);
    forall i, j | 0 <= i < j < |r|
      ensures r[i].id != r[j].id
    {
      assert r[i].id == OrderId(sorted[i]) && r[j].id == OrderId(sorted[j]);
    }
  }

  function Rows(s: Store, latest: seq<RentalOrder>): (r: seq<RecentOrder>)
    ensures |r| == |latest|
    ensures forall i :: 0 <= i < |r| ==> r[i] == Recent(s, latest[i])
  {
    seq(|latest|, i requires 0 <= i < |latest| => Recent(s, latest[i]))
  }

  /** Rows of orders in newest-first order are newest first. */
  lemma RowsNewestFirst(s: Store, latest: seq<RentalOrder>)
    requires SortedBy(latest, NewestFirst)
    ensures forall i, j :: 0 <= i < j < |Rows(s, latest)| ==> Rows(s, latest)[i].createdAt >= Rows(s, latest)[j].createdAt
  {
    var r := Rows(s, latest);
    forall i, j | 0 <= i < j < |r|
      ensures r[i].createdAt >= r[j].createdAt
    {
      assert NewestFirst(latest[i]) <= NewestFirst(latest[j]);
    }
  }

  /** `row` is the row of some order of the table. */
  predicate ShowsAnOrder(s: Store, row: RecentOrder)
  {
    exists j :: 0 <= j < |s.orders| && row == Recent(s, s.orders[j])
  }

  /** Rows of orders taken from the table each show one of its orders. */
  lemma RowsFromOrders(s: Store, latest: seq<RentalOrder>)
    requires multiset(latest) <= multiset(s.orders)
    ensures forall i :: 0 <= i < |Rows(s, latest)| ==> ShowsAnOrder(s, Rows(s, latest)[i])
  {
    forall i | 0 <= i < |Rows(s, latest)| {
      RowFromOrder(s, latest, i);
    }
  }

  lemma RowFromOrder(s: Store, latest: seq<RentalOrder>, i: int)
    requires multiset(latest) <= multiset(s.orders)
    requires 0 <= i < |Rows(s, latest)|
    ensures ShowsAnOrder(s, Rows(s, latest)[i])
  {
    assert latest[i] in multiset(s.orders);
    var j :| 0 <= j < |s.orders| && s.orders[j] == latest[i];
    assert Rows(s, latest)[i] == Recent(s, s.orders[j]);
  }

  /** Rows of the newest orders leave out no order newer than one they show. */
  lemma RowsMissNothingNewer(s: Store, latest: seq<RentalOrder>)
    requires forall x, y :: x in latest && y in multiset(s.orders) - multiset(latest) ==> NewestFirst(x) <= NewestFirst(y)
    ensures forall i, o :: 0 <= i < |Rows(s, latest)| && o in s.orders && o.createdAt > Rows(s, latest)[i].createdAt ==>
      exists j :: 0 <= j < |Rows(s, latest)| && Rows(s, latest)[j].id == o.id
  {
    var r := Rows(s, latest);
    forall i, o | 0 <= i < |r| && o in s.orders && o.createdAt > r[i].createdAt
      ensures exists j :: 0 <= j < |r| && r[j].id == o.id
    {
      assert latest[i] in latest;
      assert o in multiset(s.orders);
      assert NewestFirst(latest[i]) > NewestFirst(o);
      assert o !in multiset(s.orders) - multiset(latest);
      assert o in multiset(latest);
      var j :| 0 <= j < |latest| && latest[j] == o;
      assert r[j].id == o.id;
    }
  }

  // ---------------------------------------------------------------- revenue trend

  datatype TrendPoint = TrendPoint(day: int, revenue: nat)

  /** Orders created on `day` that were not cancelled or rejected. */
  function LiveOn(day: int): RentalOrder -> bool
  {
    (o: RentalOrder) => !IsVoid(o.status) && DayOf(o.createdAt) == day
  }

  /** One point for each of the `days` days ending today, oldest first, each
      with the revenue of that day's orders that are not void. */
  method RevenueTrend(orders: seq<RentalOrder>, today: int, days: int) returns (trend: seq<TrendPoint>)
    ensures |trend| == if days > 0 then days else 0
    ensures forall k :: 0 <= k < |trend| ==> trend[k].day == today - |trend| + 1 + k
    ensures forall k :: 0 <= k < |trend| ==>
      trend[k].revenue == SumBy(Filter(orders, LiveOn(trend[k].day)), Price)
  {
    trend := [];
    var i := days - 1;
    while i >= 0
      invariant i < 0 ==> |trend| == if days > 0 then days else 0
      invariant i >= 0 ==> |trend| == days - 1 - i
      invariant forall k :: 0 <= k < |trend| ==> trend[k].day == today - (days - 1) + k
      invariant forall k :: 0 <= k < |trend| ==>
        trend[k].revenue == SumBy(Filter(orders, LiveOn(trend[k].day)), Price)
    {
      var day := today - i;
      trend := trend + [TrendPoint(day, SumBy(Filter(orders, LiveOn(day)), Price))];
      i := i - 1;
    }
  }

  /** A day with no live order shows 0. */
  lemma QuietDayShowsZero(orders: seq<RentalOrder>, day: int)
    requires forall i :: 0 <= i < |orders| ==> !LiveOn(day)(orders[i])
    ensures SumBy(Filter(orders, LiveOn(day)), Price) == 0
  {
    FilterNone(orders, LiveOn(day));
  }

  /** The trend counts at least the revenue the dashboard chart shows for the
      same day, since every earning order is live. */
  lemma TrendCoversChart(orders: seq<RentalOrder>, day: int)
    ensures SumBy(Filter(orders, Dashboard.EarningOn(day)), Price) <= SumBy(Filter(orders, LiveOn(day)), Price)
  {
    SumMono(orders, Dashboard.EarningOn(day), LiveOn(day), Price);
  }

  // ---------------------------------------------------------------- status distribution

  function Occurs(orders: seq<RentalOrder>): RentalStatus -> bool
  {
    (st: RentalStatus) => Count(orders, HasStatus(st)) > 0
  }

  /** One count per status of `sts`, in that order. */
  function CountsOf(orders: seq<RentalOrder>, sts: seq<RentalStatus>): (r: seq<Dashboard.StatusCount>)
    ensures |r| == |sts|
    ensures forall i :: 0 <= i < |r| ==> r[i] == Dashboard.StatusCount(Name(sts[i]), Count(orders, HasStatus(sts[i])))
  {
    seq(|sts|, i requires 0 <= i < |sts| => Dashboard.StatusCount(Name(sts[i]), Count(orders, HasStatus(sts[i]))))
  }

  /** The statuses that occur, each with its number of orders. */
  function StatusDistribution(orders: seq<RentalOrder>): (r: seq<Dashboard.StatusCount>)
    ensures |r| <= |AllStatuses|
    ensures forall i :: 0 <= i < |r| ==> r[i].count > 0
    ensures forall st :: Count(orders, HasStatus(st)) > 0 <==>
      exists i :: 0 <= i < |r| && r[i] == Dashboard.StatusCount(Name(st), Count(orders, HasStatus(st)))
    ensures forall i :: 0 <= i < |r| ==>
      exists st :: Count(orders, HasStatus(st)) > 0 && r[i] == Dashboard.StatusCount(Name(st), Count(orders, HasStatus(st)))
    ensures forall i, j :: 0 <= i < j < |r| ==> r[i].status != r[j].status
  {
    var present := Filter(AllStatuses, Occurs(orders));
    DistributionListsPresent(orders, present);
    DistributionEntriesNamePresent(orders, present);
    DistributionNamesDistinct(orders, present);
    CountsOf(orders, present)
  }

  /** Each entry is the count of a status that occurs. */
  lemma DistributionEntriesNamePresent(orders: seq<RentalOrder>, present: seq<RentalStatus>)
    requires present == Filter(AllStatuses, Occurs(orders))
    ensures forall i :: 0 <= i < |CountsOf(orders, present)| ==>
      exists st :: Count(orders, HasStatus(st)) > 0
                   && CountsOf(orders, present)[i] == Dashboard.StatusCount(Name(st), Count(orders, HasStatus(st)))
  {
    forall i | 0 <= i < |CountsOf(orders, present)|
      ensures exists st :: Count(orders, HasStatus(st)) > 0
                   && CountsOf(orders, present)[i] == Dashboard.StatusCount(Name(st), Count(orders, HasStatus(st)))
    {
      var st := present[i];
      assert Occurs(orders)(st);
    }
  }

  /** No two entries name the same status. */
  lemma DistributionNamesDistinct(orders: seq<RentalOrder>, present: seq<RentalStatus>)
    requires present == Filter(AllStatuses, Occurs(orders))
    ensures forall i, j :: 0 <= i < j < |CountsOf(orders, present)| ==>
      CountsOf(orders, present)[i].status != CountsOf(orders, present)[j].status
  {
    assert DistinctBy(AllStatuses, Rank) by {
      AllStatusesByRank();
    }
    FilterDistinctBy(AllStatuses, Occurs(orders), Rank);
    forall i, j | 0 <= i < j < |present|
      ensures Name(present[i]) != Name(present[j])
    {
      NameInjective(present[i], present[j]);
    }
  }

  /** A status's place in the report order, as an integer key. */
  function Rank(st: RentalStatus): int
  {
    Position(st)
  }

  lemma AllStatusesByRank()
    ensures DistinctBy(AllStatuses, Rank)
  {
    forall i, j | 0 <= i < j < |AllStatuses|
      ensures Rank(AllStatuses[i]) != Rank(AllStatuses[j])
    {
      AllStatusesListsEachOnce();
      assert AllStatuses[Position(AllStatuses[i])] == AllStatuses[i];
    }
  }

  lemma NameInjective(a: RentalStatus, b: RentalStatus)
    requires a != b
    ensures Name(a) != Name(b)
  {
    assert FromName(Name(a)) == Some(a);
  }

  lemma DistributionListsPresent(orders: seq<RentalOrder>, present: seq<RentalStatus>)
    requires present == Filter(AllStatuses, Occurs(orders))
    ensures forall st :: Count(orders, HasStatus(st)) > 0 <==>
      exists i :: 0 <= i < |CountsOf(orders, present)|
                  && CountsOf(orders, present)[i] == Dashboard.StatusCount(Name(st), Count(orders, HasStatus(st)))
  {
    forall st | Count(orders, HasStatus(st)) > 0
      ensures exists i :: 0 <= i < |CountsOf(orders, present)|
                  && CountsOf(orders, present)[i] == Dashboard.StatusCount(Name(st), Count(orders, HasStatus(st)))
    {
      PresentIsListed(orders, present, st);
    }
    forall st | exists i :: 0 <= i < |CountsOf(orders, present)|
                  && CountsOf(orders, present)[i] == Dashboard.StatusCount(Name(st), Count(orders, HasStatus(st)))
      ensures Count(orders, HasStatus(st)) > 0
    {
      var i :| 0 <= i < |CountsOf(orders, present)|
                  && CountsOf(orders, present)[i] == Dashboard.StatusCount(Name(st), Count(orders, HasStatus(st)));
      ListedIsPresent(orders, present, st, i);
    }
  }

  lemma PresentIsListed(orders: seq<RentalOrder>, present: seq<RentalStatus>, st: RentalStatus)
    requires present == Filter(AllStatuses, Occurs(orders))
    requires Count(orders, HasStatus(st)) > 0
    ensures exists i :: 0 <= i < |CountsOf(orders, present)|
                  && CountsOf(orders, present)[i] == Dashboard.StatusCount(Name(st), Count(orders, HasStatus(st)))
  {
    AllStatusesListsEachOnce();
    assert st in present;
    var i :| 0 <= i < |present| && present[i] == st;
    assert CountsOf(orders, present)[i] == Dashboard.StatusCount(Name(st), Count(orders, HasStatus(st)));
  }

  lemma ListedIsPresent(orders: seq<RentalOrder>, present: seq<RentalStatus>, st: RentalStatus, i: int)
    requires present == Filter(AllStatuses, Occurs(orders))
    requires 0 <= i < |CountsOf(orders, present)|
    requires CountsOf(orders, present)[i] == Dashboard.StatusCount(Name(st), Count(orders, HasStatus(st)))
    ensures Count(orders, HasStatus(st)) > 0
  {
    assert FromName(Name(present[i])) == Some(present[i]);
    assert FromName(Name(st)) == Some(st);
    assert Occurs(orders)(present[i]);
  }
}
