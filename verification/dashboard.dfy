/** The admin dashboard: headline figures, best-selling products, orders per
    status and revenue per day. Revenue here counts APPROVED, IN_USE and
    RETURNED orders. */
module Dashboard {
  import opened Wrappers
  import opened Statuses
  import opened Store
  import opened Seqs

  function Earning(o: RentalOrder): bool
  {
    EarnsRevenue(o.status)
  }

  function BeingUsed(o: RentalOrder): bool
  {
    o.status == InUse
  }

  function CreatedOn(day: int): RentalOrder -> bool
  {
    (o: RentalOrder) => DayOf(o.createdAt) == day
  }

  /** Created on a day in `[from, until)`. */
  function CreatedIn(from: int, until: int): RentalOrder -> bool
  {
    (o: RentalOrder) => from <= DayOf(o.createdAt) < until
  }

  function EarningIn(from: int, until: int): RentalOrder -> bool
  {
    (o: RentalOrder) => Earning(o) && from <= DayOf(o.createdAt) < until
  }

  function ActiveBranch(b: Branch): bool
  {
    b.isActive
  }

  // ---------------------------------------------------------------- headline figures

  datatype Stats = Stats(
    totalProducts: nat,
    totalBranches: nat,
    totalCustomers: nat,
    todayOrders: nat,
    monthOrders: nat,
    activeRentals: nat,
    totalRevenue: nat,
    monthRevenue: nat)

  /** The headline figures; `today` is today's day number and the month is the
      days `[monthStart, nextMonthStart)`. */
  function GetStats(s: Store, today: int, monthStart: int, nextMonthStart: int): (st: Stats)
    ensures st.totalProducts == |s.products| && st.totalCustomers == |s.customers|
    ensures st.totalBranches == Count(s.branches, ActiveBranch)
    ensures st.todayOrders == Count(s.orders, CreatedOn(today))
    ensures st.monthOrders == Count(s.orders, CreatedIn(monthStart, nextMonthStart))
    ensures st.totalRevenue == SumBy(Filter(s.orders, Earning), Price)
    ensures st.activeRentals == Count(s.orders, BeingUsed)
    ensures st.monthRevenue == SumBy(Filter(s.orders, EarningIn(monthStart, nextMonthStart)), Price)
    ensures st.monthRevenue <= st.totalRevenue
    ensures monthStart <= today < nextMonthStart ==> st.todayOrders <= st.monthOrders
  {
    var st := Stats(
      totalProducts := |s.products|,
      totalBranches := Count(s.branches, ActiveBranch),
      totalCustomers := |s.customers|,
      todayOrders := Count(s.orders, CreatedOn(today)),
      monthOrders := Count(s.orders, CreatedIn(monthStart, nextMonthStart)),
      activeRentals := Count(s.orders, BeingUsed),
      totalRevenue := SumBy(Filter(s.orders, Earning), Price),
      monthRevenue := SumBy(Filter(s.orders, EarningIn(monthStart, nextMonthStart)), Price));
    SumMono(s.orders, EarningIn(monthStart, nextMonthStart), Earning, Price);
    if monthStart <= today < nextMonthStart then
      CountMono(s.orders, CreatedOn(today), CreatedIn(monthStart, nextMonthStart));
      st
    else
      st
  }

  // ---------------------------------------------------------------- best sellers

  datatype TopProduct = TopProduct(
    id: int,
    name: string,
    rentalCount: nat,
    totalRevenue: nat,
    image: Option<string>)

  /** The orders of product `productId` that earn revenue. */
  function EarnsFor(productId: int): RentalOrder -> bool
  {
    (o: RentalOrder) => o.productId == productId && Earning(o)
  }

  /** `images[i]` is the first image flagged as main. */
  predicate FirstMainAt(images: seq<ProductImage>, i: int)
  {
    0 <= i < |images| && images[i].isMain && forall j :: 0 <= j < i ==> !images[j].isMain
  }

  /** The url of the first main image; an empty url reads as none. */
  function MainImageUrl(images: seq<ProductImage>): (r: Option<string>)
    ensures r.Some? <==> exists i :: FirstMainAt(images, i) && images[i].url != ""
    ensures forall i :: FirstMainAt(images, i) && r.Some? ==> r.value == images[i].url
  {
    if images == [] then None
    else if images[0].isMain then
      assert FirstMainAt(images, 0);
      assert forall i :: FirstMainAt(images, i) ==> i == 0;
      if images[0].url == "" then None else Some(images[0].url)
    else
      assert forall i :: FirstMainAt(images, i) <==> 1 <= i && FirstMainAt(images[1..], i - 1);
      var r := MainImageUrl(images[1..]);
      assert r.Some? ==> exists i :: FirstMainAt(images[1..], i) && images[1..][i].url != ""
                                      && FirstMainAt(images, i + 1);
      r
  }

  function Entry(s: Store, p: Product): TopProduct
  {
    TopProduct(
      p.id, p.name,
      Count(s.orders, EarnsFor(p.id)),
      SumBy(Filter(s.orders, EarnsFor(p.id)), Price),
      MainImageUrl(p.images))
  }

  /** One entry per product, in table order. */
  function Entries(s: Store): (r: seq<TopProduct>)
    ensures |r| == |s.products|
    ensures forall i :: 0 <= i < |r| ==> r[i] == Entry(s, s.products[i])
  {
    seq(|s.products|, i requires 0 <= i < |s.products| => Entry(s, s.products[i]))
  }

  /** Every entry measures the earning orders of the product it names. */
  lemma EntryMeasuresItsProduct(s: Store, e: TopProduct)
    requires e in Entries(s)
    ensures e.rentalCount == Count(s.orders, EarnsFor(e.id))
    ensures e.totalRevenue == SumBy(Filter(s.orders, EarnsFor(e.id)), Price)
  {
    var i :| 0 <= i < |Entries(s)| && Entries(s)[i] == e;
  }

  function ByCountDesc(e: TopProduct): int
  {
    -(e.rentalCount as int)
  }

  /** The products with the most earning orders, `limit` of them taken the way
      an array slice takes them. */
  function GetTopProducts(s: Store, limit: int): (r: seq<TopProduct>)
    ensures |r| == SliceEnd(|s.products|, limit)
    ensures forall i, j :: 0 <= i < j < |r| ==> r[i].rentalCount >= r[j].rentalCount
    ensures multiset(r) <= multiset(Entries(s))
    ensures forall e :: e in r ==>
      e.rentalCount == Count(s.orders, EarnsFor(e.id))
      && e.totalRevenue == SumBy(Filter(s.orders, EarnsFor(e.id)), Price)
    ensures forall e, e' :: e in r && e' in multiset(Entries(s)) - multiset(r) ==>
      e.rentalCount >= e'.rentalCount
  {
    var r := TopBy(Entries(s), ByCountDesc, limit);
    TopEntries(s, r);
    r
  }

  lemma TopEntries(s: Store, r: seq<TopProduct>)
    requires SortedBy(r, ByCountDesc)
    requires multiset(r) <= multiset(Entries(s))
    requires forall x, y :: x in r && y in multiset(Entries(s)) - multiset(r) ==> ByCountDesc(x) <= ByCountDesc(y)
    ensures forall i, j :: 0 <= i < j < |r| ==> r[i].rentalCount >= r[j].rentalCount
    ensures forall e :: e in r ==>
      e.rentalCount == Count(s.orders, EarnsFor(e.id))
      && e.totalRevenue == SumBy(Filter(s.orders, EarnsFor(e.id)), Price)
    ensures forall e, e' :: e in r && e' in multiset(Entries(s)) - multiset(r) ==>
      e.rentalCount >= e'.rentalCount
  {
    forall e | e in r
      ensures e.rentalCount == Count(s.orders, EarnsFor(e.id))
      ensures e.totalRevenue == SumBy(Filter(s.orders, EarnsFor(e.id)), Price)
    {
      assert e in multiset(Entries(s));
      EntryMeasuresItsProduct(s, e);
    }
    forall e, e' | e in r && e' in multiset(Entries(s)) - multiset(r)
      ensures e.rentalCount >= e'.rentalCount
    {
      assert ByCountDesc(e) <= ByCountDesc(e');
    }
  }

  // ---------------------------------------------------------------- orders per status

  datatype StatusCount = StatusCount(status: string, count: nat)

  /** One count per status, in the order of `AllStatuses`. */
  function OrdersByStatus(orders: seq<RentalOrder>): (r: seq<StatusCount>)
    ensures |r| == |AllStatuses|
    ensures forall i :: 0 <= i < |r| ==>
      r[i].status == Name(AllStatuses[i]) && r[i].count == Count(orders, HasStatus(AllStatuses[i]))
  {
    seq(|AllStatuses|, i requires 0 <= i < |AllStatuses| =>
      StatusCount(Name(AllStatuses[i]), Count(orders, HasStatus(AllStatuses[i]))))
  }

  function CountOf(c: StatusCount): nat
  {
    c.count
  }

  function StatusIn(sts: seq<RentalStatus>): RentalOrder -> bool
  {
    (o: RentalOrder) => o.status in sts
  }

  /** The per-status counts of `sts`, added up. */
  function Tallies(orders: seq<RentalOrder>, sts: seq<RentalStatus>): nat
  {
    if sts == [] then 0 else Count(orders, HasStatus(sts[0])) + Tallies(orders, sts[1..])
  }

  lemma {:induction false} TalliesCountMembers(orders: seq<RentalOrder>, sts: seq<RentalStatus>)
    requires Distinct(sts)
    ensures Tallies(orders, sts) == Count(orders, StatusIn(sts))
  {
    if sts == [] {
      FilterNone(orders, StatusIn(sts));
    } else {
      assert Distinct(sts[1..]);
      TalliesCountMembers(orders, sts[1..]);
      forall o: RentalOrder
        ensures StatusIn(sts)(o) == (HasStatus(sts[0])(o) || StatusIn(sts[1..])(o))
      {
        assert o.status in sts <==> o.status == sts[0] || o.status in sts[1..];
      }
      CountSplit(orders, HasStatus(sts[0]), StatusIn(sts[1..]), StatusIn(sts));
    }
  }

  lemma {:induction false} TalliesAreSums(orders: seq<RentalOrder>, sts: seq<RentalStatus>)
    ensures SumBy(seq(|sts|, i requires 0 <= i < |sts| =>
      StatusCount(Name(sts[i]), Count(orders, HasStatus(sts[i])))), CountOf) == Tallies(orders, sts)
  {
    var c := seq(|sts|, i requires 0 <= i < |sts| =>
      StatusCount(Name(sts[i]), Count(orders, HasStatus(sts[i]))));
    if sts != [] {
      TalliesAreSums(orders, sts[1..]);
      var c' := seq(|sts[1..]|, i requires 0 <= i < |sts[1..]| =>
        StatusCount(Name(sts[1..][i]), Count(orders, HasStatus(sts[1..][i]))));
      assert c[1..] == c';
    }
  }

  /** Every order is counted under exactly one status. */
  lemma StatusCountsCoverAllOrders(orders: seq<RentalOrder>)
    ensures SumBy(OrdersByStatus(orders), CountOf) == |orders|
  {
    AllStatusesListsEachOnce();
    TalliesAreSums(orders, AllStatuses);
    TalliesCountMembers(orders, AllStatuses);
    FilterAll(orders, StatusIn(AllStatuses));
  }

  // ---------------------------------------------------------------- revenue per day

  datatype ChartPoint = ChartPoint(day: int, revenue: nat)

  /** Earning orders created in the last `days` days up to and including `today`. */
  function InWindow(today: int, days: int): RentalOrder -> bool
  {
    (o: RentalOrder) => Earning(o) && today - days <= DayOf(o.createdAt) <= today
  }

  function OnDay(day: int): RentalOrder -> bool
  {
    (o: RentalOrder) => DayOf(o.createdAt) == day
  }

  function EarningOn(day: int): RentalOrder -> bool
  {
    (o: RentalOrder) => Earning(o) && DayOf(o.createdAt) == day
  }

  /** The revenue of the orders in `xs` created on `day`, accumulated the way
      the grouping pass meets them. */
  function DayRevenue(xs: seq<RentalOrder>, day: int): nat
  {
    if xs == [] then 0
    else DayRevenue(xs[..|xs| - 1], day) + (if DayOf(xs[|xs| - 1].createdAt) == day then xs[|xs| - 1].totalPrice else 0)
  }

  lemma DayRevenueSnoc(xs: seq<RentalOrder>, o: RentalOrder, day: int)
    ensures DayRevenue(xs + [o], day) == DayRevenue(xs, day) + (if DayOf(o.createdAt) == day then o.totalPrice else 0)
  {
    assert (xs + [o])[..|xs|] == xs;
  }

  /** The accumulated revenue is the sum over the day's orders. */
  lemma {:induction false} DayRevenueIsFilteredSum(xs: seq<RentalOrder>, day: int)
    ensures DayRevenue(xs, day) == SumBy(Filter(xs, OnDay(day)), Price)
  {
    if xs != [] {
      var init, o := xs[..|xs| - 1], xs[|xs| - 1];
      assert xs == init + [o];
      assert DayRevenue(init, day) == SumBy(Filter(init, OnDay(day)), Price) by {
        DayRevenueIsFilteredSum(init, day);
      }
      assert SumBy(Filter(xs, OnDay(day)), Price)
          == SumBy(Filter(init, OnDay(day)), Price) + (if OnDay(day)(o) then Price(o) else 0) by {
        SumFilterSnoc(init, o, OnDay(day), Price);
      }
    }
  }

  /** Where `day` sits in `chart`, or -1. */
  function IndexOfDay(chart: seq<ChartPoint>, day: int): (k: int)
    ensures -1 <= k < |chart|
    ensures 0 <= k ==> chart[k].day == day
    ensures k == -1 ==> forall j :: 0 <= j < |chart| ==> chart[j].day != day
  {
    if chart == [] then -1
    else if chart[|chart| - 1].day == day then |chart| - 1
    else IndexOfDay(chart[..|chart| - 1], day)
  }

  /** Adds an order's price to its day's point, opening the point if the day
      has none yet. */
  function AddOrder(chart: seq<ChartPoint>, o: RentalOrder): (r: seq<ChartPoint>)
    ensures |r| == |chart| || |r| == |chart| + 1
    ensures forall k :: 0 <= k < |chart| ==> r[k].day == chart[k].day
    ensures |r| == |chart| + 1 ==> r[|chart|].day == DayOf(o.createdAt)
    ensures |r| == |chart| <==> exists k :: 0 <= k < |chart| && chart[k].day == DayOf(o.createdAt)
    ensures |r| == |chart| + 1 ==> r == chart + [ChartPoint(DayOf(o.createdAt), Price(o))]
    ensures var k := IndexOfDay(chart, DayOf(o.createdAt));
      0 <= k ==>
        && r[k] == ChartPoint(chart[k].day, chart[k].revenue + Price(o))
        && forall j :: 0 <= j < |chart| && j != k ==> r[j] == chart[j]
  {
    var d := DayOf(o.createdAt);
    var k := IndexOfDay(chart, d);
    if k >= 0 then chart[k := ChartPoint(d, chart[k].revenue + o.totalPrice)]
    else chart + [ChartPoint(d, o.totalPrice)]
  }

  predicate Ascending(chart: seq<ChartPoint>)
  {
    forall a, b :: 0 <= a < b < |chart| ==> chart[a].day < chart[b].day
  }

  /** Each point carries the revenue `xs` has on its day. */
  predicate RevenuesMatch(chart: seq<ChartPoint>, xs: seq<RentalOrder>)
  {
    forall k :: 0 <= k < |chart| ==> chart[k].revenue == DayRevenue(xs, chart[k].day)
  }

  /** Every point is the day of some order in `xs`. */
  predicate PointsHaveOrders(chart: seq<ChartPoint>, xs: seq<RentalOrder>)
  {
    forall k :: 0 <= k < |chart| ==> exists j :: 0 <= j < |xs| && DayOf(xs[j].createdAt) == chart[k].day
  }

  /** Every order in `xs` has a point for its day. */
  predicate OrdersHavePoints(chart: seq<ChartPoint>, xs: seq<RentalOrder>)
  {
    forall j :: 0 <= j < |xs| ==> exists k :: 0 <= k < |chart| && chart[k].day == DayOf(xs[j].createdAt)
  }

  /** The last point is the day of the last order. */
  predicate EndsWithLast(chart: seq<ChartPoint>, xs: seq<RentalOrder>)
  {
    && (|chart| == 0 <==> |xs| == 0)
    && (|xs| > 0 ==> chart[|chart| - 1].day == DayOf(xs[|xs| - 1].createdAt))
  }

  lemma AddOrderKeepsAscending(chart: seq<ChartPoint>, xs: seq<RentalOrder>, o: RentalOrder)
    requires Ascending(chart) && EndsWithLast(chart, xs)
    requires |xs| > 0 ==> xs[|xs| - 1].createdAt <= o.createdAt
    ensures Ascending(AddOrder(chart, o)) && EndsWithLast(AddOrder(chart, o), xs + [o])
  {
    if |xs| > 0 {
      DayOfMonotone(xs[|xs| - 1].createdAt, o.createdAt);
    }
  }

  /** A day the chart has no point for has no revenue yet. */
  lemma NoPointNoRevenue(chart: seq<ChartPoint>, xs: seq<RentalOrder>, d: int)
    requires OrdersHavePoints(chart, xs)
    requires forall k :: 0 <= k < |chart| ==> chart[k].day != d
    ensures DayRevenue(xs, d) == 0
  {
    forall j | 0 <= j < |xs|
      ensures !OnDay(d)(xs[j])
    {
      var k :| 0 <= k < |chart| && chart[k].day == DayOf(xs[j].createdAt);
    }
    FilterNone(xs, OnDay(d));
    DayRevenueIsFilteredSum(xs, d);
  }

  /** The point at `m` after adding `o` carries the revenue of `xs + [o]`. */
  lemma PointAfterAdd(chart: seq<ChartPoint>, xs: seq<RentalOrder>, o: RentalOrder, m: nat)
    requires Ascending(chart)
    requires RevenuesMatch(chart, xs) && OrdersHavePoints(chart, xs)
    requires m < |AddOrder(chart, o)|
    ensures AddOrder(chart, o)[m].revenue == DayRevenue(xs + [o], AddOrder(chart, o)[m].day)
  {
    var d := DayOf(o.createdAt);
    var k := IndexOfDay(chart, d);
    var p := AddOrder(chart, o)[m];
    DayRevenueSnoc(xs, o, p.day);
    if k < 0 {
      if m == |chart| {
        NoPointNoRevenue(chart, xs, d);
      } else {
        assert p == chart[m];
      }
    } else if m != k {
      assert p == chart[m];
      assert chart[k].day == d;
    }
  }

  lemma AddOrderKeepsRevenues(chart: seq<ChartPoint>, xs: seq<RentalOrder>, o: RentalOrder)
    requires Ascending(chart)
    requires RevenuesMatch(chart, xs) && OrdersHavePoints(chart, xs)
    ensures RevenuesMatch(AddOrder(chart, o), xs + [o])
  {
    forall m | 0 <= m < |AddOrder(chart, o)|
      ensures AddOrder(chart, o)[m].revenue == DayRevenue(xs + [o], AddOrder(chart, o)[m].day)
    {
      PointAfterAdd(chart, xs, o, m);
    }
  }

  lemma AddOrderKeepsPointsHaveOrders(chart: seq<ChartPoint>, xs: seq<RentalOrder>, o: RentalOrder)
    requires PointsHaveOrders(chart, xs)
    ensures PointsHaveOrders(AddOrder(chart, o), xs + [o])
  {
    var r := AddOrder(chart, o);
    var ys := xs + [o];
    forall k | 0 <= k < |r|
      ensures exists j :: 0 <= j < |ys| && DayOf(ys[j].createdAt) == r[k].day
    {
      if k < |chart| {
        var j :| 0 <= j < |xs| && DayOf(xs[j].createdAt) == chart[k].day;
        assert ys[j] == xs[j];
      } else {
        assert ys[|xs|] == o;
      }
    }
  }

  lemma AddOrderKeepsOrdersHavePoints(chart: seq<ChartPoint>, xs: seq<RentalOrder>, o: RentalOrder)
    requires OrdersHavePoints(chart, xs)
    ensures OrdersHavePoints(AddOrder(chart, o), xs + [o])
  {
    var r := AddOrder(chart, o);
    var ys := xs + [o];
    forall j | 0 <= j < |ys|
      ensures exists k :: 0 <= k < |r| && r[k].day == DayOf(ys[j].createdAt)
    {
      if j < |xs| {
        assert ys[j] == xs[j];
        var k :| 0 <= k < |chart| && chart[k].day == DayOf(xs[j].createdAt);
        assert r[k].day == chart[k].day;
      } else if |r| == |chart| {
        var k :| 0 <= k < |chart| && chart[k].day == DayOf(o.createdAt);
        assert r[k].day == chart[k].day;
      } else {
        assert r[|chart|].day == DayOf(o.createdAt);
      }
    }
  }

  /** A day's revenue over the sorted window is that day's earning revenue
      over all orders. */
  lemma WindowDayRevenue(s: Store, today: int, days: int, sorted: seq<RentalOrder>, day: int)
    requires multiset(sorted) == multiset(Filter(s.orders, InWindow(today, days)))
    requires today - days <= day <= today
    ensures DayRevenue(sorted, day) == SumBy(Filter(s.orders, EarningOn(day)), Price)
  {
    DayRevenueIsFilteredSum(sorted, day);
    SumFilterPermutation(sorted, Filter(s.orders, InWindow(today, days)), OnDay(day), Price);
    forall o: RentalOrder
      ensures EarningOn(day)(o) == (InWindow(today, days)(o) && OnDay(day)(o))
    {
    }
    FilterBoth(s.orders, InWindow(today, days), OnDay(day), EarningOn(day));
  }

  /** A day some order of the sorted window falls on lies in the window and has
      an earning order. */
  lemma WindowDay(s: Store, today: int, days: int, sorted: seq<RentalOrder>, j: nat)
    requires multiset(sorted) == multiset(Filter(s.orders, InWindow(today, days)))
    requires j < |sorted|
    ensures today - days <= DayOf(sorted[j].createdAt) <= today
    ensures sorted[j] in s.orders && EarningOn(DayOf(sorted[j].createdAt))(sorted[j])
  {
    assert sorted[j] in multiset(Filter(s.orders, InWindow(today, days)));
  }

  /** The chart of `sorted` has, for each point, the revenue of the window's
      earning orders on that day. */
  lemma ChartMeetsWindow(s: Store, today: int, days: int, sorted: seq<RentalOrder>, chart: seq<ChartPoint>)
    requires multiset(sorted) == multiset(Filter(s.orders, InWindow(today, days)))
    requires RevenuesMatch(chart, sorted) && PointsHaveOrders(chart, sorted)
    ensures forall k :: 0 <= k < |chart| ==>
      today - days <= chart[k].day <= today
      && chart[k].revenue == SumBy(Filter(s.orders, EarningOn(chart[k].day)), Price)
      && exists o :: o in s.orders && EarningOn(chart[k].day)(o)
  {
    forall k | 0 <= k < |chart|
      ensures today - days <= chart[k].day <= today
      ensures chart[k].revenue == SumBy(Filter(s.orders, EarningOn(chart[k].day)), Price)
      ensures exists o :: o in s.orders && EarningOn(chart[k].day)(o)
    {
      var j :| 0 <= j < |sorted| && DayOf(sorted[j].createdAt) == chart[k].day;
      WindowDay(s, today, days, sorted, j);
      WindowDayRevenue(s, today, days, sorted, chart[k].day);
    }
  }

  /** Every earning order of the window has a point for its day. */
  lemma WindowOrdersHavePoints(s: Store, today: int, days: int, sorted: seq<RentalOrder>, chart: seq<ChartPoint>)
    requires multiset(sorted) == multiset(Filter(s.orders, InWindow(today, days)))
    requires OrdersHavePoints(chart, sorted)
    ensures forall o :: o in s.orders && InWindow(today, days)(o) ==>
      exists k :: 0 <= k < |chart| && chart[k].day == DayOf(o.createdAt)
  {
    forall o | o in s.orders && InWindow(today, days)(o)
      ensures exists k :: 0 <= k < |chart| && chart[k].day == DayOf(o.createdAt)
    {
      assert o in multiset(sorted);
      var j :| 0 <= j < |sorted| && sorted[j] == o;
    }
  }

  /** `chart` is the per-day revenue of `xs`, built in order. */
  predicate ChartOf(chart: seq<ChartPoint>, xs: seq<RentalOrder>)
  {
    && Ascending(chart) && EndsWithLast(chart, xs)
    && RevenuesMatch(chart, xs)
    && PointsHaveOrders(chart, xs) && OrdersHavePoints(chart, xs)
  }

  /** Adding the next order of a sequence sorted by creation time keeps the
      chart in step with it. */
  lemma AddNextOrder(sorted: seq<RentalOrder>, i: nat, chart: seq<ChartPoint>)
    requires SortedBy(sorted, CreatedAt)
    requires i < |sorted|
    requires ChartOf(chart, sorted[..i])
    ensures ChartOf(AddOrder(chart, sorted[i]), sorted[..i + 1])
  {
    TakeOneMore(sorted, i);
    if i > 0 {
      SortedNeighbours(sorted, i, CreatedAt);
    }
    AddOrderKeepsAscending(chart, sorted[..i], sorted[i]);
    AddOrderKeepsRevenues(chart, sorted[..i], sorted[i]);
    AddOrderKeepsPointsHaveOrders(chart, sorted[..i], sorted[i]);
    AddOrderKeepsOrdersHavePoints(chart, sorted[..i], sorted[i]);
  }

  /** The per-day points of `xs`, adding the orders one at a time in order. */
  function GroupedByDay(xs: seq<RentalOrder>): seq<ChartPoint>
  {
    if xs == [] then [] else AddOrder(GroupedByDay(xs[..|xs| - 1]), xs[|xs| - 1])
  }

  /** Grouping orders sorted by creation time yields ascending days, one per
      day with an order, each with that day's revenue. */
  lemma {:induction false} GroupedByDayCharts(xs: seq<RentalOrder>)
    requires SortedBy(xs, CreatedAt)
    ensures ChartOf(GroupedByDay(xs), xs)
  {
    if xs != [] {
      var n := |xs| - 1;
      PrefixSorted(xs, n, CreatedAt);
      GroupedByDayCharts(xs[..n]);
      AddNextOrder(xs, n, GroupedByDay(xs[..n]));
      TakeAll(xs);
    }
  }

  /** Groups orders by the day they were created, in one pass. */
  method GroupByDay(sorted: seq<RentalOrder>) returns (chart: seq<ChartPoint>)
    ensures chart == GroupedByDay(sorted)
  {
    chart := [];
    var i := 0;
    while i < |sorted|
      invariant i <= |sorted|
      invariant chart == GroupedByDay(sorted[..i])
    {
      TakeOneMore(sorted, i);
      assert sorted[..i + 1][..i] == sorted[..i];
      chart := AddOrder(chart, sorted[i]);
      i := i + 1;
    }
    TakeAll(sorted);
  }

  /** The window's earning orders, oldest first. */
  function Window(s: Store, today: int, days: int): (r: seq<RentalOrder>)
    ensures SortedBy(r, CreatedAt)
    ensures multiset(r) == multiset(Filter(s.orders, InWindow(today, days)))
  {
    SortBy(Filter(s.orders, InWindow(today, days)), CreatedAt)
  }

  /** Points carry the store's earning revenue of their day and lie in the window. */
  lemma WindowChartRevenues(s: Store, today: int, days: int, chart: seq<ChartPoint>)
    requires chart == GroupedByDay(Window(s, today, days))
    ensures forall k :: 0 <= k < |chart| ==>
      today - days <= chart[k].day <= today
      && chart[k].revenue == SumBy(Filter(s.orders, EarningOn(chart[k].day)), Price)
      && exists o :: o in s.orders && EarningOn(chart[k].day)(o)
  {
    var sorted := Window(s, today, days);
    GroupedByDayCharts(sorted);
    assert RevenuesMatch(chart, sorted) && PointsHaveOrders(chart, sorted);
    ChartMeetsWindow(s, today, days, sorted, chart);
  }

  /** The window's points are in ascending day order. */
  lemma WindowChartAscends(s: Store, today: int, days: int, chart: seq<ChartPoint>)
    requires chart == GroupedByDay(Window(s, today, days))
    ensures forall a, b :: 0 <= a < b < |chart| ==> chart[a].day < chart[b].day
  {
    GroupedByDayCharts(Window(s, today, days));
  }

  /** Every earning order of the window has its day's point. */
  lemma WindowChartCovers(s: Store, today: int, days: int, chart: seq<ChartPoint>)
    requires chart == GroupedByDay(Window(s, today, days))
    ensures forall o :: o in s.orders && InWindow(today, days)(o) ==>
      exists k :: 0 <= k < |chart| && chart[k].day == DayOf(o.createdAt)
  {
    var sorted := Window(s, today, days);
    GroupedByDayCharts(sorted);
    WindowOrdersHavePoints(s, today, days, sorted, chart);
  }

  /** Revenue per day over the window: one point per day that has an earning
      order, days ascending, each with the total price of that day's orders. */
  method GetRevenueChart(s: Store, today: int, days: int) returns (chart: seq<ChartPoint>)
    ensures forall a, b :: 0 <= a < b < |chart| ==> chart[a].day < chart[b].day
    ensures forall k :: 0 <= k < |chart| ==>
      today - days <= chart[k].day <= today
      && chart[k].revenue == SumBy(Filter(s.orders, EarningOn(chart[k].day)), Price)
      && exists o :: o in s.orders && EarningOn(chart[k].day)(o)
    ensures forall o :: o in s.orders && InWindow(today, days)(o) ==>
      exists k :: 0 <= k < |chart| && chart[k].day == DayOf(o.createdAt)
  {
    chart := GroupByDay(Window(s, today, days));
    WindowChartRevenues(s, today, days, chart);
    WindowChartAscends(s, today, days, chart);
    WindowChartCovers(s, today, days, chart);
  }
}
