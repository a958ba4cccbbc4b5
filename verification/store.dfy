/** The relational store the services read and write, as immutable tables.
    Every table except users is a sequence whose row at index i has id i + 1
    (the database's autoincrement keys; nothing in these services deletes such rows). */
module Store {
  import opened Wrappers
  import opened Statuses

  /** Milliseconds per day: timestamps are millisecond clock readings. */
  const MsPerDay: nat := 86_400_000

  /** The day number of a timestamp (days since the epoch, UTC). */
  function DayOf(t: int): int
  {
    t / MsPerDay
  }

  lemma DayOfMonotone(a: int, b: int)
    requires a <= b
    ensures DayOf(a) <= DayOf(b)
  {
  }

  /** A product's availability flag; every value other than AVAILABLE blocks new bookings alike. */
  datatype ProductStatus = Available | Unavailable

  datatype Branch = Branch(id: int, name: string, isActive: bool)

  datatype ProductImage = ProductImage(url: string, isMain: bool)

  datatype Product = Product(
    id: int,
    name: string,
    description: Option<string>,
    pricePerDay: nat,
    deposit: nat,
    status: ProductStatus,
    branchId: int,
    images: seq<ProductImage>)

  /** A customer, identified by the chat platform's `lineUserId`. */
  datatype Customer = Customer(
    id: int,
    lineUserId: string,
    displayName: Option<string>,
    pictureUrl: Option<string>,
    firstName: Option<string>,
    lastName: Option<string>,
    phoneNumber: Option<string>,
    createdAt: int)

  /** A rental order; `startDay` and `endDay` are inclusive day numbers. */
  datatype RentalOrder = RentalOrder(
    id: int,
    rentalRef: string,
    startDay: int,
    endDay: int,
    totalPrice: nat,
    depositAmount: nat,
    status: RentalStatus,
    customerId: int,
    productId: int,
    branchId: int,
    createdAt: int)

  datatype Payment = Payment(
    id: int,
    rentalOrderId: int,
    amount: int,
    bankName: string,
    transferDate: int,
    slipUrl: string)

  /** One row of an order's status history. */
  datatype HistoryEntry = HistoryEntry(
    rentalOrderId: int,
    status: RentalStatus,
    note: string,
    changedBy: string,
    createdAt: int)

  datatype Store = Store(
    branches: seq<Branch>,
    products: seq<Product>,
    customers: seq<Customer>,
    orders: seq<RentalOrder>,
    payments: seq<Payment>,
    history: seq<HistoryEntry>)

  /** `id` names a row of a table with `n` rows. */
  predicate IsId(id: int, n: nat)
  {
    1 <= id <= n
  }

  /** The constraints the database enforces: keys match positions, foreign keys
      resolve, and no two customers share a `lineUserId`. */
  predicate Valid(s: Store)
  {
    && (forall i :: 0 <= i < |s.branches| ==> s.branches[i].id == i + 1)
    && (forall i :: 0 <= i < |s.products| ==>
          s.products[i].id == i + 1 && IsId(s.products[i].branchId, |s.branches|))
    && (forall i :: 0 <= i < |s.customers| ==> s.customers[i].id == i + 1)
    && (forall i, j :: 0 <= i < j < |s.customers| ==> s.customers[i].lineUserId != s.customers[j].lineUserId)
    && (forall i :: 0 <= i < |s.orders| ==> OrderLinksResolve(s, s.orders[i], i))
    && (forall i :: 0 <= i < |s.payments| ==>
          s.payments[i].id == i + 1 && IsId(s.payments[i].rentalOrderId, |s.orders|))
    && (forall i :: 0 <= i < |s.history| ==> IsId(s.history[i].rentalOrderId, |s.orders|))
  }

  predicate OrderLinksResolve(s: Store, o: RentalOrder, i: int)
  {
    && o.id == i + 1
    && IsId(o.customerId, |s.customers|)
    && IsId(o.productId, |s.products|)
    && IsId(o.branchId, |s.branches|)
  }

  /** Selectors used as filters over the orders table. */
  function OfProduct(productId: int): RentalOrder -> bool
  {
    (o: RentalOrder) => o.productId == productId
  }

  function OfCustomer(customerId: int): RentalOrder -> bool
  {
    (o: RentalOrder) => o.customerId == customerId
  }

  function HasStatus(st: RentalStatus): RentalOrder -> bool
  {
    (o: RentalOrder) => o.status == st
  }

  function OrderId(o: RentalOrder): int
  {
    o.id
  }

  /** Under the constraints no two orders share an id. */
  lemma OrderIdsDistinct(s: Store, a: int, b: int)
    requires Valid(s)
    requires 0 <= a < b < |s.orders|
    ensures OrderId(s.orders[a]) != OrderId(s.orders[b])
  {
    assert OrderLinksResolve(s, s.orders[a], a);
    assert OrderLinksResolve(s, s.orders[b], b);
  }

  function Price(o: RentalOrder): nat
  {
    o.totalPrice
  }

  function CreatedAt(o: RentalOrder): int
  {
    o.createdAt
  }

  /** Sort key for newest-first order. */
  function NewestFirst(o: RentalOrder): int
  {
    -o.createdAt
  }

  /** The `/uploads/` path under which an uploaded file is served. */
  function UploadPath(filename: string): string
  {
    "/uploads/" + filename
  }
}
