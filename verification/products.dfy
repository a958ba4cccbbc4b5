/** Products: creation with uploaded images, lookup, partial update, and the
    booking calendar of one product. */
module Products {
  import opened Wrappers
  import opened Statuses
  import opened Store
  import opened Text
  import opened Seqs

  /** The product form (prices are non-negative by validation). */
  datatype ProductInput = ProductInput(
    name: string,
    description: Option<string>,
    pricePerDay: nat,
    deposit: nat,
    branchId: int)

  /** A partial update; absent fields are left alone. */
  datatype ProductPatch = ProductPatch(
    name: Option<string>,
    description: Option<string>,
    pricePerDay: Option<nat>,
    deposit: Option<nat>,
    branchId: Option<int>)

  // ---------------------------------------------------------------- creation

  /** The image rows for the uploaded files, in upload order. */
  function Images(files: seq<string>): (imgs: seq<ProductImage>)
    ensures |imgs| == |files|
  {
    seq(|files|, i requires 0 <= i < |files| => ProductImage(UploadPath(files[i]), i == 0))
  }

  function IsMain(img: ProductImage): bool
  {
    img.isMain
  }

  /** Exactly the first uploaded image is the main one: one main image when files
      were uploaded, none otherwise; each url is the file's upload path. */
  lemma ExactlyOneMainImage(files: seq<string>)
    ensures Count(Images(files), IsMain) == if files == [] then 0 else 1
    ensures forall i :: 0 <= i < |files| ==> Images(files)[i].url == "/uploads/" + files[i]
    ensures forall i :: 0 <= i < |files| ==> (Images(files)[i].isMain <==> i == 0)
  {
    var imgs := Images(files);
    if files != [] {
      assert imgs == [imgs[0]] + imgs[1..];
      FilterNone(imgs[1..], IsMain);
      assert Filter(imgs, IsMain) == [imgs[0]] + Filter(imgs[1..], IsMain);
    }
  }

  /** Creates a product attached to a branch, its status the schema default. */
  function CreateProduct(s: Store, input: ProductInput, files: seq<string>, defaultStatus: ProductStatus)
    : (r: Result<(Store, Product)>)
    ensures r.Ok? <==> IsId(input.branchId, |s.branches|)
    ensures r.Err? ==> r.error == StoreFailure
    ensures r.Ok? ==>
      var (s', p) := r.value;
      && s'.products == s.products + [p]
      && p.id == |s.products| + 1
      && p.name == input.name && p.description == input.description
      && p.pricePerDay == input.pricePerDay && p.deposit == input.deposit
      && p.branchId == input.branchId
      && p.status == defaultStatus
      && p.images == Images(files)
      && s'.branches == s.branches && s'.customers == s.customers
      && s'.orders == s.orders && s'.payments == s.payments && s'.history == s.history
  {
    if !IsId(input.branchId, |s.branches|) then Err(StoreFailure)
    else
      var p := Product(|s.products| + 1, input.name, input.description, input.pricePerDay,
                       input.deposit, defaultStatus, input.branchId, Images(files));
      Ok((s.(products := s.products + [p]), p))
  }

  lemma CreateProductPreservesValid(s: Store, input: ProductInput, files: seq<string>, defaultStatus: ProductStatus)
    requires Valid(s)
    ensures var r := CreateProduct(s, input, files, defaultStatus);
      r.Ok? ==> Valid(r.value.0)
  {
    var r := CreateProduct(s, input, files, defaultStatus);
    if r.Ok? {
      var s' := r.value.0;
      forall k | 0 <= k < |s'.orders|
        ensures OrderLinksResolve(s', s'.orders[k], k)
      {
        assert OrderLinksResolve(s, s.orders[k], k);
      }
    }
  }

  // ---------------------------------------------------------------- lookup

  function ProductNotFound(id: int): Error
  {
    NotFound("Product #" + IntToString(id) + " not found")
  }

  function FindProduct(s: Store, id: int): (r: Result<Product>)
    ensures r.Ok? <==> IsId(id, |s.products|)
    ensures r.Ok? ==> r.value == s.products[id - 1]
    ensures r.Err? ==> r.error == ProductNotFound(id)
  {
    if IsId(id, |s.products|) then Ok(s.products[id - 1]) else Err(ProductNotFound(id))
  }

  /** Under the database constraints the product found carries the id asked for. */
  lemma FindProductById(s: Store, id: int)
    requires Valid(s)
    requires FindProduct(s, id).Ok?
    ensures FindProduct(s, id).value.id == id
  {
  }

  // ---------------------------------------------------------------- update

  /** The branch is reconnected only for a truthy (present and non-zero) branch id. */
  predicate Reconnects(patch: ProductPatch)
  {
    patch.branchId.Some? && patch.branchId.value != 0
  }

  function Patched(p: Product, patch: ProductPatch): Product
  {
    p.(name := if patch.name.Some? then patch.name.value else p.name,
       description := if patch.description.Some? then patch.description else p.description,
       pricePerDay := if patch.pricePerDay.Some? then patch.pricePerDay.value else p.pricePerDay,
       deposit := if patch.deposit.Some? then patch.deposit.value else p.deposit,
       branchId := if Reconnects(patch) then patch.branchId.value else p.branchId)
  }

  /** Writes the supplied fields of a product. The database refuses a missing
      product and a branch that does not exist. */
  function UpdateProduct(s: Store, id: int, patch: ProductPatch): (r: Result<(Store, Product)>)
    ensures r.Ok? <==> (IsId(id, |s.products|)
                        && (Reconnects(patch) ==> IsId(patch.branchId.value, |s.branches|)))
    ensures r.Err? ==> r.error == StoreFailure
    ensures r.Ok? ==>
      var (s', p') := r.value;
      var p := s.products[id - 1];
      && |s'.products| == |s.products|
      && s'.products[id - 1] == p'
      && (forall k :: 0 <= k < |s.products| && k != id - 1 ==> s'.products[k] == s.products[k])
      && p'.id == p.id && p'.status == p.status && p'.images == p.images
      && (patch.name.Some? ==> p'.name == patch.name.value)
      && (patch.name.None? ==> p'.name == p.name)
      && (patch.pricePerDay.Some? ==> p'.pricePerDay == patch.pricePerDay.value)
      && (patch.pricePerDay.None? ==> p'.pricePerDay == p.pricePerDay)
      && (patch.deposit.Some? ==> p'.deposit == patch.deposit.value)
      && (patch.deposit.None? ==> p'.deposit == p.deposit)
      && (patch.description.Some? ==> p'.description == patch.description)
      && (patch.description.None? ==> p'.description == p.description)
      && (Reconnects(patch) ==> p'.branchId == patch.branchId.value)
      && (!Reconnects(patch) ==> p'.branchId == p.branchId)
      && s'.branches == s.branches && s'.customers == s.customers
      && s'.orders == s.orders && s'.payments == s.payments && s'.history == s.history
  {
    if !IsId(id, |s.products|) then Err(StoreFailure)
    else if Reconnects(patch) && !IsId(patch.branchId.value, |s.branches|) then Err(StoreFailure)
    else
      var p' := Patched(s.products[id - 1], patch);
      Ok((s.(products := s.products[id - 1 := p']), p'))
  }

  lemma UpdateProductPreservesValid(s: Store, id: int, patch: ProductPatch)
    requires Valid(s)
    ensures var r := UpdateProduct(s, id, patch);
      r.Ok? ==> Valid(r.value.0)
  {
    var r := UpdateProduct(s, id, patch);
    if r.Ok? {
      var s' := r.value.0;
      forall k | 0 <= k < |s'.orders|
        ensures OrderLinksResolve(s', s'.orders[k], k)
      {
        assert OrderLinksResolve(s, s.orders[k], k);
      }
    }
  }

  // ---------------------------------------------------------------- availability

  datatype BookedRange = BookedRange(
    rentalId: int,
    rentalRef: string,
    startDay: int,
    endDay: int,
    status: RentalStatus)

  datatype Availability = Availability(
    productId: int,
    productName: string,
    status: ProductStatus,
    bookedDates: seq<BookedRange>,
    totalBookings: nat)

  /** Orders that occupy the product's calendar: every status except CANCELLED and REJECTED. */
  function Blocks(productId: int): RentalOrder -> bool
  {
    (o: RentalOrder) => o.productId == productId && !IsVoid(o.status)
  }

  function AsRange(o: RentalOrder): BookedRange
  {
    BookedRange(o.id, o.rentalRef, o.startDay, o.endDay, o.status)
  }

  function AsRanges(os: seq<RentalOrder>): (r: seq<BookedRange>)
    ensures |r| == |os|
    ensures forall i :: 0 <= i < |os| ==> r[i] == AsRange(os[i])
  {
    if os == [] then [] else [AsRange(os[0])] + AsRanges(os[1..])
  }

  function RangeStart(b: BookedRange): int
  {
    b.startDay
  }

  /** The booked ranges of a product, earliest start first, one per occupying order. */
  function GetAvailability(s: Store, productId: int): (r: Result<Availability>)
    ensures r.Ok? <==> IsId(productId, |s.products|)
    ensures r.Err? ==> r.error == ProductNotFound(productId)
    ensures r.Ok? ==>
      var a := r.value;
      && a.productId == productId
      && a.productName == s.products[productId - 1].name
      && a.status == s.products[productId - 1].status
      && SortedBy(a.bookedDates, RangeStart)
      && multiset(a.bookedDates) == multiset(AsRanges(Filter(s.orders, Blocks(productId))))
      && a.totalBookings == |a.bookedDates| == Count(s.orders, Blocks(productId))
  {
    if !IsId(productId, |s.products|) then Err(ProductNotFound(productId))
    else
      var p := s.products[productId - 1];
      var booked := SortBy(AsRanges(Filter(s.orders, Blocks(productId))), RangeStart);
      Ok(Availability(productId, p.name, p.status, booked, |booked|))
  }

  function Calendar(s: Store, productId: int): seq<BookedRange>
    requires IsId(productId, |s.products|)
  {
    GetAvailability(s, productId).value.bookedDates
  }

  /** Every calendar entry is the range of an occupying order of the store. */
  lemma CalendarEntryFromOrder(s: Store, productId: int, j: int)
    requires IsId(productId, |s.products|)
    requires 0 <= j < |Calendar(s, productId)|
    ensures exists m :: 0 <= m < |s.orders| && Calendar(s, productId)[j] == AsRange(s.orders[m])
                        && Blocks(productId)(s.orders[m])
  {
    var booked := Calendar(s, productId);
    var chosen := Filter(s.orders, Blocks(productId));
    var ranges := AsRanges(chosen);
    assert booked[j] in multiset(ranges);
    var c :| 0 <= c < |ranges| && ranges[c] == booked[j];
    assert chosen[c] in s.orders;
    var m :| 0 <= m < |s.orders| && s.orders[m] == chosen[c];
  }

  function RentalId(b: BookedRange): int
  {
    b.rentalId
  }

  /** No order appears twice in a calendar. */
  lemma CalendarHasNoRepeats(s: Store, productId: int)
    requires Valid(s)
    requires IsId(productId, |s.products|)
    ensures DistinctBy(Calendar(s, productId), RentalId)
  {
    var chosen := Filter(s.orders, Blocks(productId));
    var ranges := AsRanges(chosen);
    forall a, b | 0 <= a < b < |s.orders|
      ensures OrderId(s.orders[a]) != OrderId(s.orders[b])
    {
      OrderIdsDistinct(s, a, b);
    }
    FilterDistinctBy(s.orders, Blocks(productId), OrderId);
    assert DistinctBy(ranges, RentalId);
    PermutationDistinctBy(ranges, Calendar(s, productId), RentalId);
  }

  /** An order of the store appears in its product's calendar exactly when it is
      not CANCELLED or REJECTED (PENDING_PAYMENT included). */
  lemma CalendarListsOccupyingOrders(s: Store, productId: int, k: int)
    requires Valid(s)
    requires IsId(productId, |s.products|)
    requires 0 <= k < |s.orders|
    ensures var booked := Calendar(s, productId);
      (exists j :: 0 <= j < |booked| && booked[j].rentalId == s.orders[k].id)
      <==> s.orders[k].productId == productId && !IsVoid(s.orders[k].status)
  {
    var booked := Calendar(s, productId);
    var chosen := Filter(s.orders, Blocks(productId));
    var ranges := AsRanges(chosen);
    var o := s.orders[k];
    assert OrderLinksResolve(s, o, k);
    if o.productId == productId && !IsVoid(o.status) {
      assert o in chosen;
      var c :| 0 <= c < |chosen| && chosen[c] == o;
      assert ranges[c] in multiset(booked);
      var j :| 0 <= j < |booked| && booked[j] == ranges[c];
      assert booked[j].rentalId == o.id;
    }
    if exists j :: 0 <= j < |booked| && booked[j].rentalId == o.id {
      var j :| 0 <= j < |booked| && booked[j].rentalId == o.id;
      CalendarEntryFromOrder(s, productId, j);
      var m :| 0 <= m < |s.orders| && booked[j] == AsRange(s.orders[m]) && Blocks(productId)(s.orders[m]);
      assert OrderLinksResolve(s, s.orders[m], m);
      assert m == k;
    }
  }
}
