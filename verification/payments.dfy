/** Submitting a payment slip: the one status transition the backend performs,
    PENDING_PAYMENT to WAITING_CONFIRMATION, with its history entry. */
module Payments {
  import opened Wrappers
  import opened Statuses
  import opened Store

  /** The payment form; `transferDate` is the timestamp the submitted text
      parses to, and None when it does not parse as a date. */
  datatype PaymentRequest = PaymentRequest(
    rentalOrderId: int,
    amount: int,
    bankName: string,
    transferDate: Option<int>)

  const SlipNote: string := "Customer uploaded payment slip"
  const CustomerActor: string := "Customer"

  /** Reading the name of an upload that was not sent fails at run time. */
  const NoSlipError: Error := ServerError("Cannot read properties of undefined (reading 'filename')")

  /** Records a payment for an order awaiting payment and moves the order to
      WAITING_CONFIRMATION; `slip` is the stored upload's name, None when no file
      was sent. A missing slip fails when its name is read, and a transfer date
      that does not parse is refused by the database, both after the guards. */
  function CreatePayment(s: Store, req: PaymentRequest, slip: Option<string>, now: int)
    : (r: Result<(Store, Payment)>)
    ensures !IsId(req.rentalOrderId, |s.orders|) ==> r == Err(NotFound("Order not found"))
    ensures (IsId(req.rentalOrderId, |s.orders|) && s.orders[req.rentalOrderId - 1].status != PendingPayment)
            ==> r == Err(BadRequest("Order status is not pending payment"))
    ensures (&& IsId(req.rentalOrderId, |s.orders|)
             && s.orders[req.rentalOrderId - 1].status == PendingPayment
             && slip.None?)
            ==> r == Err(NoSlipError)
    ensures (&& IsId(req.rentalOrderId, |s.orders|)
             && s.orders[req.rentalOrderId - 1].status == PendingPayment
             && slip.Some? && req.transferDate.None?)
            ==> r == Err(StoreFailure)
    ensures r.Ok? <==> (&& IsId(req.rentalOrderId, |s.orders|)
                        && s.orders[req.rentalOrderId - 1].status == PendingPayment
                        && slip.Some? && req.transferDate.Some?)
    ensures r.Ok? ==>
      var (s', pay) := r.value;
      var i := req.rentalOrderId - 1;
      && pay == Payment(|s.payments| + 1, req.rentalOrderId, req.amount, req.bankName,
                        req.transferDate.value, "/uploads/" + slip.value)
      && s'.payments == s.payments + [pay]
      && |s'.orders| == |s.orders|
      && s'.orders[i] == s.orders[i].(status := WaitingConfirmation)
      && (forall k :: 0 <= k < |s.orders| && k != i ==> s'.orders[k] == s.orders[k])
      && s'.history == s.history + [HistoryEntry(req.rentalOrderId, WaitingConfirmation, SlipNote, CustomerActor, now)]
      && s'.branches == s.branches && s'.products == s.products && s'.customers == s.customers
  {
    if !IsId(req.rentalOrderId, |s.orders|) then Err(NotFound("Order not found"))
    else
      var i := req.rentalOrderId - 1;
      var o := s.orders[i];
      if o.status != PendingPayment then Err(BadRequest("Order status is not pending payment"))
      else if slip.None? then Err(NoSlipError)
      else if req.transferDate.None? then Err(StoreFailure)
      else
        var pay := Payment(
          id := |s.payments| + 1,
          rentalOrderId := req.rentalOrderId,
          amount := req.amount,
          bankName := req.bankName,
          transferDate := req.transferDate.value,
          slipUrl := UploadPath(slip.value));
        var entry := HistoryEntry(req.rentalOrderId, WaitingConfirmation, SlipNote, CustomerActor, now);
        Ok((s.(orders := s.orders[i := o.(status := WaitingConfirmation)],
               payments := s.payments + [pay],
               history := s.history + [entry]),
            pay))
  }

  /** A slip for an order already paid for is refused: the first payment moved it
      out of PENDING_PAYMENT, and nothing in the store changes. */
  lemma SecondPaymentRejected(s: Store, req1: PaymentRequest, file1: Option<string>, now1: int,
                              req2: PaymentRequest, file2: Option<string>, now2: int)
    requires CreatePayment(s, req1, file1, now1).Ok?
    requires req2.rentalOrderId == req1.rentalOrderId
    ensures CreatePayment(CreatePayment(s, req1, file1, now1).value.0, req2, file2, now2)
            == Err(BadRequest("Order status is not pending payment"))
  {
  }

  /** Every history entry a payment appends records the status the order now has. */
  lemma PaymentHistoryMatchesOrder(s: Store, req: PaymentRequest, file: Option<string>, now: int)
    requires CreatePayment(s, req, file, now).Ok?
    ensures var s' := CreatePayment(s, req, file, now).value.0;
      var e := s'.history[|s'.history| - 1];
      && |s'.history| == |s.history| + 1
      && s'.history[..|s.history|] == s.history
      && IsId(e.rentalOrderId, |s'.orders|)
      && s'.orders[e.rentalOrderId - 1].status == e.status
  {
    var s' := CreatePayment(s, req, file, now).value.0;
    assert s'.history[..|s.history|] == s.history;
  }

  /** Paying keeps every database constraint. */
  lemma CreatePaymentPreservesValid(s: Store, req: PaymentRequest, file: Option<string>, now: int)
    requires Valid(s)
    ensures var r := CreatePayment(s, req, file, now);
      r.Ok? ==> Valid(r.value.0)
  {
    var r := CreatePayment(s, req, file, now);
    if r.Ok? {
      var s' := r.value.0;
      var i := req.rentalOrderId - 1;
      forall k | 0 <= k < |s'.orders|
        ensures OrderLinksResolve(s', s'.orders[k], k)
      {
        assert OrderLinksResolve(s, s.orders[k], k);
      }
      forall k | 0 <= k < |s'.history|
        ensures IsId(s'.history[k].rentalOrderId, |s'.orders|)
      {
        if k < |s.history| {
          assert s'.history[k] == s.history[k];
        }
      }
      forall k | 0 <= k < |s'.payments|
        ensures s'.payments[k].id == k + 1 && IsId(s'.payments[k].rentalOrderId, |s'.orders|)
      {
        if k < |s.payments| {
          assert s'.payments[k] == s.payments[k];
        }
      }
    }
  }
}
