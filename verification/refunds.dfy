/** `processRefund`: refunding a stored sale through the provider and marking it refunded. */
module Refunds {
  import opened Common
  import opened PosRecords

  datatype RefundOutcome = RefundOutcome(status: int, transactions: seq<Transaction>, providerCalled: bool)

  /** Unknown id: 404. Already "refunded": 400 without calling the provider. Any other status, pending
      included, calls the provider; a permission error answers 403, any other provider error 500, and
      in both cases the record is unchanged. On success the status becomes "refunded" and the record
      is saved; a failing save lands in the same handler and answers 500 (the provider has refunded). */
  function ProcessRefund(txs: seq<Transaction>, transactionId: string, refund: ProviderAnswer<string>): (r: RefundOutcome)
    ensures FindTransaction(txs, transactionId).None? ==> r == RefundOutcome(404, txs, false)
    ensures FindTransaction(txs, transactionId).Some? && txs[FindTransaction(txs, transactionId).value].status == "refunded" ==>
      r == RefundOutcome(400, txs, false)
    ensures r.providerCalled <==>
      FindTransaction(txs, transactionId).Some? && txs[FindTransaction(txs, transactionId).value].status != "refunded"
    ensures r.providerCalled && refund.PermissionDenied? ==> r == RefundOutcome(403, txs, true)
    ensures r.providerCalled && refund.ProviderFailed? ==> r == RefundOutcome(500, txs, true)
    ensures r.status != 200 ==> r.transactions == txs
    ensures r.status == 200 ==>
      var i := FindTransaction(txs, transactionId).value;
      r.transactions == txs[i := txs[i].(status := "refunded")]
    ensures ValidTransactions(txs) ==> ValidTransactions(r.transactions)
  {
    match FindTransaction(txs, transactionId)
    case None => RefundOutcome(404, txs, false)
    case Some(i) =>
      if txs[i].status == "refunded" then RefundOutcome(400, txs, false)
      else
        match refund
        case PermissionDenied => RefundOutcome(403, txs, true)
        case ProviderFailed => RefundOutcome(500, txs, true)
        case Answered(_) =>
          match SaveAt(txs, i, txs[i].(status := "refunded"))
          case None => RefundOutcome(500, txs, true)
          case Some(txs') => RefundOutcome(200, txs', true)
  }

  /** A valid stored record always saves with the new status, so a successful provider refund of a
      record not yet refunded answers 200. */
  lemma RefundOfValidRecordSucceeds(txs: seq<Transaction>, transactionId: string, refundId: string)
    requires ValidTransactions(txs)
    requires FindTransaction(txs, transactionId).Some?
    requires txs[FindTransaction(txs, transactionId).value].status != "refunded"
    ensures ProcessRefund(txs, transactionId, Answered(refundId)).status == 200
  {
  }

  /** After a successful refund, refunding the same transaction again is rejected with 400 and the
      provider is not called a second time. */
  lemma SecondRefundRejected(txs: seq<Transaction>, transactionId: string, first: ProviderAnswer<string>, second: ProviderAnswer<string>)
    requires ProcessRefund(txs, transactionId, first).status == 200
    ensures var after := ProcessRefund(txs, transactionId, first).transactions;
            ProcessRefund(after, transactionId, second) == RefundOutcome(400, after, false)
  {
    var i := FindTransaction(txs, transactionId).value;
    var after := txs[i := txs[i].(status := "refunded")];
    assert forall j :: 0 <= j < |txs| ==> after[j].transactionId == txs[j].transactionId;
    assert FindTransaction(after, transactionId) == Some(i);
  }
}
