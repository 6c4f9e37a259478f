/** `sendReceipt`: the decision tree that either returns a stored receipt link, asks the provider to
    e-mail a receipt, or explains why it cannot. The handler never writes. */
module Receipts {
  import opened Common
  import Text
  import opened PosRecords

  datatype ReceiptCharge = ReceiptCharge(id: string, receiptEmail: Option<string>)

  /** The fetched intent: its latest charge id, and its charge list when the object carries one. */
  datatype ReceiptIntent = ReceiptIntent(latestCharge: Option<string>, charges: Option<seq<ReceiptCharge>>)

  datatype ReceiptReply =
    | TransactionNotFound
    | AccountRequired
    | ReceiptLink(url: string)
    | NoReceiptUrl
    | NoCharge
    | EmailNotFound
    | ReceiptSent
    | AccessDenied
    | ProviderError

  function StatusOf(r: ReceiptReply): int {
    match r
    case TransactionNotFound => 404
    case AccountRequired => 400
    case ReceiptLink(_) => 200
    case NoReceiptUrl => 400
    case NoCharge => 400
    case EmailNotFound => 400
    case ReceiptSent => 200
    case AccessDenied => 403
    case ProviderError => 500
  }

  /** A latest charge whose id starts with "py_" (a Bancontact payment). */
  predicate BancontactCharge(pi: ReceiptIntent) {
    pi.latestCharge.Some? && pi.latestCharge.value != "" && Text.StartsWith(pi.latestCharge.value, "py_")
  }

  /** The charge whose receipt would be sent: the first of a non-empty charge list. */
  predicate HasFirstCharge(pi: ReceiptIntent) {
    pi.charges.Some? && |pi.charges.value| > 0
  }

  predicate HasReceiptEmail(c: ReceiptCharge) {
    c.receiptEmail.Some? && c.receiptEmail.value != ""
  }

  /** `sendReceipt`, with the provider's intent retrieval and receipt sending as answers. The second
      component says whether the provider was asked to send a receipt. */
  function SendReceipt(txs: seq<Transaction>, transactionId: string, stripeAccountId: string,
                       intent: ProviderAnswer<ReceiptIntent>, send: ProviderAnswer<()>): (r: (ReceiptReply, bool))
    ensures FindTransaction(txs, transactionId).None? ==> r == (TransactionNotFound, false)
    ensures FindTransaction(txs, transactionId).Some? && stripeAccountId == "" ==> r == (AccountRequired, false)
    ensures intent.Answered? && BancontactCharge(intent.value) && FindTransaction(txs, transactionId).Some? && stripeAccountId != "" ==>
      var t := txs[FindTransaction(txs, transactionId).value];
      r == (if t.receiptUrl.Some? && t.receiptUrl.value != "" then ReceiptLink(t.receiptUrl.value) else NoReceiptUrl, false)
    ensures r.1 <==>
      && FindTransaction(txs, transactionId).Some? && stripeAccountId != "" && intent.Answered?
      && !BancontactCharge(intent.value) && HasFirstCharge(intent.value)
      && HasReceiptEmail(intent.value.charges.value[0])
    ensures r.0 == ReceiptSent <==> r.1 && send.Answered?
    ensures r.0 == NoCharge <==>
      && FindTransaction(txs, transactionId).Some? && stripeAccountId != "" && intent.Answered?
      && !BancontactCharge(intent.value) && !HasFirstCharge(intent.value)
    ensures r.0 == EmailNotFound <==>
      && FindTransaction(txs, transactionId).Some? && stripeAccountId != "" && intent.Answered?
      && !BancontactCharge(intent.value) && HasFirstCharge(intent.value)
      && !HasReceiptEmail(intent.value.charges.value[0])
    ensures r.0 == ProviderError <==>
      (FindTransaction(txs, transactionId).Some? && stripeAccountId != "" &&
       (intent.ProviderFailed? || (r.1 && send.ProviderFailed?)))
    ensures r.0 == AccessDenied <==>
      (FindTransaction(txs, transactionId).Some? && stripeAccountId != "" &&
       (intent.PermissionDenied? || (r.1 && send.PermissionDenied?)))
  {
    match FindTransaction(txs, transactionId)
    case None => (TransactionNotFound, false)
    case Some(i) =>
      if stripeAccountId == "" then (AccountRequired, false)
      else
        match intent
        case PermissionDenied => (AccessDenied, false)
        case ProviderFailed => (ProviderError, false)
        case Answered(pi) =>
          if BancontactCharge(pi) then
            var url := txs[i].receiptUrl;
            (if url.Some? && url.value != "" then ReceiptLink(url.value) else NoReceiptUrl, false)
          else if !HasFirstCharge(pi) then (NoCharge, false)
          else if !HasReceiptEmail(pi.charges.value[0]) then (EmailNotFound, false)
          else
            match send
            case Answered(_) => (ReceiptSent, true)
            case PermissionDenied => (AccessDenied, true)
            case ProviderFailed => (ProviderError, true)
  }

  /** The 404 for an unknown transaction comes before the 400 for a missing account. */
  lemma NotFoundBeforeAccountCheck(txs: seq<Transaction>, transactionId: string,
                                   intent: ProviderAnswer<ReceiptIntent>, send: ProviderAnswer<()>)
    requires forall j :: 0 <= j < |txs| ==> txs[j].transactionId != transactionId
    ensures StatusOf(SendReceipt(txs, transactionId, "", intent, send).0) == 404
  {
  }

  /** Only a sent receipt or a Bancontact link answers 200. */
  lemma SuccessMeansLinkOrSent(txs: seq<Transaction>, transactionId: string, account: string,
                               intent: ProviderAnswer<ReceiptIntent>, send: ProviderAnswer<()>)
    ensures var r := SendReceipt(txs, transactionId, account, intent, send);
            StatusOf(r.0) == 200 <==> (r.0.ReceiptLink? || (r.1 && send.Answered?))
  {
  }
}
