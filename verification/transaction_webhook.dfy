/** The point-of-sale payment webhook: signature gate, event dispatch, settlement of a completed
    checkout session (re-keying, stock decrements by line-item position, totals from the provider)
    and deletion on expiry. Provider reads are inputs; each delivery is one step over the store. */
module TransactionWebhook {
  import opened Common
  import Seqs
  import opened PosRecords

  /** A provider line item of a checkout session: quantity and unit price in minor units. */
  datatype LineItem = LineItem(quantity: int, unitAmount: int)

  /** The checkout-session object carried by a session event. `companyId` is its metadata entry;
      `created` is in seconds. */
  datatype CheckoutSession = CheckoutSession(
    id: string,
    paymentIntentId: string,
    companyId: string,
    created: int,
    paymentStatus: string,
    amountTotal: int)

  datatype PaymentIntent = PaymentIntent(id: string, paymentMethodId: string, latestCharge: Option<string>)

  /** What the provider answers, during settlement, to each read the handler makes. `receiptUrl` is
      the latest charge's `receipt_url` (`None` for null); it is only read when the intent has a charge. */
  datatype ProviderReads = ProviderReads(
    intent: Fetch<PaymentIntent>,
    lineItems: Fetch<seq<LineItem>>,
    methodType: Fetch<string>,
    receiptUrl: Fetch<Option<string>>)

  datatype Store = Store(transactions: seq<Transaction>, products: seq<Product>)

  /** A verified event. Payment-intent and charge events carry nothing the handlers use. */
  datatype Event =
    | CheckoutCompleted(session: CheckoutSession)
    | CheckoutExpired(sessionId: string)
    | IntentSucceeded
    | IntentFailed
    | ChargeSucceeded
    | ChargeFailed
    | ChargeRefunded
    | Unhandled(eventType: string)

  /** A handler either returns or throws; writes made before a throw stay in the store. */
  datatype Outcome = Done(store: Store) | Threw(store: Store)

  /** The HTTP status and the store after the delivery. */
  datatype Reply = Reply(status: int, store: Store)

  predicate ValidStore(st: Store) {
    ValidTransactions(st.transactions) && ValidProducts(st.products)
  }

  predicate HasCharge(pi: PaymentIntent) {
    pi.latestCharge.Some? && pi.latestCharge.value != ""
  }

  function Quantities(items: seq<LineItem>): (r: seq<int>)
    ensures |r| == |items|
    ensures forall k :: 0 <= k < |items| ==> r[k] == items[k].quantity
  {
    seq(|items|, k requires 0 <= k < |items| => items[k].quantity)
  }

  /** The settlement loop's writes: for each position `i` that has a line item, the stock of
      (`bought[i].productId`, `companyId`) drops by line item i's quantity; a missing product is skipped. */
  function SettleStock(ps: seq<Product>, bought: seq<ProductBought>, companyId: string, items: seq<LineItem>): (r: seq<Product>)
    ensures |r| == |ps|
    ensures forall j :: 0 <= j < |ps| ==> r[j] == ps[j].(itemNumber := r[j].itemNumber)
    decreases |bought|
  {
    if |bought| == 0 || |items| == 0 then ps
    else SettleStock(Decrement(ps, bought[0].productId, companyId, items[0].quantity), bought[1..], companyId, items[1..])
  }

  /** The total quantity the paired line items take from product `pid`: the sum of `items[i].quantity`
      over the positions `i` (present in both sequences) whose bought entry names `pid`. */
  function QuantityFor(bought: seq<ProductBought>, items: seq<LineItem>, pid: string): int
    decreases |bought|
  {
    if |bought| == 0 || |items| == 0 then 0
    else (if bought[0].productId == pid then items[0].quantity else 0) + QuantityFor(bought[1..], items[1..], pid)
  }

  /** Stock after the settlement loop: every product of the session's company loses exactly what the
      positionally paired line items take from it (possibly going negative); no other product changes,
      and an absent product stays absent. */
  lemma {:induction false} SettleStockEffect(ps: seq<Product>, bought: seq<ProductBought>, companyId: string,
                                             items: seq<LineItem>, pid: string, company: string)
    ensures Stock(SettleStock(ps, bought, companyId, items), pid, company) ==
      Lowered(Stock(ps, pid, company), if company == companyId then QuantityFor(bought, items, pid) else 0)
    decreases |bought|
  {
    if |bought| > 0 && |items| > 0 {
      var next := Decrement(ps, bought[0].productId, companyId, items[0].quantity);
      var q := if bought[0].productId == pid && company == companyId then items[0].quantity else 0;
      var rest := if company == companyId then QuantityFor(bought[1..], items[1..], pid) else 0;
      if pid != bought[0].productId || company != companyId {
        StockOfOtherKey(ps, bought[0].productId, companyId, items[0].quantity, pid, company);
      } else {
        DecrementStock(ps, pid, company, items[0].quantity);
      }
      assert Stock(next, pid, company) == Lowered(Stock(ps, pid, company), q);
      SettleStockEffect(next, bought[1..], companyId, items[1..], pid, company);
      assert (if company == companyId then QuantityFor(bought, items, pid) else 0) == q + rest;
      LoweredTwice(Stock(ps, pid, company), q, rest);
      calc {
        Stock(SettleStock(ps, bought, companyId, items), pid, company);
        { assert SettleStock(ps, bought, companyId, items) == SettleStock(next, bought[1..], companyId, items[1..]); }
        Stock(SettleStock(next, bought[1..], companyId, items[1..]), pid, company);
        Lowered(Stock(next, pid, company), rest);
        Lowered(Lowered(Stock(ps, pid, company), q), rest);
        Lowered(Stock(ps, pid, company), q + rest);
      }
    }
  }

  lemma LoweredTwice(stock: Option<int>, a: int, b: int)
    ensures Lowered(Lowered(stock, a), b) == Lowered(stock, a + b)
  {
  }

  lemma LoweredDouble(stock: Option<int>, a: int)
    ensures Lowered(Lowered(stock, a), a) == Lowered(stock, 2 * a)
  {
  }

  /** Each bought entry takes its unit price and quantity from the line item at the same position. */
  function PriceFromLineItems(bought: seq<ProductBought>, items: seq<LineItem>): (r: seq<ProductBought>)
    requires |bought| <= |items|
    ensures |r| == |bought|
    ensures forall k :: 0 <= k < |r| ==> r[k] == bought[k].(priceBought := items[k].unitAmount, quantity := items[k].quantity)
  {
    seq(|bought|, k requires 0 <= k < |bought| => bought[k].(priceBought := items[k].unitAmount, quantity := items[k].quantity))
  }

  /** The record as the completion handler rewrites it before saving. */
  function Settled(t: Transaction, s: CheckoutSession, pi: PaymentIntent, items: seq<LineItem>,
                   methodType: string, receipt: Option<string>): Transaction
    requires |t.productsBought| <= |items|
  {
    t.(sessionId := Some(s.id),
       transactionId := pi.id,
       transactionDate := s.created * 1000,
       paymentMethod := methodType,
       status := s.paymentStatus,
       receiptUrl := receipt,
       productsBought := PriceFromLineItems(t.productsBought, items),
       totalQuantity := Seqs.Sum(Quantities(items)),
       totalAmount := s.amountTotal)
  }

  /** The receipt URL the handler stores: the latest charge's, or null when the intent has no charge. */
  function ReceiptOf(pi: PaymentIntent, answers: ProviderReads): Option<string>
    requires HasCharge(pi) ==> answers.receiptUrl.Fetched?
  {
    if HasCharge(pi) then answers.receiptUrl.value else None
  }

  /** Every provider read after the record lookup succeeded. */
  predicate ReadsAvailable(pi: PaymentIntent, answers: ProviderReads) {
    answers.lineItems.Fetched? && answers.methodType.Fetched? && (HasCharge(pi) ==> answers.receiptUrl.Fetched?)
  }

  /** `handleCheckoutSessionCompleted`. The intent is read first; then the record whose
      `transactionId` is the session id is looked up, and a miss returns without writing. All other
      provider reads precede the first write. The loop decrements stock position by position and
      throws at the first position with no line item; the save then validates and may throw too. */
  function CompleteSession(st: Store, s: CheckoutSession, answers: ProviderReads): (r: Outcome)
    ensures answers.intent.Unavailable? ==> r == Threw(st)
    ensures answers.intent.Fetched? && FindTransaction(st.transactions, s.id).None? ==> r == Done(st)
    ensures (answers.intent.Fetched? && FindTransaction(st.transactions, s.id).Some? &&
             !ReadsAvailable(answers.intent.value, answers)) ==>
      r == Threw(st)
    ensures (&& answers.intent.Fetched? && FindTransaction(st.transactions, s.id).Some?
             && ReadsAvailable(answers.intent.value, answers)
             && |st.transactions[FindTransaction(st.transactions, s.id).value].productsBought| <= |answers.lineItems.value|
             && SaveAt(st.transactions, FindTransaction(st.transactions, s.id).value,
                       Settled(st.transactions[FindTransaction(st.transactions, s.id).value], s, answers.intent.value,
                               answers.lineItems.value, answers.methodType.value,
                               ReceiptOf(answers.intent.value, answers))).Some?) ==>
      && r.Done?
      && r.store.transactions == SaveAt(st.transactions, FindTransaction(st.transactions, s.id).value,
                                        Settled(st.transactions[FindTransaction(st.transactions, s.id).value], s,
                                                answers.intent.value, answers.lineItems.value, answers.methodType.value,
                                                ReceiptOf(answers.intent.value, answers))).value
    ensures r.Done? && answers.intent.Fetched? && FindTransaction(st.transactions, s.id).Some? ==>
      ReadsAvailable(answers.intent.value, answers)
      && |st.transactions[FindTransaction(st.transactions, s.id).value].productsBought| <= |answers.lineItems.value|
    ensures |r.store.transactions| == |st.transactions|
    ensures forall j :: 0 <= j < |st.transactions| && Some(j) != FindTransaction(st.transactions, s.id) ==>
      r.store.transactions[j] == st.transactions[j]
    ensures r.Threw? ==> r.store.transactions == st.transactions
    ensures ValidStore(st) ==> ValidStore(r.store)
  {
    match answers.intent
    case Unavailable => Threw(st)
    case Fetched(pi) =>
      match FindTransaction(st.transactions, s.id)
      case None => Done(st)
      case Some(i) =>
        if !ReadsAvailable(pi, answers) then Threw(st)
        else
          var items := answers.lineItems.value;
          var t := st.transactions[i];
          var ps := SettleStock(st.products, t.productsBought, s.companyId, items);
          StockChangeKeepsValidity(st.products, ps);
          if |items| < |t.productsBought| then Threw(st.(products := ps))
          else
            match SaveAt(st.transactions, i, Settled(t, s, pi, items, answers.methodType.value, ReceiptOf(pi, answers)))
            case None => Threw(st.(products := ps))
            case Some(txs) => Done(Store(txs, ps))
  }

  /** What a successful settlement stores: the record found by the session id is re-keyed to the
      intent id and remembers the session id; its status is the session's payment status (not a fixed
      value), its receipt is the latest charge's, every bought entry takes price and quantity from the
      line item at its position, the total quantity is the sum over all line items and the amount is the
      session total. Device, company and the product identities are kept. */
  lemma SettledRecord(st: Store, s: CheckoutSession, answers: ProviderReads)
    requires answers.intent.Fetched? && FindTransaction(st.transactions, s.id).Some?
    requires CompleteSession(st, s, answers).Done?
    ensures var i := FindTransaction(st.transactions, s.id).value;
            var pi := answers.intent.value;
            var old_ := st.transactions[i];
            var new_ := CompleteSession(st, s, answers).store.transactions[i];
            && ReadsAvailable(pi, answers)
            && new_.transactionId == pi.id
            && new_.sessionId == Some(s.id)
            && new_.status == s.paymentStatus
            && new_.paymentMethod == answers.methodType.value
            && new_.receiptUrl == ReceiptOf(pi, answers)
            && new_.receiptUrl.Some?
            && new_.transactionDate == s.created * 1000
            && new_.deviceId == old_.deviceId && new_.companyId == old_.companyId
            && |new_.productsBought| == |old_.productsBought| <= |answers.lineItems.value|
            && (forall k :: 0 <= k < |new_.productsBought| ==>
                  && new_.productsBought[k].quantity == answers.lineItems.value[k].quantity
                  && new_.productsBought[k].priceBought == answers.lineItems.value[k].unitAmount
                  && new_.productsBought[k].productId == old_.productsBought[k].productId)
            && new_.totalQuantity == Seqs.Sum(Quantities(answers.lineItems.value))
            && new_.totalAmount == s.amountTotal
  {
  }

  /** A settlement of a stored record succeeds when every read answers, the intent has a charge with a
      receipt link, the provider names a payment method and status, the session lists a line item
      for every bought entry, and no other record already carries the intent id. */
  lemma SettlementSucceeds(st: Store, s: CheckoutSession, answers: ProviderReads)
    requires ValidStore(st)
    requires answers.intent.Fetched? && FindTransaction(st.transactions, s.id).Some?
    requires answers.lineItems.Fetched? && answers.methodType.Fetched? && Present(answers.methodType.value)
    requires HasCharge(answers.intent.value) && answers.receiptUrl.Fetched? && PresentOpt(answers.receiptUrl.value)
    requires Present(answers.intent.value.id) && Present(s.paymentStatus)
    requires |st.transactions[FindTransaction(st.transactions, s.id).value].productsBought| <= |answers.lineItems.value|
    requires forall j :: 0 <= j < |st.transactions| && j != FindTransaction(st.transactions, s.id).value ==>
               st.transactions[j].transactionId != answers.intent.value.id
    ensures CompleteSession(st, s, answers).Done?
  {
    var i := FindTransaction(st.transactions, s.id).value;
    var t := st.transactions[i];
    assert ValidTransaction(t);
    var settled := Settled(t, s, answers.intent.value, answers.lineItems.value, answers.methodType.value,
                           ReceiptOf(answers.intent.value, answers));
    assert forall k :: 0 <= k < |settled.productsBought| ==> ValidProductBought(t.productsBought[k]);
    assert ValidTransaction(settled);
  }

  /** Once the intent, the record and every other provider read are there, the settlement reaches the
      stock loop, and its stock effect holds whether or not the save later fails. (A missing read
      throws before the loop; `CompleteSession` states that no product changes then.) */
  lemma SettlementStock(st: Store, s: CheckoutSession, answers: ProviderReads, pid: string, company: string)
    requires answers.intent.Fetched? && FindTransaction(st.transactions, s.id).Some?
    requires ReadsAvailable(answers.intent.value, answers)
    ensures var t := st.transactions[FindTransaction(st.transactions, s.id).value];
            Stock(CompleteSession(st, s, answers).store.products, pid, company) ==
              Lowered(Stock(st.products, pid, company), if company == s.companyId then QuantityFor(t.productsBought, answers.lineItems.value, pid) else 0)
  {
    var t := st.transactions[FindTransaction(st.transactions, s.id).value];
    SettleStockEffect(st.products, t.productsBought, s.companyId, answers.lineItems.value, pid, company);
  }

  /** `handleCheckoutSessionExpired`: delete the record keyed by the session id, whatever its status;
      stock is never touched. */
  function ExpireSession(st: Store, sessionId: string): (r: Store)
    ensures r.products == st.products
    ensures FindTransaction(st.transactions, sessionId).None? ==> r == st
    ensures FindTransaction(st.transactions, sessionId).Some? ==> |r.transactions| == |st.transactions| - 1
    ensures ValidTransactions(st.transactions) ==> FindTransaction(r.transactions, sessionId).None?
    ensures ValidStore(st) ==> ValidStore(r)
  {
    st.(transactions := DeleteTransaction(st.transactions, sessionId))
  }

  /** The switch in `handleStripeWebhook`: only the two session events write; the payment-intent and
      charge handlers (refund included) only log, and an unknown type falls through to the default. */
  function Handle(st: Store, e: Event, answers: ProviderReads): (r: Outcome)
    ensures !e.CheckoutCompleted? && !e.CheckoutExpired? ==> r == Done(st)
    ensures e.CheckoutExpired? ==> r.Done?
    ensures ValidStore(st) ==> ValidStore(r.store)
  {
    match e
    case CheckoutCompleted(s) => CompleteSession(st, s, answers)
    case CheckoutExpired(sid) => Done(ExpireSession(st, sid))
    case _ => Done(st)
  }

  /** `handleStripeWebhook`. `ready` says whether the provider client was initialised; `verified` is
      the event the signature check yields, or `None` when it (or loading the secret) fails. */
  function HandleWebhook(ready: bool, verified: Option<Event>, answers: ProviderReads, st: Store): (r: Reply)
    ensures !ready ==> r == Reply(500, st)
    ensures ready && verified.None? ==> r == Reply(400, st)
    ensures ready && verified.Some? ==>
      (r.status == 200 <==> Handle(st, verified.value, answers).Done?) &&
      (r.status == 500 <==> Handle(st, verified.value, answers).Threw?) &&
      r.store == Handle(st, verified.value, answers).store
    ensures ValidStore(st) ==> ValidStore(r.store)
  {
    if !ready then Reply(500, st)
    else match verified
      case None => Reply(400, st)
      case Some(e) =>
        match Handle(st, e, answers)
        case Done(st') => Reply(200, st')
        case Threw(st') => Reply(500, st')
  }

  /** Every event whose handler does not throw is acknowledged, including types nobody handles. */
  lemma UnhandledAcknowledged(st: Store, t: string, answers: ProviderReads)
    ensures HandleWebhook(true, Some(Unhandled(t)), answers, st) == Reply(200, st)
    ensures HandleWebhook(true, Some(ChargeRefunded), answers, st) == Reply(200, st)
  {
  }

  /** Re-keying makes settlement idempotent: once a session has been settled (and the intent id
      differs from the session id), a redelivered completion for that session finds no record and,
      whatever the provider answers, changes nothing. */
  lemma RedeliveryIsNoop(st: Store, s: CheckoutSession, answers: ProviderReads, answers2: ProviderReads)
    requires ValidTransactions(st.transactions)
    requires answers.intent.Fetched? && answers.intent.value.id != s.id
    requires CompleteSession(st, s, answers).Done?
    ensures CompleteSession(CompleteSession(st, s, answers).store, s, answers2).store == CompleteSession(st, s, answers).store
  {
    var after := CompleteSession(st, s, answers).store;
    var found := FindTransaction(st.transactions, s.id);
    if found.Some? {
      SettledRecord(st, s, answers);
      assert FindTransaction(after.transactions, s.id).None?;
    }
  }

  /** Likewise a later expiry for a settled session deletes nothing. */
  lemma ExpiryAfterSettlementIsNoop(st: Store, s: CheckoutSession, answers: ProviderReads)
    requires ValidTransactions(st.transactions)
    requires answers.intent.Fetched? && answers.intent.value.id != s.id
    requires CompleteSession(st, s, answers).Done?
    ensures ExpireSession(CompleteSession(st, s, answers).store, s.id) == CompleteSession(st, s, answers).store
  {
    var after := CompleteSession(st, s, answers).store;
    if FindTransaction(st.transactions, s.id).Some? {
      SettledRecord(st, s, answers);
      assert FindTransaction(after.transactions, s.id).None?;
    }
  }

  /** The decrements are written before the save. When the save fails, here because an intent without
      a charge leaves `receiptUrl` null and the schema requires it, the delivery answers 500 with the
      record still keyed by the session id, so the provider's retry finds it and decrements again. */
  lemma FailedSaveDecrementsTwice(st: Store, s: CheckoutSession, answers: ProviderReads, pid: string)
    requires answers.intent.Fetched? && !HasCharge(answers.intent.value)
    requires FindTransaction(st.transactions, s.id).Some?
    requires ReadsAvailable(answers.intent.value, answers)
    requires |st.transactions[FindTransaction(st.transactions, s.id).value].productsBought| <= |answers.lineItems.value|
    ensures CompleteSession(st, s, answers).Threw?
    ensures CompleteSession(st, s, answers).store.transactions == st.transactions
    ensures CompleteSession(CompleteSession(st, s, answers).store, s, answers).Threw?
    ensures Stock(CompleteSession(CompleteSession(st, s, answers).store, s, answers).store.products, pid, s.companyId) ==
      Lowered(Stock(st.products, pid, s.companyId),
              2 * QuantityFor(st.transactions[FindTransaction(st.transactions, s.id).value].productsBought, answers.lineItems.value, pid))
  {
    var t := st.transactions[FindTransaction(st.transactions, s.id).value];
    NoChargeSaveFails(st, s, answers);
    var st1 := st.(products := SettleStock(st.products, t.productsBought, s.companyId, answers.lineItems.value));
    NoChargeSaveFails(st1, s, answers);
    SettleTwice(st.products, t.productsBought, s.companyId, answers.lineItems.value, pid);
  }

  /** Running the settlement loop twice takes the paired quantities twice. */
  lemma SettleTwice(ps: seq<Product>, bought: seq<ProductBought>, companyId: string, items: seq<LineItem>, pid: string)
    ensures Stock(SettleStock(SettleStock(ps, bought, companyId, items), bought, companyId, items), pid, companyId) ==
      Lowered(Stock(ps, pid, companyId), 2 * QuantityFor(bought, items, pid))
  {
    var qf := QuantityFor(bought, items, pid);
    var ps1 := SettleStock(ps, bought, companyId, items);
    SettleStockEffect(ps, bought, companyId, items, pid, companyId);
    SettleStockEffect(ps1, bought, companyId, items, pid, companyId);
    calc {
      Stock(SettleStock(ps1, bought, companyId, items), pid, companyId);
      Lowered(Stock(ps1, pid, companyId), qf);
      Lowered(Lowered(Stock(ps, pid, companyId), qf), qf);
      { LoweredDouble(Stock(ps, pid, companyId), qf); }
      Lowered(Stock(ps, pid, companyId), 2 * qf);
    }
  }

  /** Without a charge the rewritten record has no receipt, so its save fails after the stock loop. */
  lemma NoChargeSaveFails(st: Store, s: CheckoutSession, answers: ProviderReads)
    requires answers.intent.Fetched? && !HasCharge(answers.intent.value)
    requires FindTransaction(st.transactions, s.id).Some?
    requires ReadsAvailable(answers.intent.value, answers)
    requires |st.transactions[FindTransaction(st.transactions, s.id).value].productsBought| <= |answers.lineItems.value|
    ensures var t := st.transactions[FindTransaction(st.transactions, s.id).value];
            CompleteSession(st, s, answers) ==
              Threw(st.(products := SettleStock(st.products, t.productsBought, s.companyId, answers.lineItems.value)))
  {
  }
}
