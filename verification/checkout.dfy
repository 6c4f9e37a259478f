/** Creating sales: the QR checkout (`generateQR`) that opens a provider session and stores a pending
    record keyed by the session id, the latest-status poll, and the NFC path (`processPayment`) that
    stores a paid record once the provider confirms the intent. Amounts are integer minor units. */
module Checkout {
  import opened Common
  import Seqs
  import Text
  import opened PosRecords

  /** A product as the till sends it in the request body. */
  datatype CartProduct = CartProduct(
    productId: string,
    sectionId: string,
    name: string,
    imageUrl: Option<string>,
    info: string,
    price: int,
    bonusPercentage: int,
    isInBonus: bool)

  /** One line item of the session request. */
  datatype QrLineItem = QrLineItem(
    name: string,
    description: string,
    image: Option<string>,
    productId: string,
    unitAmount: int,
    quantity: int)

  datatype SessionMetadata = SessionMetadata(deviceId: string, companyId: string, productIds: string, stripeAccountId: string)

  /** What `generateQR` asks the provider to create. */
  datatype SessionRequest = SessionRequest(lineItems: seq<QrLineItem>, metadata: SessionMetadata)

  /** The provider's answer to a session creation. */
  datatype NewSession = NewSession(id: string, url: string)

  /** The response status, the session request sent (if any) and the collection afterwards. */
  datatype QrResult = QrResult(status: int, request: Option<SessionRequest>, transactions: seq<Transaction>)

  /** The bonus price: the list price less `bonusPercentage` percent, in whole minor units. */
  function Discounted(price: int, bonusPercentage: int): int {
    price - (price * bonusPercentage) / 100
  }

  /** The unit amount charged for a product: discounted only while the product is in bonus. */
  function UnitAmount(p: CartProduct): (r: int)
    ensures !p.isInBonus ==> r == p.price
    ensures p.isInBonus && p.bonusPercentage == 0 ==> r == p.price
    ensures p.isInBonus && p.price >= 0 && 0 <= p.bonusPercentage <= 100 ==> 0 <= r <= p.price
  {
    if p.isInBonus then Discounted(p.price, p.bonusPercentage) else p.price
  }

  /** `product.info || "No description available"`. */
  function Description(info: string): string {
    if info == "" then "No description available" else info
  }

  function LineItems(products: seq<CartProduct>, quantities: seq<int>): (r: seq<QrLineItem>)
    requires |products| == |quantities|
    ensures |r| == |products|
    ensures forall i :: 0 <= i < |r| ==>
      r[i] == QrLineItem(products[i].name, Description(products[i].info), products[i].imageUrl,
                         products[i].productId, UnitAmount(products[i]), quantities[i])
  {
    seq(|products|, i requires 0 <= i < |products| =>
      QrLineItem(products[i].name, Description(products[i].info), products[i].imageUrl,
                 products[i].productId, UnitAmount(products[i]), quantities[i]))
  }

  function ProductIds(products: seq<CartProduct>): (r: seq<string>)
    ensures |r| == |products|
    ensures forall i :: 0 <= i < |r| ==> r[i] == products[i].productId
  {
    seq(|products|, i requires 0 <= i < |products| => products[i].productId)
  }

  /** The bought entries both creation paths store: one per product, in order, at the list price,
      with the quantity at the same index. */
  function BoughtFromCart(products: seq<CartProduct>, quantities: seq<int>, now: int): (r: seq<ProductBought>)
    requires |products| <= |quantities|
    ensures |r| == |products|
  {
    seq(|products|, i requires 0 <= i < |products| =>
      ProductBought(products[i].sectionId, products[i].productId, products[i].name, products[i].imageUrl, now,
                    products[i].isInBonus,
                    if products[i].isInBonus then Some(Discounted(products[i].price, products[i].bonusPercentage)) else None,
                    products[i].price, quantities[i]))
  }

  /** The entries mirror the cart one to one. */
  lemma BoughtMirrorsCart(products: seq<CartProduct>, quantities: seq<int>, now: int)
    requires |products| <= |quantities|
    ensures var b := BoughtFromCart(products, quantities, now);
            forall i :: 0 <= i < |b| ==>
              && b[i].productId == products[i].productId
              && b[i].sectionId == products[i].sectionId
              && b[i].quantity == quantities[i]
              && b[i].priceBought == products[i].price
              && b[i].wasInBonus == products[i].isInBonus
              && (b[i].bonusPrice.Some? <==> products[i].isInBonus)
  {
  }

  function AmountOf(items: seq<QrLineItem>): int {
    if |items| == 0 then 0 else items[0].unitAmount * items[0].quantity + AmountOf(items[1..])
  }

  /** The pending record `generateQR` stores for a session. */
  function PendingRecord(sessionId: string, deviceId: string, companyId: string, now: int,
                         products: seq<CartProduct>, quantities: seq<int>): Transaction
    requires |products| == |quantities|
  {
    Transaction(sessionId, None, deviceId, companyId, now, "pending", "pending", Some("pending"),
                BoughtFromCart(products, quantities, now), Seqs.Sum(quantities),
                AmountOf(LineItems(products, quantities)))
  }

  /** `generateQR`. Mismatched lengths fail with 400 before any provider call; a provider or save
      failure is also a 400. */
  function GenerateQR(txs: seq<Transaction>, companyId: string, deviceId: string, stripeAccount: string,
                      products: seq<CartProduct>, quantities: seq<int>, now: int, session: Fetch<NewSession>): (r: QrResult)
    ensures |products| != |quantities| ==> r == QrResult(400, None, txs)
    ensures r.status == 200 || r.status == 400
    ensures r.status == 400 ==> r.transactions == txs
    ensures r.request.Some? <==> |products| == |quantities|
    ensures r.request.Some? ==>
      && |r.request.value.lineItems| == |products|
      && (forall i :: 0 <= i < |products| ==>
            && r.request.value.lineItems[i].productId == products[i].productId
            && r.request.value.lineItems[i].quantity == quantities[i]
            && r.request.value.lineItems[i].unitAmount == (if products[i].isInBonus then Discounted(products[i].price, products[i].bonusPercentage) else products[i].price))
      && r.request.value.metadata == SessionMetadata(deviceId, companyId, Text.Join(ProductIds(products), ','), stripeAccount)
    ensures r.status == 200 <==>
      |products| == |quantities| && session.Fetched? &&
      Insert(txs, PendingRecord(session.value.id, deviceId, companyId, now, products, quantities)).Some?
    ensures r.status == 200 ==>
      r.transactions == txs + [PendingRecord(session.value.id, deviceId, companyId, now, products, quantities)]
    ensures ValidTransactions(txs) ==> ValidTransactions(r.transactions)
  {
    if |products| != |quantities| then QrResult(400, None, txs)
    else
      var request := SessionRequest(LineItems(products, quantities),
                                    SessionMetadata(deviceId, companyId, Text.Join(ProductIds(products), ','), stripeAccount));
      match session
      case Unavailable => QrResult(400, Some(request), txs)
      case Fetched(s) =>
        match Insert(txs, PendingRecord(s.id, deviceId, companyId, now, products, quantities))
        case None => QrResult(400, Some(request), txs)
        case Some(txs') => QrResult(200, Some(request), txs')
  }

  /** What the stored pending record says: keyed by the session id, with status, method and receipt
      all "pending", the total quantity the sum of the quantities, the amount the sum of unit amount
      times quantity, and one entry per product in order at the undiscounted list price. */
  lemma PendingRecordContents(sessionId: string, deviceId: string, companyId: string, now: int,
                              products: seq<CartProduct>, quantities: seq<int>)
    requires |products| == |quantities|
    ensures var t := PendingRecord(sessionId, deviceId, companyId, now, products, quantities);
            && t.transactionId == sessionId
            && t.status == "pending" && t.paymentMethod == "pending" && t.receiptUrl == Some("pending")
            && t.status == DefaultStatus
            && t.totalQuantity == Seqs.Sum(quantities)
            && t.totalAmount == AmountOf(LineItems(products, quantities))
            && |t.productsBought| == |products|
            && (forall i :: 0 <= i < |products| ==>
                  t.productsBought[i].productId == products[i].productId &&
                  t.productsBought[i].quantity == quantities[i] &&
                  t.productsBought[i].priceBought == products[i].price)
  {
    BoughtMirrorsCart(products, quantities, now);
  }

  /** The metadata's `product_ids` splits back into the product ids, in order, whenever no id
      contains a comma. */
  lemma ProductIdsRoundTrip(products: seq<CartProduct>)
    requires |products| > 0
    requires forall i :: 0 <= i < |products| ==> ',' !in products[i].productId
    ensures Text.Split(Text.Join(ProductIds(products), ','), ',') == ProductIds(products)
  {
    Text.SplitJoin(ProductIds(products), ',');
  }

  // ---------------------------------------------------------------- latest status

  /** The index of the company's most recent record: the greatest `transactionDate`, the earliest
      stored among equals. */
  function Latest(txs: seq<Transaction>, companyId: string): (r: Option<nat>)
    ensures r.None? <==> forall j :: 0 <= j < |txs| ==> txs[j].companyId != companyId
    ensures r.Some? ==> r.value < |txs| && txs[r.value].companyId == companyId
    ensures r.Some? ==> forall j :: 0 <= j < |txs| && txs[j].companyId == companyId ==>
      txs[j].transactionDate <= txs[r.value].transactionDate
    decreases |txs|
  {
    if |txs| == 0 then None
    else
      var last := |txs| - 1;
      var rest := Latest(txs[..last], companyId);
      if txs[last].companyId != companyId then rest
      else match rest
        case None => Some(last)
        case Some(k) => if txs[last].transactionDate > txs[k].transactionDate then Some(last) else Some(k)
  }

  datatype LatestReply =
    | NoTransactions
    | LatestStatus(paid: bool, transactionId: string, amount: int, date: int, receiptUrl: Option<string>)

  /** `checkLatestTransactionStatus`: 404 without transactions, otherwise "paid" exactly when the
      latest record's status is the string "paid" ("pending", "unpaid" or "refunded" report unpaid). */
  function CheckLatestTransactionStatus(txs: seq<Transaction>, companyId: string): (r: (int, LatestReply))
    ensures r.0 == 404 <==> forall j :: 0 <= j < |txs| ==> txs[j].companyId != companyId
    ensures r.0 == 404 <==> r.1.NoTransactions?
    ensures r.0 == 200 || r.0 == 404
    ensures r.1.LatestStatus? ==>
      exists j :: (0 <= j < |txs| && txs[j].companyId == companyId &&
                   txs[j].transactionId == r.1.transactionId && (r.1.paid <==> txs[j].status == "paid") &&
                   r.1.date == txs[j].transactionDate &&
                   r.1.amount == txs[j].totalAmount && r.1.receiptUrl == txs[j].receiptUrl &&
                   (forall k :: 0 <= k < |txs| && txs[k].companyId == companyId ==> txs[k].transactionDate <= r.1.date))
  {
    match Latest(txs, companyId)
    case None => (404, NoTransactions)
    case Some(k) =>
      var t := txs[k];
      (200, LatestStatus(t.status == "paid", t.transactionId, t.totalAmount, t.transactionDate, t.receiptUrl))
  }

  // ---------------------------------------------------------------- NFC

  datatype Charge = Charge(receiptUrl: Option<string>)

  /** The confirmed intent. `charges` is `None` when the intent object carries no charge list. */
  datatype ConfirmedIntent = ConfirmedIntent(
    id: string,
    status: string,
    amount: int,
    metadataDeviceId: string,
    charges: Option<seq<Charge>>)

  /** `paymentIntent.charges.data[0]?.receipt_url || null`. */
  function FirstReceipt(charges: seq<Charge>): Option<string> {
    if |charges| == 0 then None
    else if charges[0].receiptUrl == Some("") then None
    else charges[0].receiptUrl
  }

  function PaidRecord(pi: ConfirmedIntent, companyId: string, now: int, products: seq<CartProduct>, quantities: seq<int>): Transaction
    requires pi.charges.Some?
    requires |products| <= |quantities|
  {
    Transaction(pi.id, None, pi.metadataDeviceId, companyId, now, "nfc", "paid", FirstReceipt(pi.charges.value),
                BoughtFromCart(products, quantities, now), Seqs.Sum(quantities), pi.amount)
  }

  /** `processPayment`. A failed confirmation, a status other than "succeeded", an intent without a
      charge list, a product without a quantity (the entry's required `quantity`) or a failed save all
      answer 400 and store nothing. */
  function ProcessPayment(txs: seq<Transaction>, companyId: string, products: seq<CartProduct>, quantities: seq<int>,
                          now: int, confirmed: Fetch<ConfirmedIntent>): (r: (int, seq<Transaction>))
    ensures r.0 == 200 || r.0 == 400
    ensures r.0 == 400 ==> r.1 == txs
    ensures confirmed.Fetched? && confirmed.value.status != "succeeded" ==> r == (400, txs)
    ensures r.0 == 200 <==>
      && confirmed.Fetched? && confirmed.value.status == "succeeded"
      && confirmed.value.charges.Some? && |products| <= |quantities|
      && Insert(txs, PaidRecord(confirmed.value, companyId, now, products, quantities)).Some?
    ensures r.0 == 200 ==>
      && |r.1| == |txs| + 1 && r.1[..|txs|] == txs
      && r.1[|txs|].transactionId == confirmed.value.id
      && r.1[|txs|].paymentMethod == "nfc" && r.1[|txs|].status == "paid"
      && r.1[|txs|].deviceId == confirmed.value.metadataDeviceId
      && r.1[|txs|].companyId == companyId
      && r.1[|txs|].totalQuantity == Seqs.Sum(quantities)
      && r.1[|txs|].totalAmount == confirmed.value.amount
      && r.1[|txs|].productsBought == BoughtFromCart(products, quantities, now)
    ensures ValidTransactions(txs) ==> ValidTransactions(r.1)
  {
    match confirmed
    case Unavailable => (400, txs)
    case Fetched(pi) =>
      if pi.status != "succeeded" then (400, txs)
      else if pi.charges.None? || |products| > |quantities| then (400, txs)
      else
        match Insert(txs, PaidRecord(pi, companyId, now, products, quantities))
        case None => (400, txs)
        case Some(txs') => (200, txs')
  }

  /** An NFC sale is stored only with a receipt: a first charge without `receipt_url` leaves the
      required receipt null, so the save fails and nothing is stored. */
  lemma NfcNeedsReceipt(txs: seq<Transaction>, companyId: string, products: seq<CartProduct>, quantities: seq<int>,
                        now: int, pi: ConfirmedIntent)
    requires pi.charges.Some? && (|pi.charges.value| == 0 || pi.charges.value[0].receiptUrl.None?)
    ensures ProcessPayment(txs, companyId, products, quantities, now, Fetched(pi)) == (400, txs)
  {
  }
}
