/** Properties of the sale lifecycle across handlers: a QR checkout followed by the session's expiry,
    or by its settlement with the line items the checkout sent. */
module PosLifecycle {
  import opened Common
  import Seqs
  import opened PosRecords
  import opened Checkout
  import opened TransactionWebhook

  /** The line items as the provider lists them back for the session. */
  function AsListed(items: seq<QrLineItem>): (r: seq<LineItem>)
    ensures |r| == |items|
    ensures forall i :: 0 <= i < |r| ==> r[i] == LineItem(items[i].quantity, items[i].unitAmount)
  {
    seq(|items|, i requires 0 <= i < |items| => LineItem(items[i].quantity, items[i].unitAmount))
  }

  /** The cart's total quantity of product `pid`. */
  function CartQuantity(products: seq<CartProduct>, quantities: seq<int>, pid: string): int
    requires |products| <= |quantities|
    decreases |products|
  {
    if |products| == 0 then 0
    else (if products[0].productId == pid then quantities[0] else 0) + CartQuantity(products[1..], quantities[1..], pid)
  }

  /** The bought entries and the listed line items pair up position by position, so the quantity the
      settlement takes from each product is the cart's quantity of that product. */
  lemma {:induction false} PairedQuantity(products: seq<CartProduct>, quantities: seq<int>, now: int, pid: string)
    requires |products| == |quantities|
    ensures QuantityFor(BoughtFromCart(products, quantities, now), AsListed(LineItems(products, quantities)), pid) ==
      CartQuantity(products, quantities, pid)
    decreases |products|
  {
    if |products| > 0 {
      PairedQuantity(products[1..], quantities[1..], now, pid);
      assert BoughtFromCart(products, quantities, now)[1..] == BoughtFromCart(products[1..], quantities[1..], now);
      assert AsListed(LineItems(products, quantities))[1..] == AsListed(LineItems(products[1..], quantities[1..]));
    }
  }

  /** Expiry undoes a QR checkout: deleting by the session id removes exactly the pending record the
      checkout appended, since the unique index kept every other record off that id. */
  lemma ExpiryUndoesCheckout(txs: seq<Transaction>, companyId: string, deviceId: string, account: string,
                             products: seq<CartProduct>, quantities: seq<int>, now: int, s: NewSession)
    requires GenerateQR(txs, companyId, deviceId, account, products, quantities, now, Fetched(s)).status == 200
    ensures DeleteTransaction(GenerateQR(txs, companyId, deviceId, account, products, quantities, now, Fetched(s)).transactions, s.id) == txs
  {
    var t := PendingRecord(s.id, deviceId, companyId, now, products, quantities);
    var after := txs + [t];
    assert Insert(txs, t).Some?;
    assert after[|txs|].transactionId == s.id;
    assert forall j :: 0 <= j < |txs| ==> after[j].transactionId != s.id;
    assert after[..|txs|] == txs;
  }

  /** A QR checkout settled with the line items it sent takes, from every product of the company,
      exactly the cart's quantity of that product. */
  lemma SettlementTakesCartQuantities(txs: seq<Transaction>, ps: seq<Product>, companyId: string, deviceId: string,
                                      account: string, products: seq<CartProduct>, quantities: seq<int>, now: int,
                                      s: NewSession, session: CheckoutSession, answers: ProviderReads, pid: string)
    requires GenerateQR(txs, companyId, deviceId, account, products, quantities, now, Fetched(s)).status == 200
    requires session.id == s.id && session.companyId == companyId
    requires answers.intent.Fetched? && ReadsAvailable(answers.intent.value, answers)
    requires answers.lineItems.value == AsListed(LineItems(products, quantities))
    ensures var created := GenerateQR(txs, companyId, deviceId, account, products, quantities, now, Fetched(s)).transactions;
            Stock(CompleteSession(Store(created, ps), session, answers).store.products, pid, companyId) ==
              Lowered(Stock(ps, pid, companyId), CartQuantity(products, quantities, pid))
  {
    var t := PendingRecord(s.id, deviceId, companyId, now, products, quantities);
    var created := txs + [t];
    assert Insert(txs, t).Some?;
    assert created[|txs|].transactionId == s.id;
    assert forall j :: 0 <= j < |txs| ==> created[j].transactionId != s.id;
    assert FindTransaction(created, s.id) == Some(|txs|);
    SettlementStock(Store(created, ps), session, answers, pid, companyId);
    PairedQuantity(products, quantities, now, pid);
  }
}
