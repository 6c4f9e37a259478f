/** The point-of-sale records: the `Transaction` document with its embedded product-bought
    entries, and the `Product` catalogue document, together with the schema rules a save enforces
    (required fields, defaults, unique keys) and the keyed lookups the handlers perform. */
module PosRecords {
  import opened Common
  import Seqs

  /** One line of a sale as stored in `productsBought`. Amounts are in minor currency units. */
  datatype ProductBought = ProductBought(
    sectionId: string,
    productId: string,
    name: string,
    imageUrl: Option<string>,
    date: int,
    wasInBonus: bool,
    bonusPrice: Option<int>,
    priceBought: int,
    quantity: int)

  /** A sale attempt. `receiptUrl` is `None` for JavaScript `null`; `sessionId` is optional. */
  datatype Transaction = Transaction(
    transactionId: string,
    sessionId: Option<string>,
    deviceId: string,
    companyId: string,
    transactionDate: int,
    paymentMethod: string,
    status: string,
    receiptUrl: Option<string>,
    productsBought: seq<ProductBought>,
    totalQuantity: int,
    totalAmount: int)

  /** The status a transaction gets when the creator gives none. */
  const DefaultStatus := "pending"

  /** A catalogue entry. `itemNumber` is the stock count; nothing bounds it below. */
  datatype Product = Product(
    productId: string,
    companyId: string,
    sectionId: string,
    name: string,
    imageUrl: Option<string>,
    dateAdded: int,
    dateModified: int,
    itemNumber: int,
    price: int,
    bonusPercentage: int,
    isInBonus: bool,
    isSelling: bool,
    info: string,
    extraNote: string)

  /** The `productBoughtSchema` required paths: section, product, name, image, price, quantity. */
  predicate ValidProductBought(p: ProductBought) {
    Present(p.sectionId) && Present(p.productId) && Present(p.name) && PresentOpt(p.imageUrl)
  }

  /** The `transactionSchema` required paths. `sessionId` is optional and may be absent. */
  predicate ValidTransaction(t: Transaction) {
    && Present(t.transactionId)
    && Present(t.deviceId)
    && Present(t.companyId)
    && Present(t.paymentMethod)
    && Present(t.status)
    && PresentOpt(t.receiptUrl)
    && forall i :: 0 <= i < |t.productsBought| ==> ValidProductBought(t.productsBought[i])
  }

  /** The unique index names `company_id`, a path the schema does not have, so every document indexes
      it as null and the index makes `transactionId` unique across the whole collection. */
  predicate UniqueTransactionIds(txs: seq<Transaction>) {
    forall i, j :: 0 <= i < |txs| && 0 <= j < |txs| && i != j ==> txs[i].transactionId != txs[j].transactionId
  }

  /** What every save keeps true of the transaction collection. */
  predicate ValidTransactions(txs: seq<Transaction>) {
    UniqueTransactionIds(txs) && forall i :: 0 <= i < |txs| ==> ValidTransaction(txs[i])
  }

  /** `Transaction.findOne({ transactionId: id })`. */
  function FindTransaction(txs: seq<Transaction>, id: string): (r: Option<nat>)
    ensures r.Some? ==> r.value < |txs| && txs[r.value].transactionId == id
    ensures r.Some? ==> forall j :: 0 <= j < r.value ==> txs[j].transactionId != id
    ensures r.None? <==> forall j :: 0 <= j < |txs| ==> txs[j].transactionId != id
  {
    Seqs.FirstIndex(txs, (t: Transaction) => t.transactionId == id)
  }

  /** With unique ids the record found is the only one carrying that id. */
  lemma FoundTransactionIsOnly(txs: seq<Transaction>, id: string)
    requires UniqueTransactionIds(txs)
    requires FindTransaction(txs, id).Some?
    ensures forall j :: 0 <= j < |txs| && j != FindTransaction(txs, id).value ==> txs[j].transactionId != id
  {
  }

  /** Saving `t` over the record at `i`: the schema validators run, and the unique index
      refuses an id another record already has. `None` is the thrown save error. */
  function SaveAt(txs: seq<Transaction>, i: nat, t: Transaction): (r: Option<seq<Transaction>>)
    requires i < |txs|
    ensures r.Some? <==> ValidTransaction(t) && forall j :: 0 <= j < |txs| && j != i ==> txs[j].transactionId != t.transactionId
    ensures r.Some? ==> r.value == txs[i := t]
    ensures r.Some? && ValidTransactions(txs) ==> ValidTransactions(r.value)
  {
    if ValidTransaction(t) && forall j :: 0 <= j < |txs| && j != i ==> txs[j].transactionId != t.transactionId then
      Some(txs[i := t])
    else None
  }

  /** Saving a new record: validators, then the unique index. */
  function Insert(txs: seq<Transaction>, t: Transaction): (r: Option<seq<Transaction>>)
    ensures r.Some? <==> ValidTransaction(t) && forall j :: 0 <= j < |txs| ==> txs[j].transactionId != t.transactionId
    ensures r.Some? ==> r.value == txs + [t]
    ensures r.Some? && ValidTransactions(txs) ==> ValidTransactions(r.value)
  {
    if ValidTransaction(t) && FindTransaction(txs, t.transactionId).None? then Some(txs + [t]) else None
  }

  /** `findOneAndDelete({ transactionId: id })`: removes the first record with that id, if any. */
  function DeleteTransaction(txs: seq<Transaction>, id: string): (r: seq<Transaction>)
    ensures FindTransaction(txs, id).None? ==> r == txs
    ensures FindTransaction(txs, id).Some? ==> |r| == |txs| - 1
    ensures forall t :: t in r ==> t in txs
    ensures UniqueTransactionIds(txs) ==> forall j :: 0 <= j < |r| ==> r[j].transactionId != id
    ensures ValidTransactions(txs) ==> ValidTransactions(r)
  {
    match FindTransaction(txs, id)
    case None => txs
    case Some(i) => Seqs.RemoveAt(txs, i)
  }

  // ---------------------------------------------------------------- products

  /** The product schema's required paths: product, company, section and name. */
  predicate ValidProduct(p: Product) {
    Present(p.productId) && Present(p.companyId) && Present(p.sectionId) && Present(p.name)
  }

  /** The unique index on (`product_id`, `company_id`). */
  predicate UniqueProductKeys(ps: seq<Product>) {
    forall i, j :: 0 <= i < |ps| && 0 <= j < |ps| && i != j ==>
      ps[i].productId != ps[j].productId || ps[i].companyId != ps[j].companyId
  }

  predicate ValidProducts(ps: seq<Product>) {
    UniqueProductKeys(ps) && forall i :: 0 <= i < |ps| ==> ValidProduct(ps[i])
  }

  predicate HasKey(p: Product, productId: string, companyId: string) {
    p.productId == productId && p.companyId == companyId
  }

  /** `Product.findOne({ product_id, company_id })`. */
  function FindProduct(ps: seq<Product>, productId: string, companyId: string): (r: Option<nat>)
    ensures r.Some? ==> r.value < |ps| && HasKey(ps[r.value], productId, companyId)
    ensures r.Some? ==> forall j :: 0 <= j < r.value ==> !HasKey(ps[j], productId, companyId)
    ensures r.None? <==> forall j :: 0 <= j < |ps| ==> !HasKey(ps[j], productId, companyId)
  {
    Seqs.FirstIndex(ps, (p: Product) => HasKey(p, productId, companyId))
  }

  /** The stock count of the product with this key, if the catalogue has it. */
  function Stock(ps: seq<Product>, productId: string, companyId: string): Option<int> {
    match FindProduct(ps, productId, companyId)
    case None => None
    case Some(i) => Some(ps[i].itemNumber)
  }

  /** A stock count lowered by `d`; an absent product stays absent. */
  function Lowered(stock: Option<int>, d: int): Option<int> {
    match stock
    case None => None
    case Some(n) => Some(n - d)
  }

  /** Replacing a record by one with the same key leaves every key lookup where it was. */
  lemma FindProductAfterReplace(ps: seq<Product>, i: nat, p: Product, productId: string, companyId: string)
    requires i < |ps|
    requires p.productId == ps[i].productId && p.companyId == ps[i].companyId
    ensures FindProduct(ps[i := p], productId, companyId) == FindProduct(ps, productId, companyId)
  {
    var a := FindProduct(ps[i := p], productId, companyId);
    var b := FindProduct(ps, productId, companyId);
    assert forall j :: 0 <= j < |ps| ==> HasKey(ps[i := p][j], productId, companyId) == HasKey(ps[j], productId, companyId);
    if a.Some? && b.Some? {
      assert !(a.value < b.value) && !(b.value < a.value);
    }
  }

  /** `findOneAndUpdate({ product_id, company_id }, { $inc: { item_number: -qty } })`: a missing
      product is skipped; there is no lower bound, so the count may go negative. */
  function Decrement(ps: seq<Product>, productId: string, companyId: string, qty: int): (r: seq<Product>)
    ensures |r| == |ps|
    ensures forall j :: 0 <= j < |ps| ==> r[j] == ps[j].(itemNumber := r[j].itemNumber)
    ensures forall j :: 0 <= j < |ps| && (ps[j].productId != productId || ps[j].companyId != companyId) ==> r[j] == ps[j]
    ensures FindProduct(ps, productId, companyId).None? ==> r == ps
  {
    match FindProduct(ps, productId, companyId)
    case None => ps
    case Some(i) => ps[i := ps[i].(itemNumber := ps[i].itemNumber - qty)]
  }

  /** The decremented key's stock drops by exactly the quantity. */
  lemma DecrementStock(ps: seq<Product>, productId: string, companyId: string, qty: int)
    ensures Stock(Decrement(ps, productId, companyId, qty), productId, companyId) == Lowered(Stock(ps, productId, companyId), qty)
  {
    match FindProduct(ps, productId, companyId)
    case None =>
    case Some(i) =>
      var p := ps[i].(itemNumber := ps[i].itemNumber - qty);
      assert Decrement(ps, productId, companyId, qty) == ps[i := p];
      FindProductAfterReplace(ps, i, p, productId, companyId);
      assert ps[i := p][i] == p;
  }

  /** A change confined to stock counts keeps the catalogue's keys and required fields. */
  lemma StockChangeKeepsValidity(ps: seq<Product>, qs: seq<Product>)
    requires |qs| == |ps|
    requires forall j :: 0 <= j < |ps| ==> qs[j] == ps[j].(itemNumber := qs[j].itemNumber)
    ensures ValidProducts(ps) ==> ValidProducts(qs)
  {
  }

  /** A decrement of one key leaves the stock of every other key alone. */
  lemma StockOfOtherKey(ps: seq<Product>, productId: string, companyId: string, qty: int, otherId: string, otherCompany: string)
    requires otherId != productId || otherCompany != companyId
    ensures Stock(Decrement(ps, productId, companyId, qty), otherId, otherCompany) == Stock(ps, otherId, otherCompany)
  {
    var r := Decrement(ps, productId, companyId, qty);
    var a := FindProduct(r, otherId, otherCompany);
    var b := FindProduct(ps, otherId, otherCompany);
    assert forall j :: 0 <= j < |ps| ==> HasKey(r[j], otherId, otherCompany) == HasKey(ps[j], otherId, otherCompany);
    if a.Some? && b.Some? {
      assert !(a.value < b.value) && !(b.value < a.value);
    }
  }
}
