/** The tenant-scoped transaction endpoints: paged listing (optionally today only), counting, and
    the raw create endpoint. */
module TransactionQueries {
  import opened Common
  import Seqs
  import opened PosRecords

  predicate InDay(t: Transaction, dayStart: int, dayEnd: int) {
    dayStart <= t.transactionDate < dayEnd
  }

  /** The listing filter: the caller's company, and with `todayOnly` the day window
      [local midnight, next midnight), given here as `dayStart` and `dayEnd`. */
  function ListFilter(companyId: string, todayOnly: bool, dayStart: int, dayEnd: int): Transaction -> bool {
    (t: Transaction) => t.companyId == companyId && (!todayOnly || InDay(t, dayStart, dayEnd))
  }

  /** `getTransactions` with `page` and `limit` already numeric (defaults 1 and 10 are applied by the
      caller of this function). A negative skip is refused by the database (500); a negative limit
      returns as many as its absolute value. */
  function GetTransactions(txs: seq<Transaction>, companyId: string, page: int, limit: int,
                           todayOnly: bool, dayStart: int, dayEnd: int): (r: (int, seq<Transaction>))
    ensures Seqs.PageSkip(page, limit) < 0 ==> r == (500, [])
    ensures Seqs.PageSkip(page, limit) >= 0 ==> r.0 == 200
    ensures r.0 == 200 ==> forall i :: 0 <= i < |r.1| ==> r.1[i] in txs
    ensures r.0 == 200 ==> forall i :: 0 <= i < |r.1| ==> r.1[i].companyId == companyId
    ensures r.0 == 200 && todayOnly ==> forall i :: 0 <= i < |r.1| ==> InDay(r.1[i], dayStart, dayEnd)
    ensures r.0 == 200 ==> r.1 == Seqs.Page(Seqs.Filter(txs, ListFilter(companyId, todayOnly, dayStart, dayEnd)), Seqs.PageSkip(page, limit), Abs(limit))
  {
    var skip := Seqs.PageSkip(page, limit);
    if skip < 0 then (500, [])
    else
      var matching := Seqs.Filter(txs, ListFilter(companyId, todayOnly, dayStart, dayEnd));
      var page' := Seqs.Page(matching, skip, Abs(limit));
      assert forall i :: 0 <= i < |page'| ==> page'[i] in matching && ListFilter(companyId, todayOnly, dayStart, dayEnd)(page'[i]);
      (200, page')
  }

  /** `getTransactionCount`: the number of the caller's company's records. */
  function GetTransactionCount(txs: seq<Transaction>, companyId: string): (r: nat)
    ensures r <= |txs|
    ensures (forall j :: 0 <= j < |txs| ==> txs[j].companyId != companyId) ==> r == 0
  {
    |Seqs.Filter(txs, ListFilter(companyId, false, 0, 0))|
  }

  /** The count is the length of the unpaged listing, so it covers exactly the caller's records. */
  lemma CountMatchesListing(txs: seq<Transaction>, companyId: string)
    ensures GetTransactions(txs, companyId, 1, 0, false, 0, 0) == (200, Seqs.Filter(txs, ListFilter(companyId, false, 0, 0)))
    ensures GetTransactionCount(txs, companyId) == |GetTransactions(txs, companyId, 1, 0, false, 0, 0).1|
  {
  }

  /** Records of other companies never change the count. */
  lemma {:induction false} CountIgnoresOtherCompanies(txs: seq<Transaction>, t: Transaction, companyId: string)
    requires t.companyId != companyId
    ensures GetTransactionCount(txs + [t], companyId) == GetTransactionCount(txs, companyId)
  {
    Seqs.FilterAppend(txs, [t], ListFilter(companyId, false, 0, 0));
  }

  /** Pages never overlap and cover the list: page `p` of size `n` starts where page `p - 1` ended. */
  lemma PagesAreConsecutive(txs: seq<Transaction>, companyId: string, page: int, limit: int,
                            todayOnly: bool, dayStart: int, dayEnd: int)
    requires page >= 1 && limit > 0
    ensures var here := GetTransactions(txs, companyId, page, limit, todayOnly, dayStart, dayEnd).1;
            var next := GetTransactions(txs, companyId, page + 1, limit, todayOnly, dayStart, dayEnd).1;
            var matching := Seqs.Filter(txs, ListFilter(companyId, todayOnly, dayStart, dayEnd));
            |here| == limit ==> forall i :: 0 <= i < |next| ==> next[i] == matching[page * limit + i]
  {
    assert Seqs.PageSkip(page + 1, limit) == page * limit;
  }

  /** A create request body: `status` and `transactionDate` may be omitted. */
  datatype TransactionDraft = TransactionDraft(
    transactionId: string,
    sessionId: Option<string>,
    deviceId: string,
    companyId: string,
    transactionDate: Option<int>,
    paymentMethod: string,
    status: Option<string>,
    receiptUrl: Option<string>,
    productsBought: seq<ProductBought>,
    totalQuantity: int,
    totalAmount: int)

  /** The document Mongoose builds from a body: omitted status is "pending", omitted date is now. */
  function WithDefaults(d: TransactionDraft, now: int): (t: Transaction)
    ensures d.status.None? ==> t.status == DefaultStatus
    ensures d.status.Some? ==> t.status == d.status.value
    ensures t.companyId == d.companyId && t.transactionId == d.transactionId
  {
    Transaction(d.transactionId, d.sessionId, d.deviceId, d.companyId, d.transactionDate.GetOr(now),
                d.paymentMethod, d.status.GetOr(DefaultStatus), d.receiptUrl, d.productsBought,
                d.totalQuantity, d.totalAmount)
  }

  /** `addTransaction`: the body is stored as given (its `companyId` is not replaced by the caller's)
      when it passes the schema and the unique index; 201, otherwise 400 and nothing stored. */
  function AddTransaction(txs: seq<Transaction>, callerCompany: string, body: TransactionDraft, now: int): (r: (int, seq<Transaction>))
    ensures r.0 == 201 || r.0 == 400
    ensures r.0 == 400 ==> r.1 == txs
    ensures r.0 == 201 <==>
      (ValidTransaction(WithDefaults(body, now)) && forall j :: 0 <= j < |txs| ==> txs[j].transactionId != body.transactionId)
    ensures r.0 == 201 ==> |r.1| == |txs| + 1 && r.1[..|txs|] == txs && r.1[|txs|].companyId == body.companyId
    ensures ValidTransactions(txs) ==> ValidTransactions(r.1)
  {
    match Insert(txs, WithDefaults(body, now))
    case None => (400, txs)
    case Some(txs') => (201, txs')
  }

  /** Nothing ties a created record to the caller: another company's id in the body is stored as is. */
  lemma AddTransactionKeepsForeignCompany(txs: seq<Transaction>, callerCompany: string, body: TransactionDraft, now: int)
    requires callerCompany != body.companyId
    requires AddTransaction(txs, callerCompany, body, now).0 == 201
    ensures var stored := AddTransaction(txs, callerCompany, body, now).1;
            stored[|stored| - 1].companyId != callerCompany
  {
  }
}
