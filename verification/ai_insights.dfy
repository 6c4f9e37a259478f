/** The AI insights endpoint: a plan check, a cache decision based on sales newer than the client's
    copy, and the last hundred sales of the company flattened into the data handed to the language
    model (whose answers are inputs here). */
module AiInsights {
  import opened Common
  import Seqs
  import Sorting
  import Text
  import opened PosRecords
  import opened Subscriptions

  // ---------------------------------------------------------------- plan check

  /** `checkSubscription` as written: the company's first subscription must have plan exactly "pro"
      or "enterprise". */
  predicate CheckSubscriptionAsWritten(subs: seq<Subscription>, companyId: string) {
    FindSubscription(subs, companyId).Some?
    && var plan := subs[FindSubscription(subs, companyId).value].plan;
    plan.Some? && (plan.value == "pro" || plan.value == "enterprise")
  }

  /** The stored plan names are capitalised, so for records that passed the schema the check as
      written refuses every company, paying customers of Pro and Enterprise included. */
  lemma AsWrittenRefusesSchemaPlans(subs: seq<Subscription>, companyId: string)
    requires forall j :: 0 <= j < |subs| ==> ValidSubscription(subs[j])
    ensures !CheckSubscriptionAsWritten(subs, companyId)
  {
    match FindSubscription(subs, companyId)
    case None =>
    case Some(i) =>
      var plan := subs[i].plan.value;
      assert IsPlanName(plan);
      assert plan == "Basic" || plan == "Pro" || plan == "Enterprise";
  }

  /** A concrete company that pays for Pro and is still refused. */
  lemma ProCustomerRefused()
    ensures var s := Subscription("c1", "cus_1", "sub_1", Some(PlanName(Pro)), Some(CycleName(Monthly)),
                                  "active", 0, false, None, 0, 0);
            ValidSubscription(s) && !CheckSubscriptionAsWritten([s], "c1")
  {
  }

  /** The evidently intended check: the plan compared without regard to case. */
  predicate InsightsPlan(subs: seq<Subscription>, companyId: string) {
    FindSubscription(subs, companyId).Some?
    && var plan := subs[FindSubscription(subs, companyId).value].plan;
    plan.Some? && (Text.Lower(plan.value) == "pro" || Text.Lower(plan.value) == "enterprise")
  }

  /** For records that passed the schema, the corrected check admits exactly the Pro and Enterprise
      plans. */
  lemma InsightsPlanExactlyPaidTiers(subs: seq<Subscription>, companyId: string)
    requires forall j :: 0 <= j < |subs| ==> ValidSubscription(subs[j])
    ensures InsightsPlan(subs, companyId) <==>
      (&& FindSubscription(subs, companyId).Some?
       && subs[FindSubscription(subs, companyId).value].plan in {Some(PlanName(Pro)), Some(PlanName(Enterprise))})
  {
    match FindSubscription(subs, companyId)
    case None =>
    case Some(i) =>
      var plan := subs[i].plan.value;
      assert IsPlanName(plan);
      assert Text.Lower("Basic") == "basic";
      assert Text.Lower("Pro") == "pro";
      assert Text.Lower("Enterprise") == "enterprise";
  }

  // ---------------------------------------------------------------- data preparation

  /** One purchased line as handed to the model. */
  datatype InsightProduct = InsightProduct(name: string, quantity: int, price: int, wasInBonus: bool, bonusPrice: Option<int>)

  /** One sale as handed to the model. */
  datatype InsightSale = InsightSale(
    transactionId: string,
    date: int,
    paymentMethod: string,
    totalQuantity: int,
    totalAmount: int,
    products: seq<InsightProduct>)

  function PrepareProduct(p: ProductBought): InsightProduct {
    InsightProduct(p.name, p.quantity, p.priceBought, p.wasInBonus, p.bonusPrice)
  }

  function PrepareSale(t: Transaction): InsightSale {
    InsightSale(t.transactionId, t.transactionDate, t.paymentMethod, t.totalQuantity, t.totalAmount,
                seq(|t.productsBought|, i requires 0 <= i < |t.productsBought| => PrepareProduct(t.productsBought[i])))
  }

  /** `prepareTransactionData`: one entry per sale, in the same order, each keeping its id, date,
      payment method, totals and purchased lines (the price paid under the name `price`, with the
      bonus flag and bonus price). */
  function PrepareTransactionData(txs: seq<Transaction>): (r: seq<InsightSale>)
    ensures |r| == |txs|
    ensures forall i :: 0 <= i < |txs| ==>
      && r[i].transactionId == txs[i].transactionId && r[i].date == txs[i].transactionDate
      && r[i].paymentMethod == txs[i].paymentMethod
      && r[i].totalQuantity == txs[i].totalQuantity && r[i].totalAmount == txs[i].totalAmount
      && |r[i].products| == |txs[i].productsBought|
    ensures forall i, k :: 0 <= i < |txs| && 0 <= k < |txs[i].productsBought| ==>
      && r[i].products[k].name == txs[i].productsBought[k].name
      && r[i].products[k].quantity == txs[i].productsBought[k].quantity
      && r[i].products[k].price == txs[i].productsBought[k].priceBought
      && r[i].products[k].wasInBonus == txs[i].productsBought[k].wasInBonus
      && r[i].products[k].bonusPrice == txs[i].productsBought[k].bonusPrice
  {
    seq(|txs|, i requires 0 <= i < |txs| => PrepareSale(txs[i]))
  }

  /** Preparing sales one batch after another gives the preparation of the whole list: each entry
      depends on its own sale only. */
  lemma PrepareAppend(a: seq<Transaction>, b: seq<Transaction>)
    ensures PrepareTransactionData(a + b) == PrepareTransactionData(a) + PrepareTransactionData(b)
  {
    var l := PrepareTransactionData(a + b);
    var rr := PrepareTransactionData(a) + PrepareTransactionData(b);
    assert forall i :: 0 <= i < |l| ==> l[i] == rr[i];
  }

  // ---------------------------------------------------------------- newest sales

  /** Newer first: Mongo's `.sort({ transactionDate: -1 })`. */
  function NewerFirst(): (Transaction, Transaction) -> bool {
    (a: Transaction, b: Transaction) => a.transactionDate >= b.transactionDate
  }

  lemma NewerFirstIsPreorder()
    ensures Sorting.TotalPreorder(NewerFirst())
  {
  }

  function OfCompany(companyId: string): Transaction -> bool {
    (t: Transaction) => t.companyId == companyId
  }

  const AnalysisWindow := 100

  /** `Transaction.find({ companyId }).sort({ transactionDate: -1 }).limit(100)`: at most a hundred
      of the company's sales, newest first, and no sale of the company left out is newer than any
      sale taken. */
  function RecentSales(txs: seq<Transaction>, companyId: string): (r: seq<Transaction>)
    ensures |r| == Min(AnalysisWindow, |Seqs.Filter(txs, OfCompany(companyId))|)
    ensures forall i :: 0 <= i < |r| ==> r[i] in txs && r[i].companyId == companyId
    ensures multiset(r) <= multiset(txs)
    ensures Sorting.SortedBy(r, NewerFirst())
    ensures forall t, i :: t in txs && t.companyId == companyId && t !in r && 0 <= i < |r| ==>
      t.transactionDate <= r[i].transactionDate
  {
    NewerFirstIsPreorder();
    Sorting.TopBy(Seqs.Filter(txs, OfCompany(companyId)), NewerFirst(), AnalysisWindow)
  }

  /** The company has no sale at all. */
  predicate NoSalesOf(txs: seq<Transaction>, companyId: string) {
    forall j :: 0 <= j < |txs| ==> txs[j].companyId != companyId
  }

  /** The recent window is empty exactly when the company has no sale. */
  lemma RecentEmptyWithoutSales(txs: seq<Transaction>, companyId: string)
    ensures RecentSales(txs, companyId) == [] <==> NoSalesOf(txs, companyId)
  {
    forall j | 0 <= j < |txs| && txs[j].companyId == companyId
      ensures txs[j] in Seqs.Filter(txs, OfCompany(companyId))
    {
    }
  }

  // ---------------------------------------------------------------- the endpoint

  /** Sales of the company strictly newer than `requestTime` (`transactionDate: { $gt: requestTime }`). */
  function NewerThan(companyId: string, requestTime: int): Transaction -> bool {
    (t: Transaction) => t.companyId == companyId && t.transactionDate > requestTime
  }

  /** The cache test: no newer sales, no forced refresh, and a client copy that has a time. */
  predicate UseCache(newCount: nat, forceFresh: bool, requestTime: int) {
    newCount == 0 && !forceFresh && requestTime > 0
  }

  /** What the three model calls returned once parsed; any failure or unparsable answer is an error. */
  datatype ModelAnswers = ModelAnswers(forecast: string, analysis: string, recommendations: seq<string>)

  datatype InsightsReply =
    | Refused(status: int, error: string)
    | Cached
    | Fresh(data: seq<InsightSale>, answers: ModelAnswers)

  /** `generateAIInsights` with the corrected plan check. `requestTime` is the body's value with
      absent read as 0 (the epoch); `ask` is the model's answers to the prompts built from the
      prepared data. Any store failure is a 500. */
  function GenerateAIInsights(companyId: string, subsRead: Fetch<seq<Subscription>>, txRead: Fetch<seq<Transaction>>,
                              requestTime: int, forceFresh: bool, ask: seq<InsightSale> -> Fetch<ModelAnswers>): (r: InsightsReply)
    ensures companyId == "" ==> r == Refused(400, "Company ID not provided")
    ensures r.Refused? ==> r.status in {400, 403, 500}
    ensures r.Refused? && r.status == 403 <==>
      companyId != "" && subsRead.Fetched? && !InsightsPlan(subsRead.value, companyId)
    ensures !r.Refused? ==> companyId != "" && subsRead.Fetched? && InsightsPlan(subsRead.value, companyId) && txRead.Fetched?
    ensures companyId != "" && subsRead.Unavailable? ==> r == Refused(500, "An error occurred while generating AI insights")
    ensures (companyId != "" && subsRead.Fetched? && InsightsPlan(subsRead.value, companyId) && txRead.Unavailable?) ==>
      r == Refused(500, "An error occurred while generating AI insights")
    ensures r.Cached? <==>
      (&& companyId != "" && subsRead.Fetched? && InsightsPlan(subsRead.value, companyId) && txRead.Fetched?
       && UseCache(|Seqs.Filter(txRead.value, NewerThan(companyId, requestTime))|, forceFresh, requestTime))
    ensures companyId != "" && subsRead.Fetched? && InsightsPlan(subsRead.value, companyId) && txRead.Fetched?
            && !UseCache(|Seqs.Filter(txRead.value, NewerThan(companyId, requestTime))|, forceFresh, requestTime) ==>
      && (r == Refused(400, "No transactions found for analysis") <==> NoSalesOf(txRead.value, companyId))
      && (!NoSalesOf(txRead.value, companyId) ==>
            var data := PrepareTransactionData(RecentSales(txRead.value, companyId));
            r == if ask(data).Fetched? then Fresh(data, ask(data).value)
                 else Refused(500, "An error occurred while generating AI insights"))
    ensures r.Fresh? ==>
      && r.data == PrepareTransactionData(RecentSales(txRead.value, companyId))
      && 0 < |r.data| <= AnalysisWindow
      && ask(r.data) == Fetched(r.answers)
  {
    if companyId == "" then Refused(400, "Company ID not provided")
    else
      match subsRead
      case Unavailable => Refused(500, "An error occurred while generating AI insights")
      case Fetched(subs) =>
        if !InsightsPlan(subs, companyId) then Refused(403, "Pro or Enterprise subscription required for AI features")
        else
          match txRead
          case Unavailable => Refused(500, "An error occurred while generating AI insights")
          case Fetched(txs) =>
            if UseCache(|Seqs.Filter(txs, NewerThan(companyId, requestTime))|, forceFresh, requestTime) then Cached
            else
              RecentEmptyWithoutSales(txs, companyId);
              var recent := RecentSales(txs, companyId);
              if recent == [] then Refused(400, "No transactions found for analysis")
              else
                var data := PrepareTransactionData(recent);
                match ask(data)
                case Unavailable => Refused(500, "An error occurred while generating AI insights")
                case Fetched(answers) => Fresh(data, answers)
  }

  /** A client copy stamped after every sale of the company is served from cache unless a refresh
      is forced. */
  lemma UpToDateClientIsCached(companyId: string, subs: seq<Subscription>, txs: seq<Transaction>,
                                                  requestTime: int, ask: seq<InsightSale> -> Fetch<ModelAnswers>)
    requires companyId != "" && InsightsPlan(subs, companyId) && requestTime > 0
    requires forall j :: 0 <= j < |txs| && txs[j].companyId == companyId ==> txs[j].transactionDate <= requestTime
    ensures GenerateAIInsights(companyId, Fetched(subs), Fetched(txs), requestTime, false, ask) == Cached
    ensures GenerateAIInsights(companyId, Fetched(subs), Fetched(txs), requestTime, true, ask) != Cached
  {
  }

  /** A company with no sales at all is told so, unless it holds a stamped copy and asks for no
      refresh. */
  lemma NoSalesNoAnalysis(companyId: string, subs: seq<Subscription>, txs: seq<Transaction>,
                          requestTime: int, forceFresh: bool, ask: seq<InsightSale> -> Fetch<ModelAnswers>)
    requires companyId != "" && InsightsPlan(subs, companyId)
    requires forall j :: 0 <= j < |txs| ==> txs[j].companyId != companyId
    requires forceFresh || requestTime <= 0
    ensures GenerateAIInsights(companyId, Fetched(subs), Fetched(txs), requestTime, forceFresh, ask)
            == Refused(400, "No transactions found for analysis")
  {
  }
}
