/** The monthly transaction cap for companies on the basic plan, checked before a sale is created. */
module TransactionLimits {
  import opened Common
  import Seqs
  import Text
  import opened PosRecords
  import opened Subscriptions

  const BasicMonthlyLimit := 1000

  /** Milliseconds in a day. */
  const DayMs := 86400000

  /** The plan filter `^basic$` with the case-insensitive flag. */
  predicate IsBasicPlan(plan: Option<string>) {
    plan.Some? && Text.Lower(plan.value) == "basic"
  }

  /** `Subscription.findOne({ company_id, plan: /^basic$/i })`. */
  function FindBasic(subs: seq<Subscription>, companyId: string): (r: Option<nat>)
    ensures r.Some? ==> r.value < |subs| && subs[r.value].companyId == companyId && IsBasicPlan(subs[r.value].plan)
    ensures r.None? <==> forall j :: 0 <= j < |subs| ==> !(subs[j].companyId == companyId && IsBasicPlan(subs[j].plan))
  {
    Seqs.FirstIndex(subs, (s: Subscription) => s.companyId == companyId && IsBasicPlan(s.plan))
  }

  /** A sale that uses up the allowance: the company's, paid, dated inside the month window
      [`monthStart`, `monthEnd`] (both ends included; the window is computed from the clock by the
      caller of this function). */
  predicate Counts(t: Transaction, companyId: string, monthStart: int, monthEnd: int) {
    t.companyId == companyId && t.status == "paid" && monthStart <= t.transactionDate <= monthEnd
  }

  function CountFilter(companyId: string, monthStart: int, monthEnd: int): Transaction -> bool {
    (t: Transaction) => Counts(t, companyId, monthStart, monthEnd)
  }

  function MonthCount(txs: seq<Transaction>, companyId: string, monthStart: int, monthEnd: int): nat {
    |Seqs.Filter(txs, CountFilter(companyId, monthStart, monthEnd))|
  }

  /** What the middleware does: let the request through, refuse it with 403
      `TRANSACTION_LIMIT_EXCEEDED`, or hand a store error to the error handler. */
  datatype LimitDecision =
    | Proceed
    | LimitExceeded(currentCount: nat, limit: int, daysUntilReset: int)
    | PassError

  /** `checkTransactionLimits`, with each store read as a fetch that may fail. Companies without a
      basic subscription always proceed; for the others the month's paid sales are counted and the
      request is refused once the count reaches the limit, with the days left in the month rounded
      up. Between the count and the decision the five latest counted sales are read for the log:
      `sampleRead` is that read, whose rows decide nothing but whose failure is handed on like the
      others. */
  function CheckTransactionLimits(subsRead: Fetch<seq<Subscription>>, txRead: Fetch<seq<Transaction>>,
                                  sampleRead: Fetch<()>,
                                  companyId: string, now: int, monthStart: int, monthEnd: int): (r: LimitDecision)
    ensures subsRead.Unavailable? ==> r == PassError
    ensures subsRead.Fetched? && FindBasic(subsRead.value, companyId).None? ==> r == Proceed
    ensures subsRead.Fetched? && FindBasic(subsRead.value, companyId).Some? && (txRead.Unavailable? || sampleRead.Unavailable?) ==>
      r == PassError
    ensures (&& subsRead.Fetched? && FindBasic(subsRead.value, companyId).Some? && txRead.Fetched? && sampleRead.Fetched?
             && MonthCount(txRead.value, companyId, monthStart, monthEnd) < BasicMonthlyLimit) ==>
      r == Proceed
    ensures r.LimitExceeded? <==>
      (&& subsRead.Fetched? && FindBasic(subsRead.value, companyId).Some? && txRead.Fetched? && sampleRead.Fetched?
       && MonthCount(txRead.value, companyId, monthStart, monthEnd) >= BasicMonthlyLimit)
    ensures r.LimitExceeded? ==>
      && r.currentCount == MonthCount(txRead.value, companyId, monthStart, monthEnd)
      && r.limit == BasicMonthlyLimit
      && (r.daysUntilReset - 1) * DayMs < monthEnd - now <= r.daysUntilReset * DayMs
  {
    match subsRead
    case Unavailable => PassError
    case Fetched(subs) =>
      if FindBasic(subs, companyId).None? then Proceed
      else
        match txRead
        case Unavailable => PassError
        case Fetched(txs) =>
          var count := MonthCount(txs, companyId, monthStart, monthEnd);
          if sampleRead.Unavailable? then PassError
          else if count >= BasicMonthlyLimit then LimitExceeded(count, BasicMonthlyLimit, Seqs.CeilDiv(monthEnd - now, DayMs))
          else Proceed
  }

  /** A pending sale (or any sale not yet paid) never uses up the allowance: adding one leaves the
      decision as it was. */
  lemma UnpaidSaleDoesNotCount(subsRead: Fetch<seq<Subscription>>, txs: seq<Transaction>, t: Transaction,
                               sampleRead: Fetch<()>, companyId: string, now: int, monthStart: int, monthEnd: int)
    requires t.status != "paid"
    ensures CheckTransactionLimits(subsRead, Fetched(txs + [t]), sampleRead, companyId, now, monthStart, monthEnd) ==
      CheckTransactionLimits(subsRead, Fetched(txs), sampleRead, companyId, now, monthStart, monthEnd)
  {
    Seqs.FilterAppend(txs, [t], CountFilter(companyId, monthStart, monthEnd));
  }

  /** The limit is inclusive: a basic company with 999 counted sales proceeds, with 1000 it is
      refused. */
  lemma LimitBoundary(subs: seq<Subscription>, txs: seq<Transaction>, companyId: string, now: int, monthStart: int, monthEnd: int)
    requires FindBasic(subs, companyId).Some?
    ensures MonthCount(txs, companyId, monthStart, monthEnd) == 999 ==>
      CheckTransactionLimits(Fetched(subs), Fetched(txs), Fetched(()), companyId, now, monthStart, monthEnd) == Proceed
    ensures MonthCount(txs, companyId, monthStart, monthEnd) == 1000 ==>
      CheckTransactionLimits(Fetched(subs), Fetched(txs), Fetched(()), companyId, now, monthStart, monthEnd).LimitExceeded?
  {
  }

  /** The plan match ignores case, so the schema's "Basic" is a basic plan. */
  lemma SchemaBasicIsBasic()
    ensures IsBasicPlan(Some(PlanName(Basic)))
    ensures !IsBasicPlan(Some(PlanName(Pro))) && !IsBasicPlan(Some(PlanName(Enterprise)))
  {
    assert Text.Lower("Basic") == "basic";
    assert Text.Lower("Pro") != "basic";
    assert |Text.Lower("Enterprise")| != |"basic"|;
  }

  /** Sales of other companies never move a company's count. */
  lemma {:induction false} OtherCompaniesDoNotCount(txs: seq<Transaction>, others: seq<Transaction>,
                                                    companyId: string, monthStart: int, monthEnd: int)
    requires forall j :: 0 <= j < |others| ==> others[j].companyId != companyId
    ensures MonthCount(txs + others, companyId, monthStart, monthEnd) == MonthCount(txs, companyId, monthStart, monthEnd)
  {
    Seqs.FilterAppend(txs, others, CountFilter(companyId, monthStart, monthEnd));
    NoneCount(others, companyId, monthStart, monthEnd);
  }

  lemma {:induction false} NoneCount(others: seq<Transaction>, companyId: string, monthStart: int, monthEnd: int)
    requires forall j :: 0 <= j < |others| ==> others[j].companyId != companyId
    ensures Seqs.Filter(others, CountFilter(companyId, monthStart, monthEnd)) == []
  {
    if |others| > 0 {
      NoneCount(others[1..], companyId, monthStart, monthEnd);
    }
  }
}
