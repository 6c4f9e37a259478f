/** Company subscriptions: the stored record, the provider's subscription webhook that upserts it, and
    the subscription routes (checkout for a plan, status, cancel, details). */
module Subscriptions {
  import opened Common
  import Seqs
  import Text

  // ---------------------------------------------------------------- the record

  datatype Plan = Basic | Pro | Enterprise
  datatype Cycle = Monthly | Yearly

  /** The plan names the schema's enum admits. */
  function PlanName(p: Plan): string {
    match p
    case Basic => "Basic"
    case Pro => "Pro"
    case Enterprise => "Enterprise"
  }

  /** The billing cycles the schema's enum admits. */
  function CycleName(c: Cycle): string {
    match c
    case Monthly => "monthly"
    case Yearly => "yearly"
  }

  /** The statuses the schema's enum admits. */
  predicate IsStatusName(s: string) {
    s == "active" || s == "past_due" || s == "canceled" || s == "unpaid"
  }

  predicate IsPlanName(s: string) {
    s == PlanName(Basic) || s == PlanName(Pro) || s == PlanName(Enterprise)
  }

  predicate IsCycleName(s: string) {
    s == CycleName(Monthly) || s == CycleName(Yearly)
  }

  /** A stored subscription. Plan and cycle may be absent: the webhook's upsert does not run the
      schema's validators. Times are milliseconds. */
  datatype Subscription = Subscription(
    companyId: string,
    customerId: string,
    subscriptionId: string,
    plan: Option<string>,
    billingCycle: Option<string>,
    status: string,
    currentPeriodEnd: int,
    isEarlyAccess: bool,
    earlyAccessExpiry: Option<int>,
    createdAt: int,
    updatedAt: int)

  /** What the schema accepts on `save()`: the required paths and the three enums. */
  predicate ValidSubscription(s: Subscription) {
    && Present(s.companyId) && Present(s.customerId) && Present(s.subscriptionId)
    && s.plan.Some? && IsPlanName(s.plan.value)
    && s.billingCycle.Some? && IsCycleName(s.billingCycle.value)
    && IsStatusName(s.status)
  }

  /** `Subscription.findOne({ company_id })`: the first record of the company. */
  function FindSubscription(subs: seq<Subscription>, companyId: string): (r: Option<nat>)
    ensures r.Some? ==> r.value < |subs| && subs[r.value].companyId == companyId
    ensures r.Some? ==> forall j :: 0 <= j < r.value ==> subs[j].companyId != companyId
    ensures r.None? <==> forall j :: 0 <= j < |subs| ==> subs[j].companyId != companyId
  {
    Seqs.FirstIndex(subs, (s: Subscription) => s.companyId == companyId)
  }

  /** At most one record per company (the schema declares no unique index; the upsert keeps it). */
  predicate OnePerCompany(subs: seq<Subscription>) {
    forall i, j :: 0 <= i < |subs| && 0 <= j < |subs| && i != j ==> subs[i].companyId != subs[j].companyId
  }

  // ---------------------------------------------------------------- webhook

  /** The `metadata` the checkout route attached to the provider's subscription. */
  datatype SubscriptionMetadata = SubscriptionMetadata(companyId: string, plan: Option<string>, billingCycle: Option<string>)

  /** The provider's subscription object carried by the event; the period end is in seconds. */
  datatype SubscriptionObject = SubscriptionObject(
    id: string, customer: string, status: string, currentPeriodEndSeconds: int, metadata: SubscriptionMetadata)

  datatype SubscriptionEvent =
    | SubscriptionCreated(subscription: SubscriptionObject)
    | SubscriptionUpdated(subscription: SubscriptionObject)
    | SubscriptionDeleted(subscription: SubscriptionObject)
    | OtherEvent(eventType: string)

  /** The record carries what the event says: customer, id, status, period end (in milliseconds),
      the update time, and plan and cycle when the metadata has them. */
  predicate Carries(s: Subscription, o: SubscriptionObject, now: int) {
    && s.companyId == o.metadata.companyId
    && s.status == o.status && s.subscriptionId == o.id && s.customerId == o.customer
    && s.currentPeriodEnd == o.currentPeriodEndSeconds * 1000 && s.updatedAt == now
    && (o.metadata.plan.Some? ==> s.plan == o.metadata.plan)
    && (o.metadata.billingCycle.Some? ==> s.billingCycle == o.metadata.billingCycle)
  }

  function Overwrite(s: Subscription, o: SubscriptionObject, now: int): Subscription {
    s.(customerId := o.customer, subscriptionId := o.id, status := o.status,
       currentPeriodEnd := o.currentPeriodEndSeconds * 1000,
       plan := if o.metadata.plan.Some? then o.metadata.plan else s.plan,
       billingCycle := if o.metadata.billingCycle.Some? then o.metadata.billingCycle else s.billingCycle,
       updatedAt := now)
  }

  /** `handleSubscriptionChange`: `findOneAndUpdate({ company_id }, …, { upsert: true })`. The first
      record of the company is overwritten with the event's values; with no record, one is inserted
      with the schema's defaults (not early access, created now). A failing write is logged and
      swallowed. */
  function ApplyChange(subs: seq<Subscription>, o: SubscriptionObject, now: int, writeFails: bool): (r: seq<Subscription>)
    ensures writeFails ==> r == subs
    ensures !writeFails ==>
      && |r| == |subs| + (if FindSubscription(subs, o.metadata.companyId).None? then 1 else 0)
      && (forall j :: 0 <= j < |subs| && subs[j].companyId != o.metadata.companyId ==> r[j] == subs[j])
      && FindSubscription(r, o.metadata.companyId).Some?
      && Carries(r[FindSubscription(r, o.metadata.companyId).value], o, now)
    ensures !writeFails && FindSubscription(subs, o.metadata.companyId).Some? ==>
      var i := FindSubscription(subs, o.metadata.companyId).value;
      && FindSubscription(r, o.metadata.companyId) == Some(i)
      && r[i].createdAt == subs[i].createdAt && r[i].isEarlyAccess == subs[i].isEarlyAccess
      && (forall j :: 0 <= j < |subs| && j != i ==> r[j] == subs[j])
    ensures !writeFails && FindSubscription(subs, o.metadata.companyId).None? ==>
      r[|subs|].createdAt == now && !r[|subs|].isEarlyAccess && r[|subs|].earlyAccessExpiry.None?
    ensures OnePerCompany(subs) ==> OnePerCompany(r)
  {
    if writeFails then subs
    else
      var c := o.metadata.companyId;
      match FindSubscription(subs, c)
      case Some(i) =>
        var r := subs[i := Overwrite(subs[i], o, now)];
        assert forall j :: 0 <= j < i ==> r[j].companyId != c;
        assert r[i].companyId == c;
        assert FindSubscription(r, c) == Some(i);
        r
      case None =>
        var s := Subscription(c, o.customer, o.id, o.metadata.plan, o.metadata.billingCycle, o.status,
                              o.currentPeriodEndSeconds * 1000, false, None, now, now);
        var r := subs + [s];
        assert forall j :: 0 <= j < |subs| ==> r[j].companyId != c;
        assert r[|subs|].companyId == c;
        assert FindSubscription(r, c) == Some(|subs|);
        r
  }

  /** `handleSubscriptionWebhook`: a missing signing secret is 500 and a bad signature 400, both
      before anything is read or written; created, updated and deleted events upsert the record,
      any other event is ignored; both answer 200, even when the upsert's write failed. */
  function HandleSubscriptionWebhook(secretConfigured: bool, verified: Option<SubscriptionEvent>,
                                     subs: seq<Subscription>, now: int, writeFails: bool): (r: (int, seq<Subscription>))
    ensures !secretConfigured ==> r == (500, subs)
    ensures secretConfigured && verified.None? ==> r == (400, subs)
    ensures secretConfigured && verified.Some? ==> r.0 == 200
    ensures r.0 == 200 && verified.value.OtherEvent? ==> r.1 == subs
    ensures r.0 == 200 && !verified.value.OtherEvent? ==> r.1 == ApplyChange(subs, verified.value.subscription, now, writeFails)
  {
    if !secretConfigured then (500, subs)
    else
      match verified
      case None => (400, subs)
      case Some(e) =>
        match e
        case OtherEvent(_) => (200, subs)
        case SubscriptionCreated(o) => (200, ApplyChange(subs, o, now, writeFails))
        case SubscriptionUpdated(o) => (200, ApplyChange(subs, o, now, writeFails))
        case SubscriptionDeleted(o) => (200, ApplyChange(subs, o, now, writeFails))
  }

  /** A "deleted" event updates the company's record rather than removing it: the record is still
      there afterwards, carrying the event's status. */
  lemma DeletedEventKeepsRecord(subs: seq<Subscription>, o: SubscriptionObject, now: int)
    ensures var r := HandleSubscriptionWebhook(true, Some(SubscriptionDeleted(o)), subs, now, false);
            && r.0 == 200 && |r.1| >= |subs|
            && FindSubscription(r.1, o.metadata.companyId).Some?
            && r.1[FindSubscription(r.1, o.metadata.companyId).value].status == o.status
  {
  }

  /** The upsert runs no schema validator: a provider status outside the enum (say "incomplete")
      is stored as is, and the stored record then fails the schema. */
  lemma UpsertSkipsEnumCheck(subs: seq<Subscription>, o: SubscriptionObject, now: int)
    requires !IsStatusName(o.status)
    ensures var after := ApplyChange(subs, o, now, false);
            !ValidSubscription(after[FindSubscription(after, o.metadata.companyId).value])
  {
  }

  // ---------------------------------------------------------------- status, cancel, details

  /** `check-status`: the first record's status, or "inactive" when there is none (or its status is
      empty). */
  function CheckStatus(subs: seq<Subscription>, companyId: string): (r: string)
    ensures r != ""
    ensures FindSubscription(subs, companyId).None? ==> r == "inactive"
    ensures FindSubscription(subs, companyId).Some? && subs[FindSubscription(subs, companyId).value].status != "" ==>
      r == subs[FindSubscription(subs, companyId).value].status
  {
    match FindSubscription(subs, companyId)
    case None => "inactive"
    case Some(i) => if subs[i].status == "" then "inactive" else subs[i].status
  }

  /** For records that passed the schema, "inactive" is reported exactly when the company has no
      subscription, since the enum cannot hold it. */
  lemma InactiveMeansNoRecord(subs: seq<Subscription>, companyId: string)
    requires forall j :: 0 <= j < |subs| ==> ValidSubscription(subs[j])
    ensures CheckStatus(subs, companyId) == "inactive" <==> forall j :: 0 <= j < |subs| ==> subs[j].companyId != companyId
  {
  }

  /** After a subscription event whose upsert went through, the status route reports the event's
      status (or "inactive" for an empty one). */
  lemma StatusAfterChange(subs: seq<Subscription>, e: SubscriptionEvent, now: int)
    requires !e.OtherEvent?
    ensures var after := HandleSubscriptionWebhook(true, Some(e), subs, now, false).1;
            CheckStatus(after, e.subscription.metadata.companyId) == if e.subscription.status == "" then "inactive" else e.subscription.status
  {
  }

  /** `cancel`: 404 without a record or without a provider subscription id; a failing provider call
      is 500 with nothing changed; otherwise the first record of the company becomes "canceled"
      (the provider cancels at the period end). */
  function CancelSubscription(subs: seq<Subscription>, companyId: string, providerCancel: Fetch<()>, now: int): (r: (int, seq<Subscription>))
    ensures r.0 in {200, 404, 500}
    ensures r.0 != 200 ==> r.1 == subs
    ensures r.0 == 404 <==> (FindSubscription(subs, companyId).None? || subs[FindSubscription(subs, companyId).value].subscriptionId == "")
    ensures r.0 == 500 <==> r.0 != 404 && providerCancel.Unavailable?
    ensures r.0 == 200 ==>
      var i := FindSubscription(subs, companyId).value;
      && |r.1| == |subs| && r.1[i] == subs[i].(status := "canceled", updatedAt := now)
      && forall j :: 0 <= j < |subs| && j != i ==> r.1[j] == subs[j]
  {
    match FindSubscription(subs, companyId)
    case None => (404, subs)
    case Some(i) =>
      if subs[i].subscriptionId == "" then (404, subs)
      else if providerCancel.Unavailable? then (500, subs)
      else (200, subs[i := subs[i].(status := "canceled", updatedAt := now)])
  }

  /** A successful cancel is what the status route reports next. */
  lemma CancelThenStatus(subs: seq<Subscription>, companyId: string, now: int)
    requires CancelSubscription(subs, companyId, Fetched(()), now).0 == 200
    ensures CheckStatus(CancelSubscription(subs, companyId, Fetched(()), now).1, companyId) == "canceled"
  {
    var i := FindSubscription(subs, companyId).value;
    var after := CancelSubscription(subs, companyId, Fetched(()), now).1;
    assert forall j :: 0 <= j < |subs| ==> after[j].companyId == subs[j].companyId;
    assert FindSubscription(after, companyId) == Some(i);
  }

  /** The provider's view of a subscription read by `details`. */
  datatype ProviderSubscription = ProviderSubscription(status: string, currentPeriodEndSeconds: int, cancelAtPeriodEnd: bool)

  datatype SubscriptionDetails = SubscriptionDetails(
    status: string, currentPeriodEnd: int, cancelAtPeriodEnd: bool, plan: Option<string>, billingCycle: Option<string>)

  /** `details`: 404 without a record; the provider's status, period end and cancel flag with the
      locally stored plan and cycle; 500 when the provider read fails. */
  function Details(subs: seq<Subscription>, companyId: string, remote: Fetch<ProviderSubscription>): (r: (int, Option<SubscriptionDetails>))
    ensures r.0 == 404 <==> FindSubscription(subs, companyId).None?
    ensures r.0 == 500 <==> FindSubscription(subs, companyId).Some? && remote.Unavailable?
    ensures r.0 == 200 ==> r.1.Some? && remote.Fetched?
    ensures r.0 == 200 ==>
      var local := subs[FindSubscription(subs, companyId).value];
      && r.1.value.status == remote.value.status
      && r.1.value.cancelAtPeriodEnd == remote.value.cancelAtPeriodEnd
      && r.1.value.currentPeriodEnd == remote.value.currentPeriodEndSeconds * 1000
      && r.1.value.plan == local.plan && r.1.value.billingCycle == local.billingCycle
    ensures r.0 != 200 ==> r.1.None?
  {
    match FindSubscription(subs, companyId)
    case None => (404, None)
    case Some(i) =>
      match remote
      case Unavailable => (500, None)
      case Fetched(p) =>
        (200, Some(SubscriptionDetails(p.status, p.currentPeriodEndSeconds * 1000, p.cancelAtPeriodEnd,
                                       subs[i].plan, subs[i].billingCycle)))
  }

  /** Once a webhook has stored a subscription with its plan and cycle, the details route reports
      that plan and cycle next to whatever the provider currently says. */
  lemma DetailsAfterChange(subs: seq<Subscription>, o: SubscriptionObject, now: int, remote: ProviderSubscription)
    requires o.metadata.plan.Some? && o.metadata.billingCycle.Some?
    ensures var after := ApplyChange(subs, o, now, false);
            Details(after, o.metadata.companyId, Fetched(remote)) ==
              (200, Some(SubscriptionDetails(remote.status, remote.currentPeriodEndSeconds * 1000, remote.cancelAtPeriodEnd,
                                             o.metadata.plan, o.metadata.billingCycle)))
  {
  }

  // ---------------------------------------------------------------- checkout for a plan

  /** The plan and cycle as they appear inside a price key. */
  function PlanToken(p: Plan): string {
    match p
    case Basic => "BASIC"
    case Pro => "PRO"
    case Enterprise => "ENTERPRISE"
  }

  function CycleToken(c: Cycle): string {
    match c
    case Monthly => "MONTHLY"
    case Yearly => "YEARLY"
  }

  /** `STRIPE_<PLAN>_<CYCLE>_PRICE_ID`. */
  function KeyOf(plan: string, cycle: string): string {
    "STRIPE_" + plan + "_" + cycle + "_PRICE_ID"
  }

  /** The six configuration keys that hold a price. */
  function PriceKey(p: Plan, c: Cycle): string {
    KeyOf(PlanToken(p), CycleToken(c))
  }

  /** The plan name as normalised by the route: lower-cased with every whitespace character removed. */
  function NormalisePlan(planName: string): (r: string)
    ensures forall i :: 0 <= i < |r| ==> !Text.IsSpace(r[i]) && r[i] == Text.LowerChar(r[i])
  {
    Text.Lower(Text.RemoveWhitespace(planName))
  }

  /** Normalisation works character by character: a whitespace character vanishes and any other is
      lower-cased, wherever it stands. */
  lemma NormalisePlanByCharacter(a: string, b: string, c: char)
    ensures NormalisePlan(a + b) == NormalisePlan(a) + NormalisePlan(b)
    ensures NormalisePlan([c]) == if Text.IsSpace(c) then [] else [Text.LowerChar(c)]
  {
    Seqs.FilterAppend(a, b, Text.NotSpace);
    Text.LowerAppend(Text.RemoveWhitespace(a), Text.RemoveWhitespace(b));
    assert Text.RemoveWhitespace([c]) == if Text.IsSpace(c) then [] else [c] by {
      assert [c][1..] == [];
    }
  }

  /** The key the route looks up: the normalised plan and the cycle, both upper-cased. */
  function RequestKey(planName: string, billingCycle: string): string {
    KeyOf(Text.Upper(NormalisePlan(planName)), Text.Upper(billingCycle))
  }

  /** The price configuration: the six environment values, each possibly unset. */
  datatype PriceConfig = PriceConfig(
    basicMonthly: Option<string>, basicYearly: Option<string>,
    proMonthly: Option<string>, proYearly: Option<string>,
    enterpriseMonthly: Option<string>, enterpriseYearly: Option<string>)

  function PriceOf(config: PriceConfig, p: Plan, c: Cycle): Option<string> {
    match (p, c)
    case (Basic, Monthly) => config.basicMonthly
    case (Basic, Yearly) => config.basicYearly
    case (Pro, Monthly) => config.proMonthly
    case (Pro, Yearly) => config.proYearly
    case (Enterprise, Monthly) => config.enterpriseMonthly
    case (Enterprise, Yearly) => config.enterpriseYearly
  }

  /** `config[key]`: only the six price keys hold a price. */
  function LookupPrice(config: PriceConfig, key: string): (r: Option<string>)
    ensures r.Some? ==> exists p: Plan, c: Cycle :: key == PriceKey(p, c) && r == PriceOf(config, p, c)
    ensures forall p: Plan, c: Cycle :: key == PriceKey(p, c) ==> r == PriceOf(config, p, c)
  {
    if key == PriceKey(Basic, Monthly) then config.basicMonthly
    else if key == PriceKey(Basic, Yearly) then config.basicYearly
    else if key == PriceKey(Pro, Monthly) then config.proMonthly
    else if key == PriceKey(Pro, Yearly) then config.proYearly
    else if key == PriceKey(Enterprise, Monthly) then config.enterpriseMonthly
    else if key == PriceKey(Enterprise, Yearly) then config.enterpriseYearly
    else None
  }

  /** Two keys agree exactly when their plan and cycle parts agree, when the second key's parts
      contain no underscore (the route's parts may). */
  lemma {:induction false} KeyOfInjective(a: string, b: string, p: string, c: string)
    requires '_' !in p && '_' !in c
    ensures KeyOf(a, b) == KeyOf(p, c) <==> a == p && b == c
  {
    if KeyOf(a, b) == KeyOf(p, c) {
      var k := KeyOf(a, b);
      assert k == "STRIPE_" + (a + "_" + b) + "_PRICE_ID";
      assert k == "STRIPE_" + (p + "_" + c) + "_PRICE_ID";
      assert a + "_" + b == k[7..|k| - 9] == p + "_" + c;
      Text.SeparatorUnique(a, b, p, c, '_');
    }
  }

  /** A request resolves to the price of plan `p` and cycle `c` exactly when its upper-cased,
      normalised plan name and upper-cased cycle are that plan's and that cycle's tokens. */
  lemma RequestKeyNamesPrice(planName: string, billingCycle: string, p: Plan, c: Cycle)
    ensures RequestKey(planName, billingCycle) == PriceKey(p, c) <==>
      Text.Upper(NormalisePlan(planName)) == PlanToken(p) && Text.Upper(billingCycle) == CycleToken(c)
  {
    KeyOfInjective(Text.Upper(NormalisePlan(planName)), Text.Upper(billingCycle), PlanToken(p), CycleToken(c));
  }

  /** The plan and cycle names the schema stores, sent back as the client's plan name and cycle,
      name their own price. */
  lemma SchemaNamesResolve(p: Plan, c: Cycle)
    ensures RequestKey(PlanName(p), CycleName(c)) == PriceKey(p, c)
  {
    var n := PlanName(p);
    assert Text.RemoveWhitespace(n) == n by {
      Seqs.FilterAll(n, Text.NotSpace);
    }
    PlanNameToken(p);
    CycleNameToken(c);
  }

  lemma PlanNameToken(p: Plan)
    ensures Text.Upper(Text.Lower(PlanName(p))) == PlanToken(p)
  {
    match p
    case Basic =>
      assert Text.Lower("Basic") == "basic";
      assert Text.Upper("basic") == "BASIC";
    case Pro =>
      assert Text.Lower("Pro") == "pro";
      assert Text.Upper("pro") == "PRO";
    case Enterprise =>
      assert Text.Lower("Enterprise") == "enterprise";
      assert Text.Upper("enterprise") == "ENTERPRISE";
  }

  lemma CycleNameToken(c: Cycle)
    ensures Text.Upper(CycleName(c)) == CycleToken(c)
  {
    match c
    case Monthly => assert Text.Upper("monthly") == "MONTHLY";
    case Yearly => assert Text.Upper("yearly") == "YEARLY";
  }

  /** The request the route sends to the provider: one unit of the plan's price, with the company
      and the plan name and cycle as the client sent them in the metadata. */
  datatype PlanCheckout = PlanCheckout(priceId: string, companyId: string, plan: string, billingCycle: string)

  /** `create-checkout-session`: an unknown company, a missing plan or cycle, a key that holds no
      price and a failing provider call all answer 500; otherwise 200 with the session's URL. */
  function CreatePlanCheckout(companyKnown: bool, companyId: string, planName: Option<string>, billingCycle: Option<string>,
                              config: PriceConfig, session: Fetch<string>): (r: (int, Option<PlanCheckout>, Option<string>))
    ensures r.0 == 200 || r.0 == 500
    ensures !companyKnown || planName.None? || billingCycle.None? ==> r == (500, None, None)
    ensures r.1.Some? ==>
      && planName.Some? && billingCycle.Some?
      && LookupPrice(config, RequestKey(planName.value, billingCycle.value)) == Some(r.1.value.priceId)
      && r.1.value.priceId != ""
      && r.1.value == PlanCheckout(r.1.value.priceId, companyId, planName.value, billingCycle.value)
    ensures companyKnown && planName.Some? && billingCycle.Some? ==>
      (r.1.Some? <==> (var price := LookupPrice(config, RequestKey(planName.value, billingCycle.value));
                       price.Some? && price.value != ""))
    ensures r.0 == 200 <==> r.1.Some? && session.Fetched?
    ensures r.0 == 200 ==> r.2 == Some(session.value)
  {
    if !companyKnown || planName.None? || billingCycle.None? then (500, None, None)
    else
      var key := RequestKey(planName.value, billingCycle.value);
      match LookupPrice(config, key)
      case None => (500, None, None)
      case Some(priceId) =>
        if priceId == "" then (500, None, None)
        else
          var request := PlanCheckout(priceId, companyId, planName.value, billingCycle.value);
          match session
          case Unavailable => (500, Some(request), None)
          case Fetched(url) => (200, Some(request), Some(url))
  }

  /** Any request that reaches the provider names one of the six plan/cycle combinations. */
  lemma CheckoutNamesAPlan(companyKnown: bool, companyId: string, planName: Option<string>, billingCycle: Option<string>,
                           config: PriceConfig, session: Fetch<string>)
    requires CreatePlanCheckout(companyKnown, companyId, planName, billingCycle, config, session).1.Some?
    ensures exists p: Plan, c: Cycle ::
      Text.Upper(NormalisePlan(planName.value)) == PlanToken(p) && Text.Upper(billingCycle.value) == CycleToken(c)
  {
    var key := RequestKey(planName.value, billingCycle.value);
    var p: Plan, c: Cycle :| key == PriceKey(p, c);
    RequestKeyNamesPrice(planName.value, billingCycle.value, p, c);
  }
}
