/** The engagement platform's marketplace: buying an item with coins (availability, balance,
    permanent ownership, approval, expiry, stock) and redeeming a purchase once. Random draws and the
    clock are inputs. */
module Marketplace {
  import opened Common
  import Seqs
  import opened ErrorFlow
  import opened Members

  const DayMs := 24 * 60 * 60 * 1000

  datatype Item = Item(
    itemId: string,
    categoryId: string,
    name: string,
    price: int,
    available: bool,
    featured: bool,
    quantity: Option<int>,
    expiryDays: Option<int>,
    permanent: bool,
    approvalRequired: bool)

  datatype PurchaseStatus = Active | Used | Expired | PendingApproval | Approved | Rejected

  function StatusName(s: PurchaseStatus): string {
    match s
    case Active => "active"
    case Used => "used"
    case Expired => "expired"
    case PendingApproval => "pending_approval"
    case Approved => "approved"
    case Rejected => "rejected"
  }

  datatype Purchase = Purchase(
    purchaseId: string,
    userId: string,
    itemId: string,
    purchaseDate: int,
    expiryDate: Option<int>,
    used: bool,
    redeemCode: string,
    status: PurchaseStatus,
    permanent: bool,
    active: bool)

  datatype Market = Market(items: seq<Item>, purchases: seq<Purchase>, users: seq<Member>)

  // ---------------------------------------------------------------- redeem codes

  const CodeAlphabet := "ABCDEFGHIJKLMNOPQRSTUVWXYZ0123456789"
  const CodeLength := 8

  predicate InAlphabet(c: char) {
    'A' <= c <= 'Z' || '0' <= c <= '9'
  }

  /** Draws as `Math.floor(Math.random() * 36)` yields them. */
  predicate ValidDraws(draws: seq<int>) {
    |draws| == CodeLength && forall i :: 0 <= i < |draws| ==> 0 <= draws[i] < |CodeAlphabet|
  }

  /** The character at position `k` of the alphabet: letters first, then digits. */
  function CodeChar(k: int): (c: char)
    requires 0 <= k < |CodeAlphabet|
    ensures InAlphabet(c)
  {
    if k < 26 then ('A' as int + k) as char else ('0' as int + k - 26) as char
  }

  lemma {:induction false} AlphabetMatches()
    ensures forall k :: 0 <= k < |CodeAlphabet| ==> CodeAlphabet[k] == CodeChar(k)
  {
    assert CodeAlphabet == seq(36, k requires 0 <= k < 36 => CodeChar(k));
  }

  /** `generateRedeemCode`: the alphabet character each draw picks, eight in all. */
  function RedeemCode(draws: seq<int>): (code: string)
    requires ValidDraws(draws)
    ensures |code| == CodeLength
    ensures forall i :: 0 <= i < |code| ==> InAlphabet(code[i]) && code[i] == CodeAlphabet[draws[i]]
  {
    AlphabetMatches();
    seq(CodeLength, i requires 0 <= i < CodeLength => CodeChar(draws[i]))
  }

  /** Different draws give different codes. */
  lemma RedeemCodeInjective(a: seq<int>, b: seq<int>)
    requires ValidDraws(a) && ValidDraws(b) && RedeemCode(a) == RedeemCode(b)
    ensures a == b
  {
    AlphabetMatches();
    forall i | 0 <= i < CodeLength ensures a[i] == b[i] {
      assert CodeChar(a[i]) == RedeemCode(a)[i] == RedeemCode(b)[i] == CodeChar(b[i]);
    }
  }

  // ---------------------------------------------------------------- purchase

  function FindItem(items: seq<Item>, itemId: string): (r: Option<nat>)
    ensures r.Some? ==> r.value < |items| && items[r.value].itemId == itemId
    ensures r.None? <==> forall j :: 0 <= j < |items| ==> items[j].itemId != itemId
  {
    Seqs.FirstIndex(items, (i: Item) => i.itemId == itemId)
  }

  /** Whether the user holds an active permanent purchase of the item. */
  predicate OwnsPermanently(purchases: seq<Purchase>, userId: string, itemId: string) {
    exists k :: 0 <= k < |purchases| && purchases[k].userId == userId && purchases[k].itemId == itemId
                && purchases[k].active && purchases[k].permanent
  }

  /** The purchase record for an item: permanent as the item is, expiring `expiryDays` days from now
      when that is set and non-zero, waiting for approval when the item needs it and active otherwise. */
  function NewPurchase(item: Item, purchaseId: string, userId: string, now: int, code: string): (p: Purchase)
    ensures p.permanent == item.permanent && !p.used && p.active && p.purchaseDate == now
    ensures p.status == (if item.approvalRequired then PendingApproval else Active)
    ensures p.expiryDate.Some? <==> item.expiryDays.Some? && item.expiryDays.value != 0
    ensures p.expiryDate.Some? ==> p.expiryDate.value == now + item.expiryDays.value * DayMs
  {
    Purchase(purchaseId, userId, item.itemId, now,
             if item.expiryDays.Some? && item.expiryDays.value != 0 then Some(now + item.expiryDays.value * DayMs) else None,
             false, code, if item.approvalRequired then PendingApproval else Active, item.permanent, true)
  }

  /** Stock after a sale: a set, non-zero quantity drops by one and the item goes off sale at zero or
      below; an unlimited item is unchanged. */
  function TakeOne(item: Item): (r: Item)
    ensures r.itemId == item.itemId && r.price == item.price && r.permanent == item.permanent
    ensures item.quantity.None? || item.quantity.value == 0 ==> r == item
    ensures item.quantity.Some? && item.quantity.value != 0 ==>
      r.quantity == Some(item.quantity.value - 1) && (r.available <==> item.available && item.quantity.value - 1 > 0)
  {
    if item.quantity.Some? && item.quantity.value != 0 then
      var q := item.quantity.value - 1;
      item.(quantity := Some(q), available := if q <= 0 then false else item.available)
    else item
  }

  /** `purchaseItem`. Unknown item 404; off sale 400; a missing buyer record fails at the balance read
      (500); too few coins 400; an active permanent purchase already held 400. Otherwise the purchase
      is stored, the price is taken from the buyer's coins, and the stock is reduced; 201. */
  function PurchaseItem(db: Market, itemId: string, userId: string, purchaseId: string, now: int, draws: seq<int>): (r: Outcome<Market>)
    requires ValidDraws(draws)
    ensures FindItem(db.items, itemId).None? ==> r.reply.Failure? && r.reply.err.statusCode == Some(404)
    ensures (FindItem(db.items, itemId).Some? && FindMember(db.users, userId).None?
             && db.items[FindItem(db.items, itemId).value].available) ==> StatusOf(r.reply) == 500
    ensures FindItem(db.items, itemId).Some? && !db.items[FindItem(db.items, itemId).value].available ==>
      StatusOf(r.reply) == 400 && r.store == db
    ensures && FindItem(db.items, itemId).Some? && db.items[FindItem(db.items, itemId).value].available
            && FindMember(db.users, userId).Some?
            && db.users[FindMember(db.users, userId).value].stats.totalCoins < db.items[FindItem(db.items, itemId).value].price ==>
      StatusOf(r.reply) == 400 && r.store == db
    ensures && FindItem(db.items, itemId).Some? && db.items[FindItem(db.items, itemId).value].available
            && FindMember(db.users, userId).Some?
            && db.users[FindMember(db.users, userId).value].stats.totalCoins >= db.items[FindItem(db.items, itemId).value].price
            && OwnsPermanently(db.purchases, userId, itemId) ==>
      StatusOf(r.reply) == 400 && r.store == db
    ensures r.reply == Success(201) <==>
      && FindItem(db.items, itemId).Some? && db.items[FindItem(db.items, itemId).value].available
      && FindMember(db.users, userId).Some?
      && db.users[FindMember(db.users, userId).value].stats.totalCoins >= db.items[FindItem(db.items, itemId).value].price
      && !OwnsPermanently(db.purchases, userId, itemId)
    ensures r.reply != Success(201) ==> r.store == db
    ensures r.reply == Success(201) ==>
      var ii := FindItem(db.items, itemId).value;
      var ui := FindMember(db.users, userId).value;
      && r.store.purchases == db.purchases + [NewPurchase(db.items[ii], purchaseId, userId, now, RedeemCode(draws))]
      && r.store.items == db.items[ii := TakeOne(db.items[ii])]
      && r.store.users == db.users[ui := db.users[ui].(stats := db.users[ui].stats.(totalCoins := db.users[ui].stats.totalCoins - db.items[ii].price))]
      && r.store.users[ui].stats.totalCoins >= 0
  {
    match FindItem(db.items, itemId)
    case None => Outcome(Failure(CreateError(404, "Item with id " + itemId + " not found")), db)
    case Some(ii) =>
      var item := db.items[ii];
      if !item.available then Outcome(Failure(CreateError(400, "This item is not available")), db)
      else
        match FindMember(db.users, userId)
        case None => Outcome(Failure(RuntimeError("Cannot read properties of null (reading 'stats')")), db)
        case Some(ui) =>
          var buyer := db.users[ui];
          if buyer.stats.totalCoins < item.price then
            Outcome(Failure(CreateError(400, "Not enough coins to purchase this item")), db)
          else if OwnsPermanently(db.purchases, userId, itemId) then
            Outcome(Failure(CreateError(400, "You already own this item")), db)
          else
            var p := NewPurchase(item, purchaseId, userId, now, RedeemCode(draws));
            var paid := buyer.(stats := buyer.stats.(totalCoins := buyer.stats.totalCoins - item.price));
            Outcome(Success(201), Market(db.items[ii := TakeOne(item)], db.purchases + [p], db.users[ui := paid]))
  }

  /** A permanent item cannot be bought twice: once the purchase succeeds, the same buyer's next
      attempt is refused with 400 (or the item is already off sale). */
  lemma {:induction false} PermanentBoughtOnce(db: Market, itemId: string, userId: string, p1: string, p2: string,
                                               t1: int, t2: int, d1: seq<int>, d2: seq<int>)
    requires ValidDraws(d1) && ValidDraws(d2)
    requires PurchaseItem(db, itemId, userId, p1, t1, d1).reply == Success(201)
    requires db.items[FindItem(db.items, itemId).value].permanent
    ensures var after := PurchaseItem(db, itemId, userId, p1, t1, d1).store;
            StatusOf(PurchaseItem(after, itemId, userId, p2, t2, d2).reply) == 400
  {
    var after := PurchaseItem(db, itemId, userId, p1, t1, d1).store;
    var ii := FindItem(db.items, itemId).value;
    ReplaceKeepsIds(db.users, FindMember(db.users, userId).value, after.users[FindMember(db.users, userId).value], userId);
    assert after.items[ii].itemId == itemId;
    assert FindItem(after.items, itemId).Some?;
    var k := |db.purchases|;
    assert after.purchases[k].userId == userId && after.purchases[k].itemId == itemId;
    assert OwnsPermanently(after.purchases, userId, itemId);
  }

  /** The last unit of limited stock takes the item off sale, so the next buyer is refused. */
  lemma LastUnitClosesSale(item: Item)
    requires item.quantity == Some(1)
    ensures !TakeOne(item).available
  {
  }

  // ---------------------------------------------------------------- redeem

  function FindPurchase(purchases: seq<Purchase>, purchaseId: string): (r: Option<nat>)
    ensures r.Some? ==> r.value < |purchases| && purchases[r.value].purchaseId == purchaseId
    ensures r.Some? ==> forall j :: 0 <= j < r.value ==> purchases[j].purchaseId != purchaseId
    ensures r.None? <==> forall j :: 0 <= j < |purchases| ==> purchases[j].purchaseId != purchaseId
  {
    Seqs.FirstIndex(purchases, (p: Purchase) => p.purchaseId == purchaseId)
  }

  /** `redeemPurchase` at `now`. Unknown 404; another user's 403; not active 400; already used 400;
      past its expiry date: stored as expired and inactive, then 400. Otherwise marked used; 200. */
  function RedeemPurchase(purchases: seq<Purchase>, purchaseId: string, userId: string, now: int): (r: Outcome<seq<Purchase>>)
    ensures FindPurchase(purchases, purchaseId).None? ==> r.reply.Failure? && r.reply.err.statusCode == Some(404) && r.store == purchases
    ensures FindPurchase(purchases, purchaseId).Some? ==>
      var i := FindPurchase(purchases, purchaseId).value;
      var p := purchases[i];
      && |r.store| == |purchases|
      && (forall j :: 0 <= j < |purchases| && j != i ==> r.store[j] == purchases[j])
      && (p.userId != userId ==> StatusOf(r.reply) == 403 && r.store == purchases)
      && (p.userId == userId && (p.status != Active || p.used) ==> StatusOf(r.reply) == 400 && r.store == purchases)
      && (p.userId == userId && p.status == Active && !p.used && p.expiryDate.Some? && p.expiryDate.value < now ==>
            StatusOf(r.reply) == 400 && r.store[i] == p.(status := Expired, active := false))
      && (r.reply.Success? <==> p.userId == userId && p.status == Active && !p.used
                                && (p.expiryDate.None? || p.expiryDate.value >= now))
      && (r.reply.Success? ==> r.reply.status == 200 && r.store[i] == p.(used := true, status := Used))
      && (r.store[i] != p ==> r.store[i] == p.(used := true, status := Used) || r.store[i] == p.(status := Expired, active := false))
      && (r.store[i] == p.(status := Expired, active := false) && r.store[i] != p ==> StatusOf(r.reply) == 400)
  {
    match FindPurchase(purchases, purchaseId)
    case None => Outcome(Failure(CreateError(404, "Purchase with id " + purchaseId + " not found")), purchases)
    case Some(i) =>
      var p := purchases[i];
      if p.userId != userId then Outcome(Failure(CreateError(403, "Not authorized to redeem this purchase")), purchases)
      else if p.status != Active then
        Outcome(Failure(CreateError(400, "Cannot redeem purchase with status: " + StatusName(p.status))), purchases)
      else if p.used then Outcome(Failure(CreateError(400, "This purchase has already been redeemed")), purchases)
      else if p.expiryDate.Some? && p.expiryDate.value < now then
        Outcome(Failure(CreateError(400, "This purchase has expired")), purchases[i := p.(status := Expired, active := false)])
      else Outcome(Success(200), purchases[i := p.(used := true, status := Used)])
  }

  /** A purchase is redeemed at most once: after a successful redeem, any further attempt is 400. */
  lemma RedeemedOnce(purchases: seq<Purchase>, purchaseId: string, userId: string, t1: int, t2: int)
    requires RedeemPurchase(purchases, purchaseId, userId, t1).reply.Success?
    ensures var after := RedeemPurchase(purchases, purchaseId, userId, t1).store;
            StatusOf(RedeemPurchase(after, purchaseId, userId, t2).reply) == 400
  {
    var i := FindPurchase(purchases, purchaseId).value;
    var after := RedeemPurchase(purchases, purchaseId, userId, t1).store;
    assert forall j :: 0 <= j < |after| ==> after[j].purchaseId == purchases[j].purchaseId;
    assert FindPurchase(after, purchaseId) == Some(i);
  }

  /** A purchase awaiting approval is never redeemable and is left untouched. */
  lemma PendingNotRedeemable(purchases: seq<Purchase>, purchaseId: string, userId: string, now: int)
    requires FindPurchase(purchases, purchaseId).Some?
    requires purchases[FindPurchase(purchases, purchaseId).value].status == PendingApproval
    ensures RedeemPurchase(purchases, purchaseId, userId, now).reply.Failure?
    ensures RedeemPurchase(purchases, purchaseId, userId, now).store == purchases
  {
  }

  /** `used` and the status "used" go together in every record the two handlers write. */
  predicate Coherent(purchases: seq<Purchase>) {
    forall k :: 0 <= k < |purchases| ==> (purchases[k].used <==> purchases[k].status == Used)
  }

  lemma {:induction false} CoherenceKept(db: Market, itemId: string, userId: string, purchaseId: string, now: int, draws: seq<int>,
                                         redeemId: string)
    requires ValidDraws(draws) && Coherent(db.purchases)
    ensures Coherent(PurchaseItem(db, itemId, userId, purchaseId, now, draws).store.purchases)
    ensures Coherent(RedeemPurchase(db.purchases, redeemId, userId, now).store)
  {
    var r := PurchaseItem(db, itemId, userId, purchaseId, now, draws);
    if r.reply == Success(201) {
      var ps := r.store.purchases;
      assert forall k :: 0 <= k < |db.purchases| ==> ps[k] == db.purchases[k];
      assert !ps[|db.purchases|].used && ps[|db.purchases|].status != Used;
    }
  }

  /** A redeemed permanent purchase stays active, so the item still cannot be bought again. */
  lemma RedeemKeepsOwnership(purchases: seq<Purchase>, purchaseId: string, userId: string, now: int, itemId: string)
    requires OwnsPermanently(purchases, userId, itemId)
    requires RedeemPurchase(purchases, purchaseId, userId, now).reply.Success?
    ensures OwnsPermanently(RedeemPurchase(purchases, purchaseId, userId, now).store, userId, itemId)
  {
    var k :| 0 <= k < |purchases| && purchases[k].userId == userId && purchases[k].itemId == itemId
             && purchases[k].active && purchases[k].permanent;
    var after := RedeemPurchase(purchases, purchaseId, userId, now).store;
    assert after[k].userId == userId && after[k].itemId == itemId && after[k].active && after[k].permanent;
  }
}
