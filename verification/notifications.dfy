/** The engagement platform's notifications, embedded in each member: listing, marking read,
    clearing and creating them from the controller, and the service that notifies one member, a
    department or everyone. Generated ids and the clock are inputs. */
module Notifications {
  import opened Common
  import Seqs
  import Sorting
  import opened ErrorFlow
  import opened Members
  import opened AuthMiddleware

  /** The notification type enum read from text. */
  function ParseNotificationType(s: string): (r: Option<NotificationType>)
    ensures r.Some? <==> s in ["survey", "achievement", "team", "general"]
  {
    if s == "survey" then Some(NotificationType.Survey)
    else if s == "achievement" then Some(Achievement)
    else if s == "team" then Some(Team)
    else if s == "general" then Some(General)
    else None
  }

  /** What a caller supplies for a notification; an absent or empty type means "general" and an
      absent or empty action URL means "/". */
  datatype NotificationData = NotificationData(title: string, body: string, kind: Option<string>,
                                               actionId: Option<string>, actionUrl: Option<string>)

  predicate DefaultedType(data: NotificationData) {
    data.kind.None? || data.kind.value == ""
  }

  /** What the schema accepts when the member is saved: a title, a body and a known type. */
  predicate DataValid(data: NotificationData) {
    data.title != "" && data.body != "" && (DefaultedType(data) || ParseNotificationType(data.kind.value).Some?)
  }

  /** The notification built from the data: unread, created now, with the defaults filled in. */
  function MakeNotification(data: NotificationData, uuid: string, docId: string, now: int): (n: Notification)
    requires DataValid(data)
    ensures n.id == uuid && n.docId == docId && n.title == data.title && n.body == data.body
    ensures !n.isRead && n.createdAt == now && n.actionId == data.actionId
    ensures DefaultedType(data) ==> n.kind == General
    ensures !DefaultedType(data) ==> Some(n.kind) == ParseNotificationType(data.kind.value)
    ensures n.actionUrl == if data.actionUrl.None? || data.actionUrl.value == "" then "/" else data.actionUrl.value
  {
    Notification(docId, uuid, data.title, data.body,
                 if DefaultedType(data) then General else ParseNotificationType(data.kind.value).value,
                 false, now, data.actionId,
                 if data.actionUrl.None? || data.actionUrl.value == "" then "/" else data.actionUrl.value)
  }

  function Notify(m: Member, n: Notification): (r: Member)
    ensures r.memberId == m.memberId && r.notifications == m.notifications + [n]
    ensures r.(notifications := m.notifications) == m
  {
    m.(notifications := m.notifications + [n])
  }

  // ---------------------------------------------------------------- controller

  /** `.sort((a, b) => b.createdAt - a.createdAt)`, a stable sort. */
  function NewestFirst(): (Notification, Notification) -> bool {
    (a: Notification, b: Notification) => a.createdAt >= b.createdAt
  }

  lemma NewestFirstIsPreorder()
    ensures Sorting.TotalPreorder(NewestFirst())
  {
  }

  datatype ListReply = Listed(count: nat, items: seq<Notification>) | ListFailed(err: ErrorObj)

  /** `getUserNotifications`: 404 for a missing member; otherwise all their notifications, newest
      first, with their number. */
  function GetUserNotifications(users: seq<Member>, principal: Principal): (r: ListReply)
    ensures r.ListFailed? <==> FindMember(users, principal.memberId).None?
    ensures r.ListFailed? ==> r.err.statusCode == Some(404)
    ensures r.Listed? ==>
      var mine := users[FindMember(users, principal.memberId).value].notifications;
      && r.count == |r.items| == |mine|
      && multiset(r.items) == multiset(mine)
      && Sorting.SortedBy(r.items, NewestFirst())
  {
    match FindMember(users, principal.memberId)
    case None => ListFailed(CreateError(404, "User not found"))
    case Some(i) =>
      NewestFirstIsPreorder();
      var items := Sorting.SortBy(users[i].notifications, NewestFirst());
      Listed(|items|, items)
  }

  /** `notifications.id(x)`: the entry whose subdocument id is `x`. */
  function FindNotification(ns: seq<Notification>, docId: string): (r: Option<nat>)
    ensures r.Some? ==> r.value < |ns| && ns[r.value].docId == docId
    ensures r.Some? ==> forall j :: 0 <= j < r.value ==> ns[j].docId != docId
    ensures r.None? <==> forall j :: 0 <= j < |ns| ==> ns[j].docId != docId
  {
    Seqs.FirstIndex(ns, (n: Notification) => n.docId == docId)
  }

  /** `markNotificationAsRead`: 404 for a missing member or notification; otherwise only that entry
      becomes read. */
  function MarkNotificationAsRead(users: seq<Member>, principal: Principal, docId: string): (r: Outcome<seq<Member>>)
    ensures r.reply.Success? <==>
      FindMember(users, principal.memberId).Some?
      && FindNotification(users[FindMember(users, principal.memberId).value].notifications, docId).Some?
    ensures r.reply.Failure? ==> r.reply.err.statusCode == Some(404) && r.store == users
    ensures r.reply.Success? ==>
      var i := FindMember(users, principal.memberId).value;
      var ns := users[i].notifications;
      var k := FindNotification(ns, docId).value;
      && r.reply.status == 200
      && r.store == users[i := users[i].(notifications := ns[k := ns[k].(isRead := true)])]
      && r.store[i].notifications[k].isRead
  {
    match FindMember(users, principal.memberId)
    case None => Outcome(Failure(CreateError(404, "User not found")), users)
    case Some(i) =>
      var ns := users[i].notifications;
      match FindNotification(ns, docId)
      case None => Outcome(Failure(CreateError(404, "Notification not found")), users)
      case Some(k) => Outcome(Success(200), users[i := users[i].(notifications := ns[k := ns[k].(isRead := true)])])
  }

  /** Lists with the same ids at the same positions find every id at the same place. */
  lemma SameDocIdsSameFind(a: seq<Notification>, b: seq<Notification>, docId: string)
    requires |a| == |b| && forall k :: 0 <= k < |a| ==> a[k].docId == b[k].docId
    ensures FindNotification(a, docId) == FindNotification(b, docId)
  {
    var fa := FindNotification(a, docId);
    var fb := FindNotification(b, docId);
    if fa.Some? && fb.Some? {
      assert !(fa.value < fb.value) && !(fb.value < fa.value);
    }
  }

  /** Marking the same notification read twice leaves what the first call left. */
  lemma MarkReadIdempotent(users: seq<Member>, principal: Principal, docId: string)
    requires MarkNotificationAsRead(users, principal, docId).reply.Success?
    ensures var once := MarkNotificationAsRead(users, principal, docId).store;
            MarkNotificationAsRead(once, principal, docId).store == once
  {
    var i := FindMember(users, principal.memberId).value;
    var ns := users[i].notifications;
    var k := FindNotification(ns, docId).value;
    var ns2 := ns[k := ns[k].(isRead := true)];
    var once := users[i := users[i].(notifications := ns2)];
    assert MarkNotificationAsRead(users, principal, docId).store == once;
    ReplaceKeepsIds(users, i, once[i], principal.memberId);
    SameDocIdsSameFind(ns, ns2, docId);
    assert ns2[k := ns2[k].(isRead := true)] == ns2;
    assert once[i := once[i].(notifications := ns2)] == once;
  }

  /** `clearAllNotifications`: 404 for a missing member; otherwise their list is emptied. */
  function ClearAllNotifications(users: seq<Member>, principal: Principal): (r: Outcome<seq<Member>>)
    ensures r.reply.Success? <==> FindMember(users, principal.memberId).Some?
    ensures r.reply.Failure? ==> r.reply.err.statusCode == Some(404) && r.store == users
    ensures r.reply.Success? ==>
      var i := FindMember(users, principal.memberId).value;
      && r.reply.status == 200 && |r.store| == |users|
      && r.store[i] == users[i].(notifications := [])
      && forall j :: 0 <= j < |users| && j != i ==> r.store[j] == users[j]
  {
    match FindMember(users, principal.memberId)
    case None => Outcome(Failure(CreateError(404, "User not found")), users)
    case Some(i) => Outcome(Success(200), users[i := users[i].(notifications := [])])
  }

  /** After clearing, the member's listing is empty. */
  lemma ClearThenListEmpty(users: seq<Member>, principal: Principal)
    requires FindMember(users, principal.memberId).Some?
    ensures GetUserNotifications(ClearAllNotifications(users, principal).store, principal) == Listed(0, [])
  {
    var i := FindMember(users, principal.memberId).value;
    ReplaceKeepsIds(users, i, users[i].(notifications := []), principal.memberId);
  }

  /** `createNotification` for `userId`: 400 without a user id, title or body; 404 for a missing
      member; a type outside the enum fails validation (500); otherwise the notification is appended
      to the member's list; 201. */
  function CreateNotification(users: seq<Member>, userId: string, data: NotificationData,
                              uuid: string, docId: string, now: int): (r: Outcome<seq<Member>>)
    ensures (userId == "" || data.title == "" || data.body == "") ==>
      r.reply.Failure? && r.reply.err.statusCode == Some(400)
    ensures userId != "" && data.title != "" && data.body != "" && FindMember(users, userId).None? ==>
      r.reply.Failure? && r.reply.err.statusCode == Some(404) && r.store == users
    ensures r.reply.Success? <==> userId != "" && FindMember(users, userId).Some? && DataValid(data)
    ensures r.reply.Failure? ==> r.store == users
    ensures r.reply.Success? ==>
      var i := FindMember(users, userId).value;
      && r.reply.status == 201
      && r.store == users[i := Notify(users[i], MakeNotification(data, uuid, docId, now))]
      && |r.store[i].notifications| == |users[i].notifications| + 1
  {
    if userId == "" || data.title == "" || data.body == "" then
      Outcome(Failure(CreateError(400, "Please provide userId, title and body")), users)
    else
      match FindMember(users, userId)
      case None => Outcome(Failure(CreateError(404, "User not found")), users)
      case Some(i) =>
        if !DataValid(data) then Outcome(Failure(RuntimeError("User validation failed")), users)
        else Outcome(Success(201), users[i := Notify(users[i], MakeNotification(data, uuid, docId, now))])
  }

  // ---------------------------------------------------------------- service

  datatype ServiceResult = Created(users: seq<Member>, notification: Notification) | Thrown(err: ErrorObj)

  /** `createUserNotification`: throws for a missing member or data the schema rejects; otherwise
      appends the notification to the member's list and returns it. */
  function CreateUserNotification(users: seq<Member>, userId: string, data: NotificationData,
                                  uuid: string, docId: string, now: int): (r: ServiceResult)
    ensures r.Thrown? <==> FindMember(users, userId).None? || !DataValid(data)
    ensures r.Created? ==>
      var i := FindMember(users, userId).value;
      && r.notification == MakeNotification(data, uuid, docId, now)
      && r.users == users[i := Notify(users[i], r.notification)]
  {
    match FindMember(users, userId)
    case None => Thrown(RuntimeError("User with ID " + userId + " not found"))
    case Some(i) =>
      if !DataValid(data) then Thrown(RuntimeError("User validation failed"))
      else
        var n := MakeNotification(data, uuid, docId, now);
        Created(users[i := Notify(users[i], n)], n)
  }

  /** The controller and the service build and store the same notification for a present member. */
  lemma ControllerMatchesService(users: seq<Member>, userId: string, data: NotificationData, uuid: string, docId: string, now: int)
    requires userId != "" && CreateNotification(users, userId, data, uuid, docId, now).reply.Success?
    ensures CreateUserNotification(users, userId, data, uuid, docId, now).Created?
    ensures CreateUserNotification(users, userId, data, uuid, docId, now).users == CreateNotification(users, userId, data, uuid, docId, now).store
  {
  }

  /** What a broadcast leaves each member with: one new notification when selected. */
  function Notified(m: Member, selected: Member -> bool, data: NotificationData, uuid: string, docId: string, now: int): Member
    requires DataValid(data)
  {
    if selected(m) then Notify(m, MakeNotification(data, uuid, docId, now)) else m
  }

  /** Part way through a broadcast, the member at `j` is still as stored and is found at `j`. */
  lemma NotifyAt(users: seq<Member>, out: seq<Member>, j: nat, data: NotificationData, uuid: string, docId: string, now: int)
    requires UniqueIds(users) && j < |users| == |out| && out[j] == users[j]
    requires forall k :: 0 <= k < |users| ==> out[k].memberId == users[k].memberId
    ensures var r := CreateUserNotification(out, users[j].memberId, data, uuid, docId, now);
      && (r.Thrown? <==> !DataValid(data))
      && (r.Created? ==> r.users == out[j := Notify(users[j], MakeNotification(data, uuid, docId, now))])
  {
    SameIdsSameFind(out, users, users[j].memberId);
    FoundMemberIsOnly(users, users[j].memberId);
  }

  /** The members before `j` notified as selected, the rest as stored. */
  predicate BroadcastUpTo(users: seq<Member>, out: seq<Member>, j: nat, selected: Member -> bool,
                          data: NotificationData, uuids: seq<string>, docIds: seq<string>, now: int)
    requires DataValid(data) && |uuids| == |users| && |docIds| == |users|
  {
    && j <= |users| == |out|
    && (forall k :: 0 <= k < |users| ==> out[k].memberId == users[k].memberId)
    && (forall k :: j <= k < |users| ==> out[k] == users[k])
    && (forall k :: 0 <= k < j ==> out[k] == Notified(users[k], selected, data, uuids[k], docIds[k], now))
  }

  /** Nothing before `j` was selected. */
  predicate NoneSelectedBefore(users: seq<Member>, selected: Member -> bool, j: nat) {
    forall k :: 0 <= k < j && k < |users| ==> !selected(users[k])
  }

  /** One more member handled keeps the broadcast's progress. */
  lemma BroadcastStep(users: seq<Member>, out: seq<Member>, j: nat, selected: Member -> bool,
                      data: NotificationData, uuids: seq<string>, docIds: seq<string>, now: int)
    requires DataValid(data) && |uuids| == |users| && |docIds| == |users| && j < |users|
    requires BroadcastUpTo(users, out, j, selected, data, uuids, docIds, now)
    ensures BroadcastUpTo(users, out[j := Notified(users[j], selected, data, uuids[j], docIds[j], now)], j + 1,
                          selected, data, uuids, docIds, now)
    ensures Seqs.Count(users[..j + 1], selected) == Seqs.Count(users[..j], selected) + if selected(users[j]) then 1 else 0
  {
    assert users[..j + 1][..j] == users[..j];
  }

  /** The loop of `createDepartmentNotification` and `createSystemNotification`: every selected member
      is notified in stored order and counted. Valid data reaches every selected member exactly once
      and the count is their number; data the schema rejects throws at the first selected member
      with nothing changed. `uuids` and `docIds` are the fresh ids, one per member. */
  method Broadcast(users: seq<Member>, selected: Member -> bool, data: NotificationData,
                   uuids: seq<string>, docIds: seq<string>, now: int)
    returns (out: seq<Member>, count: nat, failure: Option<ErrorObj>)
    requires UniqueIds(users) && |uuids| == |users| && |docIds| == |users|
    ensures DataValid(data) ==>
      && failure.None? && count == Seqs.Count(users, selected) && |out| == |users|
      && forall j :: 0 <= j < |users| ==> out[j] == Notified(users[j], selected, data, uuids[j], docIds[j], now)
    ensures !DataValid(data) ==>
      out == users && count == 0 && (failure.Some? <==> exists j :: 0 <= j < |users| && selected(users[j]))
  {
    out := users;
    count := 0;
    failure := None;
    var j := 0;
    while j < |users|
      invariant 0 <= j <= |users| == |out|
      invariant forall k :: 0 <= k < |users| ==> out[k].memberId == users[k].memberId
      invariant DataValid(data) ==> BroadcastUpTo(users, out, j, selected, data, uuids, docIds, now)
      invariant DataValid(data) ==> count == Seqs.Count(users[..j], selected)
      invariant !DataValid(data) ==> out == users && count == 0 && NoneSelectedBefore(users, selected, j)
    {
      if selected(users[j]) {
        NotifyAt(users, out, j, data, uuids[j], docIds[j], now);
        var res := CreateUserNotification(out, users[j].memberId, data, uuids[j], docIds[j], now);
        if res.Thrown? {
          failure := Some(res.err);
          return;
        }
        BroadcastStep(users, out, j, selected, data, uuids, docIds, now);
        out := res.users;
        count := count + 1;
      } else if DataValid(data) {
        BroadcastStep(users, out, j, selected, data, uuids, docIds, now);
        assert out[j := Notified(users[j], selected, data, uuids[j], docIds[j], now)] == out;
      }
      j := j + 1;
    }
    assert users[..|users|] == users;
  }

  function InDepartment(department: string): Member -> bool {
    (m: Member) => m.department == department
  }

  function Everyone(): Member -> bool {
    (m: Member) => true
  }

  /** `createDepartmentNotification`: one notification for each member of the department, and their
      number. */
  method CreateDepartmentNotification(users: seq<Member>, department: string, data: NotificationData,
                                      uuids: seq<string>, docIds: seq<string>, now: int)
    returns (out: seq<Member>, count: nat, failure: Option<ErrorObj>)
    requires UniqueIds(users) && |uuids| == |users| && |docIds| == |users|
    ensures DataValid(data) ==>
      && failure.None? && |out| == |users|
      && count == |Seqs.Filter(users, InDepartment(department))|
      && forall j :: 0 <= j < |users| ==>
           (users[j].department == department ==>
              out[j] == Notify(users[j], MakeNotification(data, uuids[j], docIds[j], now)))
           && (users[j].department != department ==> out[j] == users[j])
    ensures !DataValid(data) ==>
      out == users && count == 0 && (failure.Some? <==> exists j :: 0 <= j < |users| && users[j].department == department)
  {
    out, count, failure := Broadcast(users, InDepartment(department), data, uuids, docIds, now);
    Seqs.CountIsFilterLength(users, InDepartment(department));
    if !DataValid(data) && failure.Some? {
      var j :| 0 <= j < |users| && InDepartment(department)(users[j]);
      assert users[j].department == department;
    }
  }

  /** `createSystemNotification`: one notification for every member, and their number. */
  method CreateSystemNotification(users: seq<Member>, data: NotificationData, uuids: seq<string>, docIds: seq<string>, now: int)
    returns (out: seq<Member>, count: nat, failure: Option<ErrorObj>)
    requires UniqueIds(users) && |uuids| == |users| && |docIds| == |users|
    ensures DataValid(data) ==>
      && failure.None? && count == |users| && |out| == |users|
      && forall j :: 0 <= j < |users| ==>
           out[j] == Notify(users[j], MakeNotification(data, uuids[j], docIds[j], now))
    ensures !DataValid(data) ==> out == users && count == 0 && (failure.Some? <==> |users| > 0)
  {
    out, count, failure := Broadcast(users, Everyone(), data, uuids, docIds, now);
    if DataValid(data) {
      Seqs.CountIsFilterLength(users, Everyone());
      Seqs.FilterAll(users, Everyone());
    } else if |users| > 0 {
      assert Everyone()(users[0]);
    }
  }
}
