/** The engagement platform's user controller: profile update with its authorisation rules, the
    preference merge, and the level-and-statistics read. */
module Users {
  import opened Common
  import opened ErrorFlow
  import opened Members
  import opened AuthMiddleware

  /** The fields a profile update may carry; absent ones are left alone. The whole body is applied,
      so the level, the statistics, the preferences and the notification list can be sent too; each
      given one replaces the stored value as a whole. */
  datatype UserPatch = UserPatch(
    username: Option<string>,
    email: Option<string>,
    password: Option<string>,
    fullName: Option<string>,
    avatar: Option<string>,
    department: Option<string>,
    role: Option<string>,
    level: Option<Level>,
    stats: Option<Stats>,
    preferences: Option<Preferences>,
    notifications: Option<seq<Notification>>)

  /** A role in the body counts only when it is a non-empty string. */
  predicate ChangesRole(patch: UserPatch) {
    patch.role.Some? && patch.role.value != ""
  }

  /** Required text given as empty fails validation. */
  predicate EmptyRequired(field: Option<string>) {
    field == Some("")
  }

  /** The update validators and unique indexes for member `i`: no required field emptied, a role from
      the enum, every notification sent with its required fields, and no username or email taken by
      another member. */
  predicate PatchValid(users: seq<Member>, i: nat, patch: UserPatch)
    requires i < |users|
  {
    && !EmptyRequired(patch.username) && !EmptyRequired(patch.email) && !EmptyRequired(patch.password)
    && !EmptyRequired(patch.fullName) && !EmptyRequired(patch.department)
    && (patch.role.Some? ==> ParseRole(patch.role.value).Some?)
    && (patch.notifications.Some? ==>
          forall k :: 0 <= k < |patch.notifications.value| ==> NotificationValid(patch.notifications.value[k]))
    && (patch.username.Some? ==> forall j :: 0 <= j < |users| && j != i ==> users[j].username != patch.username.value)
    && (patch.email.Some? ==> forall j :: 0 <= j < |users| && j != i ==> users[j].email != patch.email.value)
  }

  function Pick<T>(field: Option<T>, current: T): (v: T)
    ensures field.Some? ==> v == field.value
    ensures field.None? ==> v == current
  {
    if field.Some? then field.value else current
  }

  /** The member after the update: each given field replaced, the rest as before. The password is
      written as given, since an update query bypasses the hashing save hook. */
  function ApplyPatch(m: Member, patch: UserPatch): (r: Member)
    ensures r.memberId == m.memberId
    ensures r.level == Pick(patch.level, m.level) && r.stats == Pick(patch.stats, m.stats)
    ensures r.preferences == Pick(patch.preferences, m.preferences)
    ensures r.notifications == Pick(patch.notifications, m.notifications)
    ensures r.password == Pick(patch.password, m.password)
    ensures r.username == Pick(patch.username, m.username) && r.email == Pick(patch.email, m.email)
    ensures r.fullName == Pick(patch.fullName, m.fullName) && r.avatar == Pick(patch.avatar, m.avatar)
    ensures r.department == Pick(patch.department, m.department)
    ensures patch.role.None? ==> r.role == m.role
    ensures patch.role.Some? && ParseRole(patch.role.value).Some? ==> r.role == ParseRole(patch.role.value).value
  {
    var role := if patch.role.Some? && ParseRole(patch.role.value).Some? then ParseRole(patch.role.value).value else m.role;
    m.(username := Pick(patch.username, m.username), email := Pick(patch.email, m.email),
       password := Pick(patch.password, m.password), fullName := Pick(patch.fullName, m.fullName),
       avatar := Pick(patch.avatar, m.avatar), department := Pick(patch.department, m.department),
       role := role, level := Pick(patch.level, m.level), stats := Pick(patch.stats, m.stats),
       preferences := Pick(patch.preferences, m.preferences),
       notifications := Pick(patch.notifications, m.notifications))
  }

  /** An update without fields leaves the member as it was, and sending the same update twice
      changes no more than sending it once. */
  lemma ApplyPatchLaws(m: Member, patch: UserPatch)
    ensures ApplyPatch(m, UserPatch(None, None, None, None, None, None, None, None, None, None, None)) == m
    ensures ApplyPatch(ApplyPatch(m, patch), patch) == ApplyPatch(m, patch)
  {
  }

  /** `updateUser`. An unknown target is 404, before any authorisation. A non-admin may update only
      themself and may not send a role (403). The update then runs the validators: a failure is a
      store error (500) and nothing changes. */
  function UpdateUser(users: seq<Member>, principal: Principal, targetId: string, patch: UserPatch): (r: Outcome<seq<Member>>)
    ensures FindMember(users, targetId).None? ==>
      r.reply.Failure? && r.reply.err.statusCode == Some(404) && r.store == users
    ensures FindMember(users, targetId).Some? ==>
      (StatusOf(r.reply) == 403 <==>
        principal.role != Admin && (principal.memberId != targetId || ChangesRole(patch)))
    ensures r.reply == Success(200) <==>
      && FindMember(users, targetId).Some?
      && (principal.role == Admin || (principal.memberId == targetId && !ChangesRole(patch)))
      && PatchValid(users, FindMember(users, targetId).value, patch)
    ensures r.reply == Success(200) ==>
      var i := FindMember(users, targetId).value;
      r.store == users[i := ApplyPatch(users[i], patch)]
    ensures r.reply != Success(200) ==> r.store == users
    ensures StatusOf(r.reply) in {200, 403, 404, 500}
  {
    match FindMember(users, targetId)
    case None => Outcome(Failure(CreateError(404, "User with id " + targetId + " not found")), users)
    case Some(i) =>
      if principal.role != Admin && principal.memberId != targetId then
        Outcome(Failure(CreateError(403, "Not authorized to update this user")), users)
      else if ChangesRole(patch) && principal.role != Admin then
        Outcome(Failure(CreateError(403, "Not authorized to change role")), users)
      else if !PatchValid(users, i, patch) then
        Outcome(Failure(RuntimeError("Validation failed")), users)
      else
        Outcome(Success(200), users[i := ApplyPatch(users[i], patch)])
  }

  /** A non-admin changes no one's role and no other member's record. */
  lemma NonAdminStaysInLane(users: seq<Member>, principal: Principal, targetId: string, patch: UserPatch)
    requires principal.role != Admin
    ensures var r := UpdateUser(users, principal, targetId, patch);
      && |r.store| == |users|
      && (forall j :: 0 <= j < |users| ==> r.store[j].role == users[j].role)
      && (forall j :: 0 <= j < |users| && users[j].memberId != principal.memberId ==> r.store[j] == users[j])
  {
    var r := UpdateUser(users, principal, targetId, patch);
    if r.reply == Success(200) {
      var i := FindMember(users, targetId).value;
      assert patch.role.Some? ==> patch.role.value == "";
      assert ParseRole("").None?;
      assert r.store[i].role == users[i].role;
    }
  }

  /** Nothing stops a member from rewriting their own statistics and level: an ordinary member who
      sends new statistics for themself (and no role) has them stored, coin balance included. */
  lemma SelfSetsOwnStats(users: seq<Member>, principal: Principal, patch: UserPatch)
    requires FindMember(users, principal.memberId).Some?
    requires !ChangesRole(patch) && PatchValid(users, FindMember(users, principal.memberId).value, patch)
    requires patch.stats.Some? && patch.level.Some?
    ensures var r := UpdateUser(users, principal, principal.memberId, patch);
            var i := FindMember(users, principal.memberId).value;
            && r.reply == Success(200)
            && r.store[i].stats == patch.stats.value && r.store[i].stats.totalCoins == patch.stats.value.totalCoins
            && r.store[i].level == patch.level.value
  {
  }

  /** A notification sent without its required id is refused by the validators: the update fails
      and nothing is stored. */
  lemma NotificationWithoutIdRefused(users: seq<Member>, principal: Principal, targetId: string,
                                     patch: UserPatch, n: Notification)
    requires patch.notifications == Some([n]) && n.id == ""
    ensures UpdateUser(users, principal, targetId, patch).reply.Failure?
    ensures UpdateUser(users, principal, targetId, patch).store == users
  {
    assert !NotificationValid(patch.notifications.value[0]);
  }

  /** Updates keep ids distinct, so each id still names one member. */
  lemma UpdateKeepsIds(users: seq<Member>, principal: Principal, targetId: string, patch: UserPatch)
    requires UniqueIds(users)
    ensures UniqueIds(UpdateUser(users, principal, targetId, patch).store)
  {
    var r := UpdateUser(users, principal, targetId, patch);
    if r.reply == Success(200) {
      var i := FindMember(users, targetId).value;
      ReplaceKeepsIds(users, i, ApplyPatch(users[i], patch), targetId);
    }
  }

  /** The preference fields of a request body; absent ones are `undefined`. */
  datatype PreferencePatch = PreferencePatch(
    notifications: Option<bool>,
    dailyReminderTime: Option<string>,
    language: Option<string>,
    theme: Option<string>)

  const NoPreferences := PreferencePatch(None, None, None, None)

  /** The spread merge: each defined field overrides, the others are kept. */
  function MergePreferences(p: Preferences, patch: PreferencePatch): (r: Preferences)
    ensures r.notifications == Pick(patch.notifications, p.notifications)
    ensures r.dailyReminderTime == Pick(patch.dailyReminderTime, p.dailyReminderTime)
    ensures r.language == Pick(patch.language, p.language)
    ensures r.theme == Pick(patch.theme, p.theme)
  {
    Preferences(Pick(patch.notifications, p.notifications), Pick(patch.dailyReminderTime, p.dailyReminderTime),
                Pick(patch.language, p.language), Pick(patch.theme, p.theme))
  }

  /** Two patches in a row act as one, the later winning field by field. */
  function Then(a: PreferencePatch, b: PreferencePatch): PreferencePatch {
    PreferencePatch(if b.notifications.Some? then b.notifications else a.notifications,
                    if b.dailyReminderTime.Some? then b.dailyReminderTime else a.dailyReminderTime,
                    if b.language.Some? then b.language else a.language,
                    if b.theme.Some? then b.theme else a.theme)
  }

  /** The merge is idempotent, the empty body changes nothing, a full body replaces everything, and
      successive merges compose. */
  lemma MergeLaws(p: Preferences, a: PreferencePatch, b: PreferencePatch, q: Preferences)
    ensures MergePreferences(MergePreferences(p, a), a) == MergePreferences(p, a)
    ensures MergePreferences(p, NoPreferences) == p
    ensures MergePreferences(p, PreferencePatch(Some(q.notifications), Some(q.dailyReminderTime), Some(q.language), Some(q.theme))) == q
    ensures MergePreferences(MergePreferences(p, a), b) == MergePreferences(p, Then(a, b))
  {
  }

  /** `updatePreferences` on the requesting member: 404 when they are gone, otherwise the merge is
      saved and nothing else about them or anyone else changes. */
  function UpdatePreferences(users: seq<Member>, principal: Principal, patch: PreferencePatch): (r: Outcome<seq<Member>>)
    ensures FindMember(users, principal.memberId).None? <==> r.reply.Failure?
    ensures r.reply.Failure? ==> r.reply.err.statusCode == Some(404) && r.store == users
    ensures r.reply.Success? ==>
      && r.reply.status == 200
      && var i := FindMember(users, principal.memberId).value;
      && |r.store| == |users|
      && r.store[i] == users[i].(preferences := MergePreferences(users[i].preferences, patch))
      && (forall j :: 0 <= j < |users| && j != i ==> r.store[j] == users[j])
  {
    match FindMember(users, principal.memberId)
    case None => Outcome(Failure(CreateError(404, "User not found")), users)
    case Some(i) => Outcome(Success(200), users[i := users[i].(preferences := MergePreferences(users[i].preferences, patch))])
  }

  datatype StatsReply = StatsFound(level: Level, stats: Stats) | StatsMissing(err: ErrorObj)

  /** `getUserStats`: the requesting member's level and statistics, or 404. */
  function GetUserStats(users: seq<Member>, principal: Principal): (r: StatsReply)
    ensures r.StatsMissing? <==> forall j :: 0 <= j < |users| ==> users[j].memberId != principal.memberId
    ensures r.StatsMissing? ==> r.err.statusCode == Some(404)
    ensures r.StatsFound? ==> exists j :: 0 <= j < |users| && users[j].memberId == principal.memberId
                                         && r.level == users[j].level && r.stats == users[j].stats
  {
    match FindMember(users, principal.memberId)
    case None => StatsMissing(CreateError(404, "User not found"))
    case Some(i) => StatsFound(users[i].level, users[i].stats)
  }

  /** Changing preferences leaves every member's level and statistics as they were. */
  lemma PreferencesLeaveStats(users: seq<Member>, principal: Principal, patch: PreferencePatch, reader: Principal)
    ensures GetUserStats(UpdatePreferences(users, principal, patch).store, reader) == GetUserStats(users, reader)
  {
    var r := UpdatePreferences(users, principal, patch);
    if r.reply.Success? {
      var i := FindMember(users, principal.memberId).value;
      ReplaceKeepsIds(users, i, r.store[i], reader.memberId);
    }
  }
}
