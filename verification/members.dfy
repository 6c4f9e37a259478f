/** The engagement platform's user record: role, level and experience, statistics, preferences and
    the embedded notification list, with the schema's defaults. */
module Members {
  import opened Common
  import Seqs

  datatype Role = User | TeamLead | Admin

  function RoleName(r: Role): string {
    match r
    case User => "user"
    case TeamLead => "team_lead"
    case Admin => "admin"
  }

  /** The role enum read from text; anything else fails validation. */
  function ParseRole(s: string): (r: Option<Role>)
    ensures r.Some? ==> RoleName(r.value) == s
    ensures forall role :: RoleName(role) == s ==> r == Some(role)
  {
    if s == "user" then Some(User)
    else if s == "team_lead" then Some(TeamLead)
    else if s == "admin" then Some(Admin)
    else None
  }

  datatype Xp = Xp(current: int, nextLevel: int)
  datatype Level = Level(current: int, title: string, xp: Xp)

  /** `participationRate` is the quotient `responses / surveys`; it is kept as the pair. */
  datatype Ratio = Ratio(numerator: int, denominator: int)

  datatype Stats = Stats(
    surveysCompleted: int,
    streakCurrent: int,
    streakBest: int,
    totalXp: int,
    participationRate: Ratio,
    averageResponseTime: int,
    totalCoins: int)

  datatype Preferences = Preferences(notifications: bool, dailyReminderTime: string, language: string, theme: string)

  datatype NotificationType = Survey | Achievement | Team | General

  /** An embedded notification. `docId` is the subdocument's own `_id`; `id` is the generated uuid. */
  datatype Notification = Notification(
    docId: string,
    id: string,
    title: string,
    body: string,
    kind: NotificationType,
    isRead: bool,
    createdAt: int,
    actionId: Option<string>,
    actionUrl: string)

  /** The embedded notification's validators: `id`, `title` and `body` are required strings. */
  predicate NotificationValid(n: Notification) {
    n.id != "" && n.title != "" && n.body != ""
  }

  datatype Member = Member(
    memberId: string,
    username: string,
    email: string,
    password: string,
    fullName: string,
    avatar: string,
    department: string,
    role: Role,
    level: Level,
    stats: Stats,
    preferences: Preferences,
    notifications: seq<Notification>)

  /** The statistics the schema gives a new member: every counter at zero. */
  function DefaultStats(): Stats {
    Stats(0, 0, 0, 0, Ratio(0, 1), 0, 0)
  }

  /** `User.findById`. */
  function FindMember(users: seq<Member>, memberId: string): (r: Option<nat>)
    ensures r.Some? ==> r.value < |users| && users[r.value].memberId == memberId
    ensures r.Some? ==> forall j :: 0 <= j < r.value ==> users[j].memberId != memberId
    ensures r.None? <==> forall j :: 0 <= j < |users| ==> users[j].memberId != memberId
  {
    Seqs.FirstIndex(users, (m: Member) => m.memberId == memberId)
  }

  /** Distinct `_id`s. */
  predicate UniqueIds(users: seq<Member>) {
    forall i, j :: 0 <= i < |users| && 0 <= j < |users| && i != j ==> users[i].memberId != users[j].memberId
  }

  /** With distinct ids, the member found is the only one with that id. */
  lemma FoundMemberIsOnly(users: seq<Member>, memberId: string)
    requires UniqueIds(users) && FindMember(users, memberId).Some?
    ensures forall j :: 0 <= j < |users| && users[j].memberId == memberId ==> j == FindMember(users, memberId).value
  {
  }

  /** Stores with the same ids at the same positions find every id at the same place. */
  lemma SameIdsSameFind(a: seq<Member>, b: seq<Member>, memberId: string)
    requires |a| == |b| && forall k :: 0 <= k < |a| ==> a[k].memberId == b[k].memberId
    ensures FindMember(a, memberId) == FindMember(b, memberId)
  {
    var fa := FindMember(a, memberId);
    var fb := FindMember(b, memberId);
    if fa.Some? && fb.Some? {
      assert !(fa.value < fb.value) && !(fb.value < fa.value);
    }
  }

  /** Replacing a member by one with the same id keeps the store's ids and where each id is found. */
  lemma ReplaceKeepsIds(users: seq<Member>, i: nat, m: Member, memberId: string)
    requires i < |users| && users[i].memberId == m.memberId
    ensures FindMember(users[i := m], memberId) == FindMember(users, memberId)
    ensures UniqueIds(users) ==> UniqueIds(users[i := m])
  {
    var after := users[i := m];
    assert forall j :: 0 <= j < |users| ==> after[j].memberId == users[j].memberId;
  }
}
