/** The engagement platform's badges: the earned/in-progress split, challenges and recent awards,
    completing a badge once per user, and badge maintenance. */
module Achievements {
  import opened Common
  import Seqs
  import Sorting
  import opened ErrorFlow

  datatype Badge = Badge(badgeId: string, title: string, description: string, icon: string, color: string,
                         xpReward: Option<int>, conditions: string)

  /** An award of a badge to a user. */
  datatype UserBadge = UserBadge(userId: string, badgeId: string, dateEarned: int, xpAwarded: int)

  datatype Store = Store(badges: seq<Badge>, awards: seq<UserBadge>)

  function FindBadge(badges: seq<Badge>, badgeId: string): (r: Option<nat>)
    ensures r.Some? ==> r.value < |badges| && badges[r.value].badgeId == badgeId
    ensures r.None? <==> forall j :: 0 <= j < |badges| ==> badges[j].badgeId != badgeId
  {
    Seqs.FirstIndex(badges, (b: Badge) => b.badgeId == badgeId)
  }

  predicate UniqueBadgeIds(badges: seq<Badge>) {
    forall i, j :: 0 <= i < |badges| && 0 <= j < |badges| && i != j ==> badges[i].badgeId != badges[j].badgeId
  }

  predicate KnownBadge(badges: seq<Badge>, badgeId: string) {
    FindBadge(badges, badgeId).Some?
  }

  predicate HasAward(awards: seq<UserBadge>, userId: string, badgeId: string) {
    exists k :: 0 <= k < |awards| && awards[k].userId == userId && awards[k].badgeId == badgeId
  }

  // ---------------------------------------------------------------- reading

  function OfUser(userId: string): UserBadge -> bool {
    (a: UserBadge) => a.userId == userId
  }

  function NotEarned(earned: seq<UserBadge>): Badge -> bool {
    (b: Badge) => forall k :: 0 <= k < |earned| ==> earned[k].badgeId != b.badgeId
  }

  /** Whether some award of the user names a badge that no longer exists (it populates as null). */
  predicate Dangling(badges: seq<Badge>, earned: seq<UserBadge>) {
    exists k :: 0 <= k < |earned| && !KnownBadge(badges, earned[k].badgeId)
  }

  /** Whether some award of the user names a badge that is gone. */
  predicate StrandedAward(db: Store, userId: string) {
    exists k :: 0 <= k < |db.awards| && db.awards[k].userId == userId && !KnownBadge(db.badges, db.awards[k].badgeId)
  }

  lemma DanglingMeansStranded(db: Store, userId: string)
    ensures Dangling(db.badges, Seqs.Filter(db.awards, OfUser(userId))) <==> StrandedAward(db, userId)
  {
    var earned := Seqs.Filter(db.awards, OfUser(userId));
    if Dangling(db.badges, earned) {
      var k :| 0 <= k < |earned| && !KnownBadge(db.badges, earned[k].badgeId);
      StrandedFromEarned(db, userId, earned[k]);
    }
    if StrandedAward(db, userId) {
      var k :| 0 <= k < |db.awards| && db.awards[k].userId == userId && !KnownBadge(db.badges, db.awards[k].badgeId);
      EarnedFromStranded(db, userId, k);
    }
  }

  lemma StrandedFromEarned(db: Store, userId: string, a: UserBadge)
    requires a in Seqs.Filter(db.awards, OfUser(userId)) && !KnownBadge(db.badges, a.badgeId)
    ensures StrandedAward(db, userId)
  {
    var m :| 0 <= m < |db.awards| && db.awards[m] == a;
  }

  lemma EarnedFromStranded(db: Store, userId: string, k: nat)
    requires k < |db.awards| && db.awards[k].userId == userId && !KnownBadge(db.badges, db.awards[k].badgeId)
    ensures Dangling(db.badges, Seqs.Filter(db.awards, OfUser(userId)))
  {
    var earned := Seqs.Filter(db.awards, OfUser(userId));
    assert db.awards[k] in earned;
    var m :| 0 <= m < |earned| && earned[m] == db.awards[k];
  }

  lemma NotEarnedMeansNoAward(awards: seq<UserBadge>, userId: string, b: Badge)
    ensures NotEarned(Seqs.Filter(awards, OfUser(userId)))(b) <==> !HasAward(awards, userId, b.badgeId)
  {
    var earned := Seqs.Filter(awards, OfUser(userId));
    if HasAward(awards, userId, b.badgeId) {
      var k :| 0 <= k < |awards| && awards[k].userId == userId && awards[k].badgeId == b.badgeId;
      assert awards[k] in earned;
    }
    if !NotEarned(earned)(b) {
      var k :| 0 <= k < |earned| && earned[k].badgeId == b.badgeId;
      assert earned[k] in awards;
    }
  }

  datatype BadgesReply = BadgesFound(earned: seq<UserBadge>, inProgress: seq<Badge>) | BadgesFailed(err: ErrorObj)

  /** `getUserBadges`: the user's awards, and every badge whose id none of them names. Reading the id
      of an award whose badge was deleted fails (500). */
  function GetUserBadges(db: Store, userId: string): (r: BadgesReply)
    ensures r.BadgesFailed? <==> StrandedAward(db, userId)
    ensures r.BadgesFailed? ==> StatusOf(Failure(r.err)) == 500
    ensures r.BadgesFound? ==>
      && (forall a :: a in r.earned <==> a in db.awards && a.userId == userId)
      && (forall b :: b in r.inProgress <==> b in db.badges && !HasAward(db.awards, userId, b.badgeId))
      && |r.inProgress| <= |db.badges|
  {
    var earned := Seqs.Filter(db.awards, OfUser(userId));
    DanglingMeansStranded(db, userId);
    if Dangling(db.badges, earned) then BadgesFailed(RuntimeError("Cannot read properties of null (reading '_id')"))
    else
      var inProgress := Seqs.Filter(db.badges, NotEarned(earned));
      assert forall b :: NotEarned(earned)(b) <==> !HasAward(db.awards, userId, b.badgeId) by {
        forall b ensures NotEarned(earned)(b) <==> !HasAward(db.awards, userId, b.badgeId) {
          NotEarnedMeansNoAward(db.awards, userId, b);
        }
      }
      BadgesFound(earned, inProgress)
  }

  const ListLimit := 5

  /** `getChallenges`: the first five badges in stored order. */
  function GetChallenges(badges: seq<Badge>): (r: seq<Badge>)
    ensures |r| == Min(ListLimit, |badges|)
    ensures forall i :: 0 <= i < |r| ==> r[i] == badges[i]
  {
    badges[..Min(ListLimit, |badges|)]
  }

  /** Once five badges exist, badges added later never change the challenges; before that, each new
      badge joins them at the end. */
  lemma ChallengesAfterAppend(badges: seq<Badge>, b: Badge)
    ensures GetChallenges(badges + [b]) == if |badges| < ListLimit then badges + [b] else GetChallenges(badges)
  {
    var r := GetChallenges(badges + [b]);
    if |badges| >= ListLimit {
      assert r == GetChallenges(badges);
    } else {
      assert r == badges + [b];
    }
  }

  /** `.sort({ dateEarned: -1 })`. */
  function LatestFirst(): (UserBadge, UserBadge) -> bool {
    (a: UserBadge, b: UserBadge) => a.dateEarned >= b.dateEarned
  }

  lemma LatestFirstIsPreorder()
    ensures Sorting.TotalPreorder(LatestFirst())
  {
  }

  /** `getRecentAchievements`: at most five of the user's awards, latest first, none left out being
      later than one taken. */
  function GetRecentAchievements(awards: seq<UserBadge>, userId: string): (r: seq<UserBadge>)
    ensures |r| == Min(ListLimit, |Seqs.Filter(awards, OfUser(userId))|)
    ensures forall i :: 0 <= i < |r| ==> r[i] in awards && r[i].userId == userId
    ensures multiset(r) <= multiset(awards)
    ensures Sorting.SortedBy(r, LatestFirst())
    ensures forall a, i :: a in awards && a.userId == userId && a !in r && 0 <= i < |r| ==> a.dateEarned <= r[i].dateEarned
  {
    LatestFirstIsPreorder();
    Sorting.TopBy(Seqs.Filter(awards, OfUser(userId)), LatestFirst(), ListLimit)
  }

  // ---------------------------------------------------------------- completing

  /** At most one award per user and badge. */
  predicate OneAwardEach(awards: seq<UserBadge>) {
    forall i, j :: 0 <= i < |awards| && 0 <= j < |awards| && i != j ==>
      !(awards[i].userId == awards[j].userId && awards[i].badgeId == awards[j].badgeId)
  }

  /** `markAchievementAsComplete` at `now`: unknown badge 404, already held 400, otherwise the award is
      stored with the badge's xp reward (0 when it has none); 201. */
  function MarkAchievementAsComplete(db: Store, badgeId: string, userId: string, now: int): (r: Outcome<Store>)
    ensures !KnownBadge(db.badges, badgeId) ==> r.reply.Failure? && r.reply.err.statusCode == Some(404)
    ensures KnownBadge(db.badges, badgeId) && HasAward(db.awards, userId, badgeId) ==>
      r.reply.Failure? && r.reply.err.statusCode == Some(400)
    ensures r.reply.Success? <==> KnownBadge(db.badges, badgeId) && !HasAward(db.awards, userId, badgeId)
    ensures r.reply.Failure? ==> r.store == db
    ensures r.reply.Success? ==>
      && r.reply.status == 201 && r.store.badges == db.badges
      && r.store.awards == db.awards + [UserBadge(userId, badgeId, now, db.badges[FindBadge(db.badges, badgeId).value].xpReward.GetOr(0))]
    ensures OneAwardEach(db.awards) ==> OneAwardEach(r.store.awards)
  {
    match FindBadge(db.badges, badgeId)
    case None => Outcome(Failure(CreateError(404, "Badge not found with id of " + badgeId)), db)
    case Some(i) =>
      if HasAward(db.awards, userId, badgeId) then
        Outcome(Failure(CreateError(400, "You already have this badge")), db)
      else
        Outcome(Success(201), db.(awards := db.awards + [UserBadge(userId, badgeId, now, db.badges[i].xpReward.GetOr(0))]))
  }

  /** A badge completed later than every earlier award of the user shows among their recent
      achievements. */
  lemma CompleteThenRecent(db: Store, badgeId: string, userId: string, now: int)
    requires MarkAchievementAsComplete(db, badgeId, userId, now).reply.Success?
    requires forall j :: 0 <= j < |db.awards| && db.awards[j].userId == userId ==> db.awards[j].dateEarned < now
    ensures var after := MarkAchievementAsComplete(db, badgeId, userId, now).store;
            after.awards[|db.awards|] in GetRecentAchievements(after.awards, userId)
  {
    var after := MarkAchievementAsComplete(db, badgeId, userId, now).store;
    LatestIsRecent(db.awards, after.awards[|db.awards|], userId);
    assert after.awards == db.awards + [after.awards[|db.awards|]];
  }

  /** An award later than every other of its user's is among their recent achievements. */
  lemma LatestIsRecent(earlier: seq<UserBadge>, earned: UserBadge, userId: string)
    requires earned.userId == userId
    requires forall j :: 0 <= j < |earlier| && earlier[j].userId == userId ==> earlier[j].dateEarned < earned.dateEarned
    ensures earned in GetRecentAchievements(earlier + [earned], userId)
  {
    var awards := earlier + [earned];
    var recent := GetRecentAchievements(awards, userId);
    assert earned in Seqs.Filter(awards, OfUser(userId));
    assert |recent| > 0;
    var first := recent[0];
    assert first != earned ==> first.dateEarned < earned.dateEarned by {
      var k :| 0 <= k < |awards| && awards[k] == first;
      if k < |earlier| {
        assert earlier[k] == first;
      }
    }
  }

  /** Completing a badge takes it out of the user's in-progress list and refuses a second completion. */
  lemma {:induction false} CompleteThenEarned(db: Store, badgeId: string, userId: string, now: int, later: int)
    requires MarkAchievementAsComplete(db, badgeId, userId, now).reply.Success?
    ensures var after := MarkAchievementAsComplete(db, badgeId, userId, now).store;
      && (GetUserBadges(after, userId).BadgesFound? ==>
            forall b :: b in GetUserBadges(after, userId).inProgress ==> b.badgeId != badgeId)
      && StatusOf(MarkAchievementAsComplete(after, badgeId, userId, later).reply) == 400
  {
    var after := MarkAchievementAsComplete(db, badgeId, userId, now).store;
    var k := |db.awards|;
    assert after.awards[k].userId == userId && after.awards[k].badgeId == badgeId;
    assert HasAward(after.awards, userId, badgeId);
  }

  // ---------------------------------------------------------------- maintenance

  /** The badge fields an update may carry: the whole body is applied, `conditions` (kept as its
      serialised text) included. */
  datatype BadgePatch = BadgePatch(title: Option<string>, description: Option<string>, icon: Option<string>,
                                   color: Option<string>, xpReward: Option<int>, conditions: Option<string>)

  predicate BadgePatchValid(patch: BadgePatch) {
    patch.title != Some("") && patch.description != Some("") && patch.icon != Some("") && patch.color != Some("")
  }

  function PatchBadge(b: Badge, patch: BadgePatch): (r: Badge)
    ensures r.badgeId == b.badgeId && r.conditions == patch.conditions.GetOr(b.conditions)
    ensures r.title == patch.title.GetOr(b.title) && r.description == patch.description.GetOr(b.description)
    ensures r.icon == patch.icon.GetOr(b.icon) && r.color == patch.color.GetOr(b.color)
    ensures r.xpReward == if patch.xpReward.Some? then patch.xpReward else b.xpReward
  {
    b.(title := patch.title.GetOr(b.title), description := patch.description.GetOr(b.description),
       icon := patch.icon.GetOr(b.icon), color := patch.color.GetOr(b.color),
       xpReward := if patch.xpReward.Some? then patch.xpReward else b.xpReward,
       conditions := patch.conditions.GetOr(b.conditions))
  }

  /** The empty patch changes nothing, and a patch applied twice changes no more than once. */
  lemma PatchBadgeLaws(b: Badge, patch: BadgePatch)
    ensures PatchBadge(b, BadgePatch(None, None, None, None, None, None)) == b
    ensures PatchBadge(PatchBadge(b, patch), patch) == PatchBadge(b, patch)
  {
  }

  /** `updateBadge`: the validators run first (a required field emptied is a store error, 500); an
      unknown badge is 404; otherwise the badge takes the patch; 200. */
  function UpdateBadge(badges: seq<Badge>, badgeId: string, patch: BadgePatch): (r: Outcome<seq<Badge>>)
    ensures r.reply.Success? <==> BadgePatchValid(patch) && KnownBadge(badges, badgeId)
    ensures BadgePatchValid(patch) && !KnownBadge(badges, badgeId) ==> StatusOf(r.reply) == 404 && r.store == badges
    ensures r.reply.Failure? ==> r.store == badges
    ensures r.reply.Success? ==>
      var i := FindBadge(badges, badgeId).value;
      r.reply.status == 200 && r.store == badges[i := PatchBadge(badges[i], patch)]
  {
    if !BadgePatchValid(patch) then Outcome(Failure(RuntimeError("Validation failed")), badges)
    else
      match FindBadge(badges, badgeId)
      case None => Outcome(Failure(CreateError(404, "Badge not found with id of " + badgeId)), badges)
      case Some(i) => Outcome(Success(200), badges[i := PatchBadge(badges[i], patch)])
  }

  /** After an update the badge is found where it was, carrying the patched fields, and sending the
      same update again changes nothing more. */
  lemma UpdateBadgeReadBack(badges: seq<Badge>, badgeId: string, patch: BadgePatch)
    requires UpdateBadge(badges, badgeId, patch).reply.Success?
    ensures var after := UpdateBadge(badges, badgeId, patch).store;
            var i := FindBadge(badges, badgeId).value;
            && FindBadge(after, badgeId) == Some(i)
            && after[i] == PatchBadge(badges[i], patch)
            && UpdateBadge(after, badgeId, patch) == UpdateBadge(badges, badgeId, patch)
  {
    var i := FindBadge(badges, badgeId).value;
    var after := UpdateBadge(badges, badgeId, patch).store;
    assert forall j :: 0 <= j < |after| ==> after[j].badgeId == badges[j].badgeId;
    assert FindBadge(after, badgeId) == Some(i);
    PatchBadgeLaws(badges[i], patch);
    assert after[i := PatchBadge(after[i], patch)] == after;
  }

  /** `deleteBadge`: an unknown badge is 404; otherwise the badge is removed, its awards stay. */
  function DeleteBadge(db: Store, badgeId: string): (r: Outcome<Store>)
    ensures r.reply.Success? <==> KnownBadge(db.badges, badgeId)
    ensures r.reply.Failure? ==> r.reply.err.statusCode == Some(404) && r.store == db
    ensures r.reply.Success? ==>
      && r.reply.status == 200 && r.store.awards == db.awards && |r.store.badges| == |db.badges| - 1
      && (forall b :: b in r.store.badges ==> b in db.badges)
      && (UniqueBadgeIds(db.badges) ==> !KnownBadge(r.store.badges, badgeId))
      && (forall b :: b in db.badges && b.badgeId != badgeId ==> b in r.store.badges)
  {
    match FindBadge(db.badges, badgeId)
    case None => Outcome(Failure(CreateError(404, "Badge not found with id of " + badgeId)), db)
    case Some(i) =>
      var rest := Seqs.RemoveAt(db.badges, i);
      assert forall b :: b in db.badges && b.badgeId != badgeId ==> b in rest by {
        forall b | b in db.badges && b.badgeId != badgeId ensures b in rest {
          var j :| 0 <= j < |db.badges| && db.badges[j] == b;
          assert j != i;
        }
      }
      Outcome(Success(200), db.(badges := rest))
  }

  /** Deleting a badge someone has earned breaks that user's badge listing: it now fails with 500. */
  lemma DeleteStrandsAwards(db: Store, badgeId: string, userId: string)
    requires UniqueBadgeIds(db.badges) && HasAward(db.awards, userId, badgeId)
    requires DeleteBadge(db, badgeId).reply.Success?
    ensures GetUserBadges(DeleteBadge(db, badgeId).store, userId).BadgesFailed?
  {
  }
}
