/** The engagement platform's surveys: creation with its guards and defaults, the listing and the
    daily list, submitting a response (rewards, streak, level), and saved progress. Calendar days are
    given as intervals of milliseconds. */
module Surveys {
  import opened Common
  import Seqs
  import Sorting
  import opened ErrorFlow
  import opened Members

  datatype QuestionType = Rating | MultipleChoice | SingleChoice | FreeText | YesNo

  /** The question type enum read from text. */
  function ParseQuestionType(s: string): (r: Option<QuestionType>)
    ensures r.Some? <==> s in ["rating", "multiple_choice", "single_choice", "text", "yes_no"]
  {
    if s == "rating" then Some(Rating)
    else if s == "multiple_choice" then Some(MultipleChoice)
    else if s == "single_choice" then Some(SingleChoice)
    else if s == "text" then Some(FreeText)
    else if s == "yes_no" then Some(YesNo)
    else None
  }

  /** A question as sent; `options` defaults to none and `optional` to false. */
  datatype QuestionInput = QuestionInput(id: string, text: string, kind: string, options: Option<seq<string>>, optional: Option<bool>)

  datatype Question = Question(id: string, text: string, kind: QuestionType, options: seq<string>, optional: bool)

  datatype Reward = Reward(xp: int, coins: int)

  datatype Survey = Survey(
    surveyId: string,
    title: string,
    description: string,
    questions: seq<Question>,
    estimatedTime: string,
    reward: Reward,
    createdAt: int,
    expiresAt: int,
    tags: seq<string>,
    targetDepartments: seq<string>,
    archived: bool)

  datatype Answer = Answer(questionId: string, answer: string)

  datatype SurveyResponse = SurveyResponse(surveyId: string, userId: string, completedAt: int, answers: seq<Answer>)

  /** Saved progress; `completed` is absent once a request unsets it. */
  datatype UserProgress = UserProgress(
    userId: string,
    surveyId: string,
    completed: Option<int>,
    totalQuestions: int,
    lastUpdated: int,
    answers: seq<Answer>)

  datatype Store = Store(surveys: seq<Survey>, responses: seq<SurveyResponse>, progress: seq<UserProgress>, users: seq<Member>)

  // ---------------------------------------------------------------- creation

  /** A reward as sent: both numbers are required by the schema. */
  datatype RewardInput = RewardInput(xp: Option<int>, coins: Option<int>)

  /** The body of a create request. Empty text and absent values are the falsy ones. */
  datatype SurveyInput = SurveyInput(
    title: string,
    description: string,
    questions: Option<seq<QuestionInput>>,
    estimatedTime: string,
    reward: Option<RewardInput>,
    expiresAt: Option<int>,
    tags: Option<seq<string>>,
    targetDepartments: Option<seq<string>>)

  predicate QuestionValid(q: QuestionInput) {
    q.id != "" && q.text != "" && ParseQuestionType(q.kind).Some?
  }

  function ToQuestion(q: QuestionInput): (r: Question)
    requires QuestionValid(q)
    ensures r.id == q.id && r.text == q.text && r.kind == ParseQuestionType(q.kind).value
    ensures r.options == q.options.GetOr([]) && r.optional == q.optional.GetOr(false)
  {
    Question(q.id, q.text, ParseQuestionType(q.kind).value, q.options.GetOr([]), q.optional.GetOr(false))
  }

  function ToQuestions(qs: seq<QuestionInput>): (r: seq<Question>)
    requires forall i :: 0 <= i < |qs| ==> QuestionValid(qs[i])
    ensures |r| == |qs| && forall i :: 0 <= i < |qs| ==> r[i] == ToQuestion(qs[i])
  {
    if |qs| == 0 then [] else [ToQuestion(qs[0])] + ToQuestions(qs[1..])
  }

  /** The controller's own guards: every required field truthy and at least one question. */
  predicate HasRequiredFields(input: SurveyInput) {
    input.title != "" && input.description != "" && input.questions.Some? && input.estimatedTime != ""
    && input.reward.Some? && input.expiresAt.Some?
  }

  /** What the schema still rejects once the guards pass: a reward number missing or a question
      without id, text or a known type. */
  predicate SchemaValid(input: SurveyInput)
    requires HasRequiredFields(input)
  {
    && input.reward.value.xp.Some? && input.reward.value.coins.Some?
    && forall i :: 0 <= i < |input.questions.value| ==> QuestionValid(input.questions.value[i])
  }

  /** `createSurvey`: 400 for a missing field or no questions, 500 when the schema rejects the
      document, otherwise 201 and the survey is stored with no tags and all departments by default,
      not archived, created now. */
  function CreateSurvey(surveys: seq<Survey>, input: SurveyInput, newId: string, now: int): (r: Outcome<seq<Survey>>)
    ensures !HasRequiredFields(input) ==> r.reply.Failure? && r.reply.err.statusCode == Some(400)
    ensures HasRequiredFields(input) && |input.questions.value| == 0 ==>
      r.reply.Failure? && r.reply.err.statusCode == Some(400)
    ensures r.reply == Success(201) <==>
      HasRequiredFields(input) && |input.questions.value| > 0 && SchemaValid(input)
    ensures r.reply != Success(201) ==> r.store == surveys
    ensures r.reply == Success(201) ==>
      && |r.store| == |surveys| + 1 && r.store[..|surveys|] == surveys
      && var s := r.store[|surveys|];
      && s.surveyId == newId && s.title == input.title && s.description == input.description
      && |s.questions| == |input.questions.value|
      && s.questions == ToQuestions(input.questions.value) && s.estimatedTime == input.estimatedTime
      && s.reward == Reward(input.reward.value.xp.value, input.reward.value.coins.value)
      && s.expiresAt == input.expiresAt.value && s.createdAt == now && !s.archived
      && s.tags == input.tags.GetOr([]) && s.targetDepartments == input.targetDepartments.GetOr(["all"])
  {
    if !HasRequiredFields(input) then
      Outcome(Failure(CreateError(400, "Please provide all required fields")), surveys)
    else if |input.questions.value| == 0 then
      Outcome(Failure(CreateError(400, "Please provide at least one question")), surveys)
    else if !SchemaValid(input) then
      Outcome(Failure(RuntimeError("Survey validation failed")), surveys)
    else
      var s := Survey.Survey(newId, input.title, input.description, ToQuestions(input.questions.value),
                      input.estimatedTime, Reward(input.reward.value.xp.value, input.reward.value.coins.value),
                      now, input.expiresAt.value, input.tags.GetOr([]), input.targetDepartments.GetOr(["all"]), false);
      Outcome(Success(201), surveys + [s])
  }

  // ---------------------------------------------------------------- listing

  function Open(now: int): Survey -> bool {
    (s: Survey) => !s.archived && s.expiresAt > now
  }

  function ForDepartment(department: string): Survey -> bool {
    (s: Survey) => "all" in s.targetDepartments || department in s.targetDepartments
  }

  /** `.sort({ createdAt: -1 })`. */
  function NewestFirst(): (Survey, Survey) -> bool {
    (a: Survey, b: Survey) => a.createdAt >= b.createdAt
  }

  lemma NewestFirstIsPreorder()
    ensures Sorting.TotalPreorder(NewestFirst())
  {
  }

  /** Whether a survey is offered to a department filter; no filter (or an empty one) offers all. */
  predicate Offered(s: Survey, department: Option<string>) {
    department.None? || department.value == "" || "all" in s.targetDepartments || department.value in s.targetDepartments
  }

  /** `getSurveys`: the surveys that are not archived and expire after now, newest first, narrowed to
      those for all departments or the requested one. */
  function GetSurveys(surveys: seq<Survey>, now: int, department: Option<string>): (r: seq<Survey>)
    ensures forall s :: s in r <==> s in surveys && !s.archived && s.expiresAt > now && Offered(s, department)
    ensures Sorting.SortedBy(r, NewestFirst())
    ensures |r| <= |surveys|
  {
    var open := Seqs.Filter(surveys, Open(now));
    NewestFirstIsPreorder();
    var sorted := Sorting.SortBy(open, NewestFirst());
    Sorting.SameElements(sorted, open);
    if department.None? || department.value == "" then sorted
    else
      Sorting.FilterKeepsSorted(sorted, NewestFirst(), ForDepartment(department.value));
      Seqs.Filter(sorted, ForDepartment(department.value))
  }

  /** A survey just created for everyone, expiring later, is listed for every department. */
  lemma CreatedSurveyListed(surveys: seq<Survey>, input: SurveyInput, newId: string, now: int, later: int,
                            department: Option<string>)
    requires CreateSurvey(surveys, input, newId, now).reply == Success(201)
    requires input.targetDepartments.None? && input.expiresAt.value > later
    ensures var after := CreateSurvey(surveys, input, newId, now).store;
            after[|surveys|] in GetSurveys(after, later, department)
  {
  }

  /** Whether `t` falls in the day `[dayStart, dayEnd)`. */
  predicate InDay(t: int, dayStart: int, dayEnd: int) {
    dayStart <= t < dayEnd
  }

  /** Whether the user has a response to the survey completed in the day. */
  predicate CompletedIn(responses: seq<SurveyResponse>, userId: string, surveyId: string, dayStart: int, dayEnd: int) {
    exists k :: 0 <= k < |responses| && responses[k].userId == userId && responses[k].surveyId == surveyId
                && InDay(responses[k].completedAt, dayStart, dayEnd)
  }

  function Daily(responses: seq<SurveyResponse>, userId: string, dayStart: int, dayEnd: int): Survey -> bool {
    (s: Survey) => !s.archived && "dagelijks" in s.tags && InDay(s.expiresAt, dayStart, dayEnd)
                   && !CompletedIn(responses, userId, s.surveyId, dayStart, dayEnd)
  }

  /** `getDailySurveys`: the non-archived surveys tagged "dagelijks" that expire today, minus those
      the user completed a response to today, in stored order. */
  function GetDailySurveys(surveys: seq<Survey>, responses: seq<SurveyResponse>, userId: string,
                           today: int, tomorrow: int): (r: seq<Survey>)
    ensures forall s :: s in r <==>
      && s in surveys && !s.archived && "dagelijks" in s.tags && InDay(s.expiresAt, today, tomorrow)
      && !CompletedIn(responses, userId, s.surveyId, today, tomorrow)
    ensures |r| <= |surveys|
  {
    Seqs.Filter(surveys, Daily(responses, userId, today, tomorrow))
  }

  // ---------------------------------------------------------------- submission

  function FindSurvey(surveys: seq<Survey>, surveyId: string): (r: Option<nat>)
    ensures r.Some? ==> r.value < |surveys| && surveys[r.value].surveyId == surveyId
    ensures r.None? <==> forall j :: 0 <= j < |surveys| ==> surveys[j].surveyId != surveyId
  {
    Seqs.FirstIndex(surveys, (s: Survey) => s.surveyId == surveyId)
  }

  predicate Responded(responses: seq<SurveyResponse>, userId: string, surveyId: string) {
    exists k :: 0 <= k < |responses| && responses[k].userId == userId && responses[k].surveyId == surveyId
  }

  predicate AnsweredBetween(responses: seq<SurveyResponse>, userId: string, from: int, until: int) {
    exists k :: 0 <= k < |responses| && responses[k].userId == userId && InDay(responses[k].completedAt, from, until)
  }

  function CountFor(responses: seq<SurveyResponse>, userId: string): (n: nat)
    ensures n <= |responses|
    ensures n > 0 <==> exists k :: 0 <= k < |responses| && responses[k].userId == userId
  {
    if |responses| == 0 then 0
    else (if responses[0].userId == userId then 1 else 0) + CountFor(responses[1..], userId)
  }

  lemma {:induction false} CountForAppend(responses: seq<SurveyResponse>, x: SurveyResponse, userId: string)
    ensures CountFor(responses + [x], userId) == CountFor(responses, userId) + (if x.userId == userId then 1 else 0)
  {
    if |responses| > 0 {
      assert (responses + [x])[1..] == responses[1..] + [x];
      CountForAppend(responses[1..], x, userId);
    }
  }

  /** `Math.floor(n * 1.5)`; Dafny's division by a positive divisor rounds down. */
  function NextThreshold(n: int): (r: int)
    ensures 2 * r <= 3 * n < 2 * r + 2
  {
    (3 * n) / 2
  }

  /** The level after adding `xp` experience when the reward's xp is non-zero: at most one level is
      gained, however far the total passes the threshold. */
  function GainXp(level: Level, xp: int): (r: Level)
    ensures r.title == level.title
    ensures r.current == level.current || r.current == level.current + 1
    ensures r.current == level.current + 1 <==> level.xp.current + xp >= level.xp.nextLevel
    ensures r.current == level.current ==> r.xp == Xp(level.xp.current + xp, level.xp.nextLevel)
    ensures r.current == level.current + 1 ==>
      r.xp.current == level.xp.current + xp - level.xp.nextLevel && 2 * r.xp.nextLevel <= 3 * level.xp.nextLevel
  {
    var total := level.xp.current + xp;
    if total >= level.xp.nextLevel then
      Level(level.current + 1, level.title, Xp(total - level.xp.nextLevel, NextThreshold(level.xp.nextLevel)))
    else Level(level.current, level.title, Xp(total, level.xp.nextLevel))
  }

  /** The streak step: one more after a response yesterday (raising the best if passed), else back to
      one with the best left as it was. */
  function StepStreak(stats: Stats, answeredYesterday: bool): (r: Stats)
    ensures answeredYesterday ==> r.streakCurrent == stats.streakCurrent + 1
    ensures answeredYesterday ==> r.streakBest == if stats.streakCurrent + 1 > stats.streakBest then stats.streakCurrent + 1 else stats.streakBest
    ensures !answeredYesterday ==> r.streakCurrent == 1 && r.streakBest == stats.streakBest
    ensures r.(streakCurrent := stats.streakCurrent, streakBest := stats.streakBest) == stats
  {
    if answeredYesterday then
      var current := stats.streakCurrent + 1;
      stats.(streakCurrent := current, streakBest := if current > stats.streakBest then current else stats.streakBest)
    else stats.(streakCurrent := 1)
  }

  /** The member after a response: one more survey, the reward's xp and coins each added once
      unconditionally and once more when non-zero, the streak stepped, the participation ratio set,
      and the level raised by the xp when non-zero. */
  function Credit(m: Member, reward: Reward, answeredYesterday: bool, participation: Ratio): (r: Member)
    ensures r.memberId == m.memberId && r.role == m.role && r.notifications == m.notifications
    ensures r.stats.surveysCompleted == m.stats.surveysCompleted + 1
    ensures r.stats.totalXp == m.stats.totalXp + 2 * reward.xp
    ensures r.stats.totalCoins == m.stats.totalCoins + 2 * reward.coins
    ensures r.stats.participationRate == participation
    ensures r.level == if reward.xp != 0 then GainXp(m.level, reward.xp) else m.level
    ensures r.stats.streakCurrent == StepStreak(m.stats, answeredYesterday).streakCurrent
    ensures r.stats.streakBest == StepStreak(m.stats, answeredYesterday).streakBest
    ensures r.stats.averageResponseTime == m.stats.averageResponseTime
    ensures r.(stats := m.stats, level := m.level) == m
  {
    var s0 := m.stats.(surveysCompleted := m.stats.surveysCompleted + 1,
                       totalXp := m.stats.totalXp + reward.xp,
                       totalCoins := m.stats.totalCoins + reward.coins);
    var s1 := StepStreak(s0, answeredYesterday).(participationRate := participation);
    var s2 := if reward.xp != 0 then s1.(totalXp := s1.totalXp + reward.xp) else s1;
    var s3 := if reward.coins != 0 then s2.(totalCoins := s2.totalCoins + reward.coins) else s2;
    m.(stats := s3, level := if reward.xp != 0 then GainXp(m.level, reward.xp) else m.level)
  }

  /** `submitSurveyResponse` at `now`, with yesterday as `[yesterdayStart, todayStart)`. Unknown
      survey 404; expired (strictly before now) or already answered by the user 400; otherwise the
      response is stored and, when the user record exists, credited; the answer is 201 either way. */
  function SubmitSurveyResponse(db: Store, surveyId: string, userId: string, answers: seq<Answer>,
                                now: int, yesterdayStart: int, todayStart: int): (r: Outcome<Store>)
    ensures FindSurvey(db.surveys, surveyId).None? ==> r.reply.Failure? && r.reply.err.statusCode == Some(404)
    ensures FindSurvey(db.surveys, surveyId).Some? ==>
      (StatusOf(r.reply) == 400 <==>
        db.surveys[FindSurvey(db.surveys, surveyId).value].expiresAt < now || Responded(db.responses, userId, surveyId))
    ensures r.reply == Success(201) <==>
      && FindSurvey(db.surveys, surveyId).Some?
      && db.surveys[FindSurvey(db.surveys, surveyId).value].expiresAt >= now
      && !Responded(db.responses, userId, surveyId)
    ensures r.reply.Failure? ==> r.store == db
    ensures r.reply.Success? ==>
      && r.reply.status == 201
      && r.store.surveys == db.surveys && r.store.progress == db.progress
      && r.store.responses == db.responses + [SurveyResponse(surveyId, userId, now, answers)]
      && |r.store.users| == |db.users|
      && (FindMember(db.users, userId).None? ==> r.store.users == db.users)
    ensures r.reply.Success? && FindMember(db.users, userId).Some? ==>
      var i := FindMember(db.users, userId).value;
      var survey := db.surveys[FindSurvey(db.surveys, surveyId).value];
      && r.store.users[i] == Credit(db.users[i], survey.reward,
                                    AnsweredBetween(r.store.responses, userId, yesterdayStart, todayStart),
                                    Ratio(CountFor(r.store.responses, userId), |db.surveys|))
      && forall j :: 0 <= j < |db.users| && j != i ==> r.store.users[j] == db.users[j]
  {
    match FindSurvey(db.surveys, surveyId)
    case None => Outcome(Failure(CreateError(404, "Survey with id " + surveyId + " not found")), db)
    case Some(si) =>
      var survey := db.surveys[si];
      if survey.expiresAt < now then Outcome(Failure(CreateError(400, "Survey has expired")), db)
      else if Responded(db.responses, userId, surveyId) then
        Outcome(Failure(CreateError(400, "You have already completed this survey")), db)
      else
        var responses := db.responses + [SurveyResponse(surveyId, userId, now, answers)];
        var users :=
          match FindMember(db.users, userId)
          case None => db.users
          case Some(i) =>
            db.users[i := Credit(db.users[i], survey.reward,
                                 AnsweredBetween(responses, userId, yesterdayStart, todayStart),
                                 Ratio(CountFor(responses, userId), |db.surveys|))];
        Outcome(Success(201), db.(responses := responses, users := users))
  }

  /** A second submission of the same survey by the same user is refused with 400. */
  lemma {:induction false} SubmitThenDuplicate(db: Store, surveyId: string, userId: string, a: seq<Answer>, b: seq<Answer>,
                                               now: int, later: int, ys: int, ts: int)
    requires SubmitSurveyResponse(db, surveyId, userId, a, now, ys, ts).reply.Success?
    ensures var after := SubmitSurveyResponse(db, surveyId, userId, a, now, ys, ts).store;
            StatusOf(SubmitSurveyResponse(after, surveyId, userId, b, later, ys, ts).reply) == 400
  {
    var after := SubmitSurveyResponse(db, surveyId, userId, a, now, ys, ts).store;
    assert after.responses[|db.responses|].userId == userId && after.responses[|db.responses|].surveyId == surveyId;
    assert Responded(after.responses, userId, surveyId);
  }

  /** Answering a daily survey today takes it off the user's daily list. */
  lemma {:induction false} SubmitHidesDaily(db: Store, surveyId: string, userId: string, a: seq<Answer>,
                                            now: int, ys: int, today: int, tomorrow: int)
    requires SubmitSurveyResponse(db, surveyId, userId, a, now, ys, today).reply.Success?
    requires InDay(now, today, tomorrow)
    ensures var after := SubmitSurveyResponse(db, surveyId, userId, a, now, ys, today).store;
            forall s :: s in GetDailySurveys(after.surveys, after.responses, userId, today, tomorrow) ==> s.surveyId != surveyId
  {
    var after := SubmitSurveyResponse(db, surveyId, userId, a, now, ys, today).store;
    var k := |db.responses|;
    assert after.responses[k] == SurveyResponse(surveyId, userId, now, a);
    assert CompletedIn(after.responses, userId, surveyId, today, tomorrow);
  }

  /** Rewards are counted twice: a survey worth 50 xp and 10 coins adds 100 and 20 to the totals,
      while the level's experience grows by 50. */
  lemma DoubleAward(m: Member, yesterday: bool, participation: Ratio)
    requires m.level.xp == Xp(0, 300)
    ensures var r := Credit(m, Reward(50, 10), yesterday, participation);
      && r.stats.totalXp == m.stats.totalXp + 100
      && r.stats.totalCoins == m.stats.totalCoins + 20
      && r.level.xp.current == 50
  {
  }

  /** One submission raises the level at most once: a reward of 1000 xp at the first threshold of
      300 gives level 2 with 700 experience against a new threshold of 450, already past it. */
  lemma SingleLevelUp(level: Level)
    requires level.xp == Xp(0, 300)
    ensures var r := GainXp(level, 1000);
      r.current == level.current + 1 && r.xp == Xp(700, 450) && r.xp.current >= r.xp.nextLevel
  {
  }

  /** The best streak can trail the current one: after a reset the best is left alone, so a first
      response gives current 1 with best 0. The weaker bound `best >= current` apart from that case
      is kept by every step. */
  lemma StreakBestLag(stats: Stats, yesterday: bool)
    requires stats.streakBest >= 0
    requires stats.streakBest >= stats.streakCurrent || (stats.streakCurrent == 1 && stats.streakBest == 0)
    ensures var r := StepStreak(stats, yesterday);
      r.streakBest >= r.streakCurrent || (r.streakCurrent == 1 && r.streakBest == 0)
    ensures StepStreak(DefaultStats(), false).streakCurrent == 1 && StepStreak(DefaultStats(), false).streakBest == 0
  {
  }

  /** The participation ratio counts the user's responses including the new one. */
  lemma ParticipationCountsNewResponse(db: Store, surveyId: string, userId: string, a: seq<Answer>, now: int, ys: int, ts: int)
    requires SubmitSurveyResponse(db, surveyId, userId, a, now, ys, ts).reply.Success?
    requires FindMember(db.users, userId).Some?
    ensures var r := SubmitSurveyResponse(db, surveyId, userId, a, now, ys, ts).store;
            r.users[FindMember(db.users, userId).value].stats.participationRate
              == Ratio(CountFor(db.responses, userId) + 1, |db.surveys|)
  {
    CountForAppend(db.responses, SurveyResponse(surveyId, userId, now, a), userId);
  }

  // ---------------------------------------------------------------- progress

  function FindProgress(progress: seq<UserProgress>, userId: string, surveyId: string): (r: Option<nat>)
    ensures r.Some? ==> r.value < |progress| && progress[r.value].userId == userId && progress[r.value].surveyId == surveyId
    ensures r.Some? ==> forall j :: 0 <= j < r.value ==> !(progress[j].userId == userId && progress[j].surveyId == surveyId)
    ensures r.None? <==> forall j :: 0 <= j < |progress| ==> !(progress[j].userId == userId && progress[j].surveyId == surveyId)
  {
    Seqs.FirstIndex(progress, (u: UserProgress) => u.userId == userId && u.surveyId == surveyId)
  }

  /** At most one progress record per user and survey. */
  predicate OnePerPair(progress: seq<UserProgress>) {
    forall i, j :: 0 <= i < |progress| && 0 <= j < |progress| && i != j ==>
      !(progress[i].userId == progress[j].userId && progress[i].surveyId == progress[j].surveyId)
  }

  /** `updateSurveyProgress`: 404 for an unknown survey; otherwise the user's record for the survey
      takes the answers, the completed count (unset when absent) and the time, or is created with the
      count defaulting to zero and the survey's question count as its total. */
  function UpdateSurveyProgress(db: Store, surveyId: string, userId: string, answers: seq<Answer>,
                                completed: Option<int>, now: int): (r: Outcome<Store>)
    ensures FindSurvey(db.surveys, surveyId).None? <==> r.reply.Failure?
    ensures r.reply.Failure? ==> r.reply.err.statusCode == Some(404) && r.store == db
    ensures r.reply.Success? ==>
      && r.reply.status == 200
      && r.store.surveys == db.surveys && r.store.responses == db.responses && r.store.users == db.users
      && var k := FindProgress(r.store.progress, userId, surveyId);
      && k.Some?
      && r.store.progress[k.value].answers == answers && r.store.progress[k.value].lastUpdated == now
      && (FindProgress(db.progress, userId, surveyId).Some? ==>
            |r.store.progress| == |db.progress| && r.store.progress[k.value].completed == completed
            && r.store.progress[k.value].totalQuestions == db.progress[k.value].totalQuestions
            && forall j :: 0 <= j < |db.progress| && j != k.value ==> r.store.progress[j] == db.progress[j])
      && (FindProgress(db.progress, userId, surveyId).None? ==>
            r.store.progress == db.progress + [UserProgress(userId, surveyId, Some(completed.GetOr(0)),
                                         |db.surveys[FindSurvey(db.surveys, surveyId).value].questions|, now, answers)])
    ensures OnePerPair(db.progress) ==> OnePerPair(r.store.progress)
  {
    match FindSurvey(db.surveys, surveyId)
    case None => Outcome(Failure(CreateError(404, "Survey with id " + surveyId + " not found")), db)
    case Some(si) =>
      match FindProgress(db.progress, userId, surveyId)
      case Some(k) =>
        var p := db.progress[k].(answers := answers, completed := completed, lastUpdated := now);
        var progress := db.progress[k := p];
        assert FindProgress(progress, userId, surveyId) == Some(k) by {
          assert forall j :: 0 <= j < |progress| && j != k ==> progress[j] == db.progress[j];
          assert progress[k].userId == userId && progress[k].surveyId == surveyId;
          var v := FindProgress(progress, userId, surveyId);
          assert v.Some?;
          assert !(v.value < k) && !(v.value > k);
        }
        Outcome(Success(200), db.(progress := progress))
      case None =>
        var p := UserProgress(userId, surveyId, Some(completed.GetOr(0)), |db.surveys[si].questions|, now, answers);
        var progress := db.progress + [p];
        assert FindProgress(progress, userId, surveyId) == Some(|db.progress|) by {
          assert forall j :: 0 <= j < |db.progress| ==> progress[j] == db.progress[j];
          assert progress[|db.progress|].userId == userId && progress[|db.progress|].surveyId == surveyId;
          var v := FindProgress(progress, userId, surveyId);
          assert v.Some?;
          assert !(v.value < |db.progress|);
        }
        Outcome(Success(200), db.(progress := progress))
  }

  /** Saving the same progress twice at the same time leaves what the first save left. */
  lemma ProgressSaveIdempotent(db: Store, surveyId: string, userId: string, answers: seq<Answer>, completed: Option<int>, now: int)
    requires OnePerPair(db.progress)
    requires FindProgress(db.progress, userId, surveyId).Some?
    ensures var once := UpdateSurveyProgress(db, surveyId, userId, answers, completed, now).store;
            UpdateSurveyProgress(once, surveyId, userId, answers, completed, now).store == once
  {
  }
}
