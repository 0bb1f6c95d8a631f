/**
 main_seeding: the nine stages run in a fixed order, each on the pools the
 earlier stages returned, each committing before the next begins. The first
 stage that fails ends the run: its own rows are rolled back, and what the
 earlier stages committed stays in the database.

 The run is a fold over the list of stages. Step `k` runs stage `Order[k]` on
 the progress so far: the store, the next unread oracle position, and the rows
 earlier stages handed back.
 */
module Pipeline {
  import opened Tables
  import opened Schema
  import opened Fake
  import opened Grid
  import opened Draws
  import opened Seeding

  /** The sizes main_seeding asks for: num_users, num_courses, num_quizzes and
      num_tags, and num_questions per quiz. */
  datatype Config = Config(users: nat, courses: nat, quizzes: nat, tags: nat, questionsPerQuiz: nat)

  /** main_seeding passes no sizes, so every stage runs with its default argument. */
  const Defaults: Config := Config(10, 5, 5, 5, 5)

  datatype Stage = Users | Courses | Quizzes | Tags | QuizTags | Questions | Options | Results | Responses

  /** The order in which main_seeding calls the stages. */
  const Order: seq<Stage> := [Users, Courses, Quizzes, Tags, QuizTags, Questions, Options, Results, Responses]

  /** Where each stage sits in the run. */
  lemma OrderLayout()
    ensures |Order| == 9
    ensures Order[0] == Users && Order[1] == Courses && Order[2] == Quizzes && Order[3] == Tags
    ensures Order[4] == QuizTags && Order[5] == Questions && Order[6] == Options
    ensures Order[7] == Results && Order[8] == Responses
  {
  }

  /** The rows main_seeding keeps in local variables to pass to later stages. */
  datatype Pools = Pools(
    users: seq<User>, courses: seq<Course>, quizzes: seq<Quiz>, tags: seq<Tag>, questions: seq<Question>)

  const NoPools: Pools := Pools([], [], [], [], [])

  datatype Progress = Progress(store: Store, next: nat, pools: Pools)

  /** How a run ends: every stage committed, or a stage failed with the store as
      the stages before it left it. */
  datatype Run = Completed(store: Store, next: nat) | Aborted(stage: Stage, error: Error, store: Store)

  /** One stage of main_seeding, with the arguments main_seeding passes to it.
      seed_responses gets every option of the store, as the query for all
      options returns them. */
  function Step(sampling: Sampling, stage: Stage, pr: Progress, o: Oracle, c: Config, now: Timestamp)
    : (r: Outcome<Progress>)
    ensures r.Ok? ==> Extends(pr.store, r.value.store)
  {
    var s, p, pools := pr.store, pr.next, pr.pools;
    match stage
    case Users =>
      (match SeedUsers(s, o, p, c.users)
       case Err(e) => Err(e)
       case Ok(b) => Ok(Progress(b.store, b.next, pools.(users := b.rows))))
    case Courses =>
      (match SeedCourses(s, o, p, pools.users, c.courses, now)
       case Err(e) => Err(e)
       case Ok(b) => Ok(Progress(b.store, b.next, pools.(courses := b.rows))))
    case Quizzes =>
      (match SeedQuizzes(s, o, p, pools.courses, pools.users, c.quizzes)
       case Err(e) => Err(e)
       case Ok(b) => Ok(Progress(b.store, b.next, pools.(quizzes := b.rows))))
    case Tags =>
      (match SeedTags(s, o, p, c.tags)
       case Err(e) => Err(e)
       case Ok(b) => Ok(Progress(b.store, b.next, pools.(tags := b.rows))))
    case QuizTags =>
      (match SeedQuizTags(sampling, s, o, p, pools.quizzes, pools.tags)
       case Err(e) => Err(e)
       case Ok(b) => Ok(Progress(b.store, b.next, pools)))
    case Questions =>
      (match SeedQuestions(s, o, p, pools.quizzes, c.questionsPerQuiz)
       case Err(e) => Err(e)
       case Ok(b) => Ok(Progress(b.store, b.next, pools.(questions := b.rows))))
    case Options =>
      (match SeedOptions(s, o, p, pools.questions)
       case Err(e) => Err(e)
       case Ok(b) => Ok(Progress(b.store, b.next, pools)))
    case Results =>
      (match SeedResults(s, o, p, pools.users, pools.quizzes)
       case Err(e) => Err(e)
       case Ok(b) => Ok(Progress(b.store, b.next, pools)))
    case Responses =>
      (match SeedResponses(s, o, p, pools.users, pools.questions, s.options)
       case Err(e) => Err(e)
       case Ok(b) => Ok(Progress(b.store, b.next, pools)))
  }

  /** The stages from `Order[k]` on. */
  function RunFrom(sampling: Sampling, k: nat, pr: Progress, o: Oracle, c: Config, now: Timestamp): (r: Run)
    requires k <= |Order|
    ensures Extends(pr.store, r.store)
    ensures r.Aborted? ==> r.stage in Order[k..]
    decreases |Order| - k
  {
    if k == |Order| then Completed(pr.store, pr.next)
    else
      match Step(sampling, Order[k], pr, o, c, now)
      case Err(e) => Aborted(Order[k], e, pr.store)
      case Ok(after) => RunFrom(sampling, k + 1, after, o, c, now)
  }

  /** main_seeding, reading the oracle from position `p` on. */
  function MainSeeding(sampling: Sampling, s: Store, o: Oracle, p: nat, c: Config, now: Timestamp): (r: Run)
    ensures Extends(s, r.store)
  {
    RunFrom(sampling, 0, Progress(s, p, NoPools), o, c, now)
  }

  // ---------------------------------------------------- what each step keeps

  /** Before step `k`, the pools hold exactly the rows the earlier stages made. */
  ghost predicate Shaped(k: nat, pools: Pools, c: Config) {
    && |pools.users| == (if k > 0 then c.users else 0)
    && |pools.courses| == (if k > 1 then c.courses else 0)
    && |pools.quizzes| == (if k > 2 then c.quizzes else 0)
    && |pools.tags| == (if k > 3 then c.tags else 0)
    && |pools.questions| == (if k > 5 then Times(c.quizzes, c.questionsPerQuiz) else 0)
  }

  /** Every row of the pools is stored. */
  ghost predicate Stored(s: Store, pools: Pools) {
    && UserIds(pools.users) <= UserIds(s.users)
    && CourseIds(pools.courses) <= CourseIds(s.courses)
    && QuizIds(pools.quizzes) <= QuizIds(s.quizzes)
    && TagIds(pools.tags) <= TagIds(s.tags)
    && QuestionIds(pools.questions) <= QuestionIds(s.questions)
  }

  /** What step `k` needs from the progress so far: a valid store holding the
      pools; quizzes and tags with distinct ids; before the quiz-tag stage, no
      link to the new quizzes; after the option stage, options to answer with
      whenever there are questions. */
  ghost predicate Ready(k: nat, pr: Progress) {
    && Valid(pr.store)
    && Stored(pr.store, pr.pools)
    && UniqueBy(pr.pools.quizzes, QuizId) && UniqueBy(pr.pools.tags, TagId)
    && (k <= 4 ==> forall l :: l in pr.store.quizTags ==> l.quizId !in QuizIds(pr.pools.quizzes))
    && (k > 6 ==> |pr.pools.questions| == 0 || |pr.store.options| > 0)
  }

  /** Before step `k`, each table of the store has grown from `s0` by the rows of
      the stages run so far. */
  ghost predicate Counted(k: nat, s0: Store, pr: Progress) {
    var s, pools := pr.store, pr.pools;
    && |s.users| == |s0.users| + |pools.users|
    && |s.courses| == |s0.courses| + |pools.courses|
    && |s.quizzes| == |s0.quizzes| + |pools.quizzes|
    && |s.tags| == |s0.tags| + |pools.tags|
    && (if k > 4 then |s0.quizTags| + |pools.quizzes| <= |s.quizTags| <= |s0.quizTags| + 3 * |pools.quizzes|
        else |s.quizTags| == |s0.quizTags|)
    && |s.questions| == |s0.questions| + |pools.questions|
    && |s.options| == |s0.options| + (if k > 6 then Times(|pools.questions|, OptionsPerQuestion) else 0)
    && |s.results| == |s0.results| + (if k > 7 then Times(|pools.users|, |pools.quizzes|) else 0)
    && |s.responses| == |s0.responses| + (if k > 8 then Times(|pools.users|, |pools.questions|) else 0)
  }

  /** The ways stage `stage` can fail when it runs on the pools main_seeding
      gives it: a clash on a unique column where rows are drawn freely, or an
      empty pool to draw from. A stage whose pools are all stored never breaks
      a foreign key. */
  predicate CanAbort(sampling: Sampling, stage: Stage, e: Error, c: Config) {
    match stage
    case Users => e == UniqueViolation
    case Courses => e == EmptyPool && c.users == 0 < c.courses
    case Quizzes => e == EmptyPool && 0 < c.quizzes && (c.courses == 0 || c.users == 0)
    case Tags => e == UniqueViolation
    case QuizTags =>
      || (e == UniqueViolation && sampling == WithReplacement)
      || (e == EmptyPool && c.tags == 0 < c.quizzes)
    case _ => false
  }

  /** Rows stay stored as the store grows. */
  lemma ExtendsKeepsStored(s: Store, t: Store, pools: Pools)
    requires Extends(s, t) && Stored(s, pools)
    ensures Stored(t, pools)
  {
    forall x | x in s.users ensures x in t.users {
      var i :| 0 <= i < |s.users| && s.users[i] == x;
      assert t.users[i] == x;
    }
    forall x | x in s.courses ensures x in t.courses {
      var i :| 0 <= i < |s.courses| && s.courses[i] == x;
      assert t.courses[i] == x;
    }
    forall x | x in s.quizzes ensures x in t.quizzes {
      var i :| 0 <= i < |s.quizzes| && s.quizzes[i] == x;
      assert t.quizzes[i] == x;
    }
    forall x | x in s.tags ensures x in t.tags {
      var i :| 0 <= i < |s.tags| && s.tags[i] == x;
      assert t.tags[i] == x;
    }
    forall x | x in s.questions ensures x in t.questions {
      var i :| 0 <= i < |s.questions| && s.questions[i] == x;
      assert t.questions[i] == x;
    }
  }

  /** Quizzes numbered from the quiz sequence's next value are linked by no row
      of a valid store's link table. */
  lemma NewQuizzesUnlinked(s: Store, quizzes: seq<Quiz>)
    requires Valid(s) && Numbered(quizzes, QuizId, s.serials.quiz)
    ensures forall l :: l in s.quizTags ==> l.quizId !in QuizIds(quizzes)
  {
    forall l | l in s.quizTags
      ensures l.quizId !in QuizIds(quizzes)
    {
      assert l.quizId in QuizIds(s.quizzes);
      var q :| q in s.quizzes && q.id == l.quizId;
      assert l.quizId < s.serials.quiz;
    }
  }

  // Step by step: one lemma per stage for each of the two invariants.

  lemma CountUsers(sampling: Sampling, s0: Store, pr: Progress, o: Oracle, c: Config, now: Timestamp)
    requires Shaped(0, pr.pools, c) && Counted(0, s0, pr)
    ensures var r := Step(sampling, Users, pr, o, c, now);
      r.Ok? ==> Shaped(1, r.value.pools, c) && Counted(1, s0, r.value)
  {
  }

  lemma ReadyUsers(sampling: Sampling, pr: Progress, o: Oracle, c: Config, now: Timestamp)
    requires Shaped(0, pr.pools, c) && Ready(0, pr)
    ensures var r := Step(sampling, Users, pr, o, c, now);
      && (r.Ok? ==> Shaped(1, r.value.pools, c) && Ready(1, r.value))
      && (r.Err? ==> CanAbort(sampling, Users, r.error, c))
  {
    var s, p, pools := pr.store, pr.next, pr.pools;
    var r := Step(sampling, Users, pr, o, c, now);
    SeedUsersKeepsValid(s, o, p, c.users);
  }

  lemma CountCourses(sampling: Sampling, s0: Store, pr: Progress, o: Oracle, c: Config, now: Timestamp)
    requires Shaped(1, pr.pools, c) && Counted(1, s0, pr)
    ensures var r := Step(sampling, Courses, pr, o, c, now);
      r.Ok? ==> Shaped(2, r.value.pools, c) && Counted(2, s0, r.value)
  {
  }

  lemma ReadyCourses(sampling: Sampling, pr: Progress, o: Oracle, c: Config, now: Timestamp)
    requires Shaped(1, pr.pools, c) && Ready(1, pr)
    ensures var r := Step(sampling, Courses, pr, o, c, now);
      && (r.Ok? ==> Shaped(2, r.value.pools, c) && Ready(2, r.value))
      && (r.Err? ==> CanAbort(sampling, Courses, r.error, c))
  {
    var s, p, pools := pr.store, pr.next, pr.pools;
    var r := Step(sampling, Courses, pr, o, c, now);
    SeedCoursesKeepsValid(s, o, p, pools.users, c.courses, now);
    if r.Ok? { ExtendsKeepsStored(s, r.value.store, pools); }
  }

  lemma CountQuizzes(sampling: Sampling, s0: Store, pr: Progress, o: Oracle, c: Config, now: Timestamp)
    requires Shaped(2, pr.pools, c) && Counted(2, s0, pr)
    ensures var r := Step(sampling, Quizzes, pr, o, c, now);
      r.Ok? ==> Shaped(3, r.value.pools, c) && Counted(3, s0, r.value)
  {
  }

  lemma ReadyQuizzes(sampling: Sampling, pr: Progress, o: Oracle, c: Config, now: Timestamp)
    requires Shaped(2, pr.pools, c) && Ready(2, pr)
    ensures var r := Step(sampling, Quizzes, pr, o, c, now);
      && (r.Ok? ==> Shaped(3, r.value.pools, c) && Ready(3, r.value))
      && (r.Err? ==> CanAbort(sampling, Quizzes, r.error, c))
  {
    var s, p, pools := pr.store, pr.next, pr.pools;
    var r := Step(sampling, Quizzes, pr, o, c, now);
    SeedQuizzesKeepsValid(s, o, p, pools.courses, pools.users, c.quizzes);
    if r.Ok? {
      ExtendsKeepsStored(s, r.value.store, pools);
      NewQuizzesUnlinked(s, r.value.pools.quizzes);
      NumberedUnique(r.value.pools.quizzes, QuizId, s.serials.quiz);
    }
  }

  lemma CountTags(sampling: Sampling, s0: Store, pr: Progress, o: Oracle, c: Config, now: Timestamp)
    requires Shaped(3, pr.pools, c) && Counted(3, s0, pr)
    ensures var r := Step(sampling, Tags, pr, o, c, now);
      r.Ok? ==> Shaped(4, r.value.pools, c) && Counted(4, s0, r.value)
  {
  }

  lemma ReadyTags(sampling: Sampling, pr: Progress, o: Oracle, c: Config, now: Timestamp)
    requires Shaped(3, pr.pools, c) && Ready(3, pr)
    ensures var r := Step(sampling, Tags, pr, o, c, now);
      && (r.Ok? ==> Shaped(4, r.value.pools, c) && Ready(4, r.value))
      && (r.Err? ==> CanAbort(sampling, Tags, r.error, c))
  {
    var s, p, pools := pr.store, pr.next, pr.pools;
    var r := Step(sampling, Tags, pr, o, c, now);
    SeedTagsKeepsValid(s, o, p, c.tags);
    if r.Ok? {
      ExtendsKeepsStored(s, r.value.store, pools);
      NumberedUnique(r.value.pools.tags, TagId, s.serials.tag);
    }
  }

  lemma CountQuizTags(sampling: Sampling, s0: Store, pr: Progress, o: Oracle, c: Config, now: Timestamp)
    requires Shaped(4, pr.pools, c) && Counted(4, s0, pr)
    ensures var r := Step(sampling, QuizTags, pr, o, c, now);
      r.Ok? ==> Shaped(5, r.value.pools, c) && Counted(5, s0, r.value)
  {
    if |pr.pools.quizzes| == 0 || |pr.pools.tags| > 0 {
      QuizTagLinks(sampling, o, pr.next, pr.pools.quizzes, pr.pools.tags);
    }
  }

  lemma ReadyQuizTags(sampling: Sampling, pr: Progress, o: Oracle, c: Config, now: Timestamp)
    requires Shaped(4, pr.pools, c) && Ready(4, pr)
    ensures var r := Step(sampling, QuizTags, pr, o, c, now);
      && (r.Ok? ==> Shaped(5, r.value.pools, c) && Ready(5, r.value))
      && (r.Err? ==> CanAbort(sampling, QuizTags, r.error, c))
  {
    var s, p, pools := pr.store, pr.next, pr.pools;
    var r := Step(sampling, QuizTags, pr, o, c, now);
    SeedQuizTagsKeepsValid(sampling, s, o, p, pools.quizzes, pools.tags);
    QuizTagsFailOnRepeat(sampling, s, o, p, pools.quizzes, pools.tags);
    if sampling == WithoutReplacement {
      SampledTagsNeverRepeat(s, o, p, pools.quizzes, pools.tags);
    }
    if r.Ok? { ExtendsKeepsStored(s, r.value.store, pools); }
  }

  lemma CountQuestions(sampling: Sampling, s0: Store, pr: Progress, o: Oracle, c: Config, now: Timestamp)
    requires Shaped(5, pr.pools, c) && Counted(5, s0, pr)
    ensures var r := Step(sampling, Questions, pr, o, c, now);
      r.Ok? ==> Shaped(6, r.value.pools, c) && Counted(6, s0, r.value)
  {
  }

  lemma ReadyQuestions(sampling: Sampling, pr: Progress, o: Oracle, c: Config, now: Timestamp)
    requires Shaped(5, pr.pools, c) && Ready(5, pr)
    ensures var r := Step(sampling, Questions, pr, o, c, now);
      && (r.Ok? ==> Shaped(6, r.value.pools, c) && Ready(6, r.value))
      && (r.Err? ==> CanAbort(sampling, Questions, r.error, c))
  {
    var s, p, pools := pr.store, pr.next, pr.pools;
    var r := Step(sampling, Questions, pr, o, c, now);
    SeedQuestionsKeepsValid(s, o, p, pools.quizzes, c.questionsPerQuiz);
    SeedQuestionsFail(s, o, p, pools.quizzes, c.questionsPerQuiz);
  }

  lemma CountOptions(sampling: Sampling, s0: Store, pr: Progress, o: Oracle, c: Config, now: Timestamp)
    requires Shaped(6, pr.pools, c) && Counted(6, s0, pr)
    ensures var r := Step(sampling, Options, pr, o, c, now);
      r.Ok? ==> Shaped(7, r.value.pools, c) && Counted(7, s0, r.value)
  {
  }

  lemma ReadyOptions(sampling: Sampling, pr: Progress, o: Oracle, c: Config, now: Timestamp)
    requires Shaped(6, pr.pools, c) && Ready(6, pr)
    ensures var r := Step(sampling, Options, pr, o, c, now);
      && (r.Ok? ==> Shaped(7, r.value.pools, c) && Ready(7, r.value))
      && (r.Err? ==> CanAbort(sampling, Options, r.error, c))
  {
    var s, p, pools := pr.store, pr.next, pr.pools;
    var r := Step(sampling, Options, pr, o, c, now);
    SeedOptionsKeepsValid(s, o, p, pools.questions);
    SeedOptionsFail(s, o, p, pools.questions);
    if r.Ok? { ExtendsKeepsStored(s, r.value.store, pools); }
  }

  lemma CountResults(sampling: Sampling, s0: Store, pr: Progress, o: Oracle, c: Config, now: Timestamp)
    requires Shaped(7, pr.pools, c) && Counted(7, s0, pr)
    ensures var r := Step(sampling, Results, pr, o, c, now);
      r.Ok? ==> Shaped(8, r.value.pools, c) && Counted(8, s0, r.value)
  {
  }

  lemma ReadyResults(sampling: Sampling, pr: Progress, o: Oracle, c: Config, now: Timestamp)
    requires Shaped(7, pr.pools, c) && Ready(7, pr)
    ensures var r := Step(sampling, Results, pr, o, c, now);
      && (r.Ok? ==> Shaped(8, r.value.pools, c) && Ready(8, r.value))
      && (r.Err? ==> CanAbort(sampling, Results, r.error, c))
  {
    var s, p, pools := pr.store, pr.next, pr.pools;
    var r := Step(sampling, Results, pr, o, c, now);
    SeedResultsKeepsValid(s, o, p, pools.users, pools.quizzes);
    SeedResultsFail(s, o, p, pools.users, pools.quizzes);
    if r.Ok? { ExtendsKeepsStored(s, r.value.store, pools); }
  }

  lemma CountResponses(sampling: Sampling, s0: Store, pr: Progress, o: Oracle, c: Config, now: Timestamp)
    requires Shaped(8, pr.pools, c) && Counted(8, s0, pr)
    ensures var r := Step(sampling, Responses, pr, o, c, now);
      r.Ok? ==> Shaped(9, r.value.pools, c) && Counted(9, s0, r.value)
  {
  }

  lemma ReadyResponses(sampling: Sampling, pr: Progress, o: Oracle, c: Config, now: Timestamp)
    requires Shaped(8, pr.pools, c) && Ready(8, pr)
    ensures var r := Step(sampling, Responses, pr, o, c, now);
      && (r.Ok? ==> Shaped(9, r.value.pools, c) && Ready(9, r.value))
      && (r.Err? ==> CanAbort(sampling, Responses, r.error, c))
  {
    var s, p, pools := pr.store, pr.next, pr.pools;
    var r := Step(sampling, Responses, pr, o, c, now);
    SeedResponsesKeepsValid(s, o, p, pools.users, pools.questions, s.options);
    SeedResponsesFail(s, o, p, pools.users, pools.questions, s.options);
    if r.Ok? { ExtendsKeepsStored(s, r.value.store, pools); }
  }

  /** Step `k` keeps the pools shaped and the tables counted. */
  lemma StepCounts(sampling: Sampling, k: nat, s0: Store, pr: Progress, o: Oracle, c: Config, now: Timestamp)
    requires k < |Order| && Shaped(k, pr.pools, c) && Counted(k, s0, pr)
    ensures var r := Step(sampling, Order[k], pr, o, c, now);
      r.Ok? ==> Shaped(k + 1, r.value.pools, c) && Counted(k + 1, s0, r.value)
  {
    OrderLayout();
    if k == 0 {
      CountUsers(sampling, s0, pr, o, c, now);
    } else if k == 1 {
      CountCourses(sampling, s0, pr, o, c, now);
    } else if k == 2 {
      CountQuizzes(sampling, s0, pr, o, c, now);
    } else if k == 3 {
      CountTags(sampling, s0, pr, o, c, now);
    } else if k == 4 {
      CountQuizTags(sampling, s0, pr, o, c, now);
    } else if k == 5 {
      CountQuestions(sampling, s0, pr, o, c, now);
    } else if k == 6 {
      CountOptions(sampling, s0, pr, o, c, now);
    } else if k == 7 {
      CountResults(sampling, s0, pr, o, c, now);
    } else {
      CountResponses(sampling, s0, pr, o, c, now);
    }
  }

  /** Step `k` keeps the progress ready for the next step, and fails only in a
      way CanAbort allows. */
  lemma StepReady(sampling: Sampling, k: nat, pr: Progress, o: Oracle, c: Config, now: Timestamp)
    requires k < |Order| && Shaped(k, pr.pools, c) && Ready(k, pr)
    ensures var r := Step(sampling, Order[k], pr, o, c, now);
      && (r.Ok? ==> Shaped(k + 1, r.value.pools, c) && Ready(k + 1, r.value))
      && (r.Err? ==> CanAbort(sampling, Order[k], r.error, c))
  {
    OrderLayout();
    if k == 0 {
      ReadyUsers(sampling, pr, o, c, now);
    } else if k == 1 {
      ReadyCourses(sampling, pr, o, c, now);
    } else if k == 2 {
      ReadyQuizzes(sampling, pr, o, c, now);
    } else if k == 3 {
      ReadyTags(sampling, pr, o, c, now);
    } else if k == 4 {
      ReadyQuizTags(sampling, pr, o, c, now);
    } else if k == 5 {
      ReadyQuestions(sampling, pr, o, c, now);
    } else if k == 6 {
      ReadyOptions(sampling, pr, o, c, now);
    } else if k == 7 {
      ReadyResults(sampling, pr, o, c, now);
    } else {
      ReadyResponses(sampling, pr, o, c, now);
    }
  }

  // ------------------------------------------------------------ whole runs

  /** The table sizes after a completed run from `s0` with sizes `c`. */
  ghost predicate Grown(s0: Store, s: Store, c: Config) {
    var questions := Times(c.quizzes, c.questionsPerQuiz);
    && |s.users| == |s0.users| + c.users
    && |s.courses| == |s0.courses| + c.courses
    && |s.quizzes| == |s0.quizzes| + c.quizzes
    && |s.tags| == |s0.tags| + c.tags
    && |s0.quizTags| + c.quizzes <= |s.quizTags| <= |s0.quizTags| + 3 * c.quizzes
    && |s.questions| == |s0.questions| + questions
    && |s.options| == |s0.options| + Times(questions, OptionsPerQuestion)
    && |s.results| == |s0.results| + Times(c.users, c.quizzes)
    && |s.responses| == |s0.responses| + Times(c.users, questions)
  }

  /** A run from step `k` that completes has grown every table by what the
      remaining stages add. */
  lemma {:induction false} RunCounts(sampling: Sampling, k: nat, s0: Store, pr: Progress, o: Oracle, c: Config,
                                     now: Timestamp)
    requires k <= |Order| && Shaped(k, pr.pools, c) && Counted(k, s0, pr)
    ensures RunFrom(sampling, k, pr, o, c, now).Completed? ==> Grown(s0, RunFrom(sampling, k, pr, o, c, now).store, c)
    decreases |Order| - k
  {
    if k < |Order| {
      StepCounts(sampling, k, s0, pr, o, c, now);
      match Step(sampling, Order[k], pr, o, c, now)
      case Err(_) =>
      case Ok(after) => RunCounts(sampling, k + 1, s0, after, o, c, now);
    }
  }

  /** A ready run from step `k` leaves a valid store. */
  lemma {:induction false} RunValid(sampling: Sampling, k: nat, pr: Progress, o: Oracle, c: Config, now: Timestamp)
    requires k <= |Order| && Shaped(k, pr.pools, c) && Ready(k, pr)
    ensures Valid(RunFrom(sampling, k, pr, o, c, now).store)
    decreases |Order| - k
  {
    if k < |Order| {
      StepReady(sampling, k, pr, o, c, now);
      match Step(sampling, Order[k], pr, o, c, now)
      case Err(e) =>
        assert RunFrom(sampling, k, pr, o, c, now) == Aborted(Order[k], e, pr.store);
      case Ok(after) =>
        assert RunFrom(sampling, k, pr, o, c, now) == RunFrom(sampling, k + 1, after, o, c, now);
        RunValid(sampling, k + 1, after, o, c, now);
    }
  }

  /** A ready run from step `k` stops only in a way CanAbort allows. */
  lemma {:induction false} RunStops(sampling: Sampling, k: nat, pr: Progress, o: Oracle, c: Config, now: Timestamp)
    requires k <= |Order| && Shaped(k, pr.pools, c) && Ready(k, pr)
    ensures var r := RunFrom(sampling, k, pr, o, c, now);
      r.Aborted? ==> CanAbort(sampling, r.stage, r.error, c)
    decreases |Order| - k
  {
    if k < |Order| {
      if Step(sampling, Order[k], pr, o, c, now).Err? {
        StopsHere(sampling, k, pr, o, c, now);
      } else {
        var after := Step(sampling, Order[k], pr, o, c, now).value;
        StepReady(sampling, k, pr, o, c, now);
        RunOn(sampling, k, pr, o, c, now);
        RunStops(sampling, k + 1, after, o, c, now);
      }
    }
  }

  /** A ready step that fails stops the run in a way CanAbort allows. */
  lemma StopsHere(sampling: Sampling, k: nat, pr: Progress, o: Oracle, c: Config, now: Timestamp)
    requires k < |Order| && Shaped(k, pr.pools, c) && Ready(k, pr)
    requires Step(sampling, Order[k], pr, o, c, now).Err?
    ensures var r := RunFrom(sampling, k, pr, o, c, now);
      r.Aborted? && CanAbort(sampling, r.stage, r.error, c)
  {
    StepReady(sampling, k, pr, o, c, now);
    RunHalts(sampling, k, pr, o, c, now);
  }

  /** main_seeding leaves a valid database valid, whether it completes or stops
      at a failed stage, and it stops only in a way CanAbort allows: never on a
      foreign key, and never in the last four stages. */
  lemma MainSeedingKeepsValid(sampling: Sampling, s: Store, o: Oracle, p: nat, c: Config, now: Timestamp)
    requires Valid(s)
    ensures Valid(MainSeeding(sampling, s, o, p, c, now).store)
    ensures var r := MainSeeding(sampling, s, o, p, c, now);
      r.Aborted? ==> CanAbort(sampling, r.stage, r.error, c)
  {
    RunValid(sampling, 0, Progress(s, p, NoPools), o, c, now);
    RunStops(sampling, 0, Progress(s, p, NoPools), o, c, now);
  }

  /** A completed main_seeding adds num_users users, num_courses courses,
      num_quizzes quizzes and num_tags tags, one to three links per quiz,
      num_questions questions per quiz, four options per question, a result for
      every user and quiz, and a response for every user and question. */
  lemma MainSeedingSizes(sampling: Sampling, s: Store, o: Oracle, p: nat, c: Config, now: Timestamp)
    ensures var r := MainSeeding(sampling, s, o, p, c, now);
      var questions := c.quizzes * c.questionsPerQuiz;
      r.Completed? ==>
        && |r.store.users| == |s.users| + c.users
        && |r.store.courses| == |s.courses| + c.courses
        && |r.store.quizzes| == |s.quizzes| + c.quizzes
        && |r.store.tags| == |s.tags| + c.tags
        && |s.quizTags| + c.quizzes <= |r.store.quizTags| <= |s.quizTags| + 3 * c.quizzes
        && |r.store.questions| == |s.questions| + questions
        && |r.store.options| == |s.options| + 4 * questions
        && |r.store.results| == |s.results| + c.users * c.quizzes
        && |r.store.responses| == |s.responses| + c.users * questions
  {
    RunCounts(sampling, 0, s, Progress(s, p, NoPools), o, c, now);
    TimesIsProduct(c.quizzes, c.questionsPerQuiz);
    TimesIsProduct(Times(c.quizzes, c.questionsPerQuiz), OptionsPerQuestion);
    TimesIsProduct(c.users, c.quizzes);
    TimesIsProduct(c.users, Times(c.quizzes, c.questionsPerQuiz));
  }

  /** With the default sizes, main_seeding stops only on a clash of drawn user
      names, e-mails or tag names, or on a quiz drawing one tag twice; drawing
      tags without replacement leaves only the first two. */
  lemma DefaultsStopOnlyOnClash(sampling: Sampling, s: Store, o: Oracle, p: nat, now: Timestamp)
    requires Valid(s)
    ensures var r := MainSeeding(sampling, s, o, p, Defaults, now);
      r.Aborted? ==>
        && r.error == UniqueViolation
        && (r.stage == Users || r.stage == Tags || r.stage == QuizTags)
        && (sampling == WithoutReplacement ==> r.stage != QuizTags)
  {
    MainSeedingKeepsValid(sampling, s, o, p, Defaults, now);
  }

  /** Courses without users: seed_users makes none, and seed_courses stops on
      its empty pool before anything is written. */
  lemma CoursesWithoutUsers(sampling: Sampling, s: Store, o: Oracle, p: nat, c: Config, now: Timestamp)
    requires c.users == 0 < c.courses
    ensures MainSeeding(sampling, s, o, p, c, now) == Aborted(Courses, EmptyPool, s)
  {
    assert DrawnUsers(o, p, s.serials.user, 0) == [];
    assert s.users + [] == s.users;
  }

  /** A step that commits hands the run on to the next step. */
  lemma RunOn(sampling: Sampling, k: nat, pr: Progress, o: Oracle, c: Config, now: Timestamp)
    requires k < |Order| && Step(sampling, Order[k], pr, o, c, now).Ok?
    ensures RunFrom(sampling, k, pr, o, c, now)
         == RunFrom(sampling, k + 1, Step(sampling, Order[k], pr, o, c, now).value, o, c, now)
  {
  }

  /** A step that fails ends the run there, on the store the step started from. */
  lemma RunHalts(sampling: Sampling, k: nat, pr: Progress, o: Oracle, c: Config, now: Timestamp)
    requires k < |Order| && Step(sampling, Order[k], pr, o, c, now).Err?
    ensures RunFrom(sampling, k, pr, o, c, now)
         == Aborted(Order[k], Step(sampling, Order[k], pr, o, c, now).error, pr.store)
  {
  }

  /** seed_users stores its users, keeps them for later stages and leaves the
      tags alone. */
  lemma UsersStep(sampling: Sampling, pr: Progress, o: Oracle, c: Config, now: Timestamp)
    requires Step(sampling, Users, pr, o, c, now).Ok?
    ensures var a := Step(sampling, Users, pr, o, c, now).value;
      && UserIds(a.pools.users) <= UserIds(a.store.users) && |a.pools.users| == c.users
      && a.pools.courses == pr.pools.courses
      && a.store.tags == pr.store.tags && a.store.serials.tag == pr.store.serials.tag
      && a.next == pr.next + 4 * c.users
  {
  }

  /** On stored users, seed_courses with a user to draw commits, stores its
      courses, keeps them for later stages and leaves the tags alone. */
  lemma CoursesStep(sampling: Sampling, pr: Progress, o: Oracle, c: Config, now: Timestamp)
    requires UserIds(pr.pools.users) <= UserIds(pr.store.users) && |pr.pools.users| > 0
    ensures var r := Step(sampling, Courses, pr, o, c, now);
      && r.Ok?
      && UserIds(r.value.pools.users) <= UserIds(r.value.store.users) && |r.value.pools.users| > 0
      && CourseIds(r.value.pools.courses) <= CourseIds(r.value.store.courses)
      && |r.value.pools.courses| == c.courses
      && r.value.store.tags == pr.store.tags && r.value.store.serials.tag == pr.store.serials.tag
      && r.value.next == pr.next + 3 * c.courses
  {
  }

  /** On stored users and courses, none of them missing, seed_quizzes commits
      and leaves the tags alone. */
  lemma QuizzesStep(sampling: Sampling, pr: Progress, o: Oracle, c: Config, now: Timestamp)
    requires UserIds(pr.pools.users) <= UserIds(pr.store.users) && |pr.pools.users| > 0
    requires CourseIds(pr.pools.courses) <= CourseIds(pr.store.courses) && |pr.pools.courses| > 0
    ensures var r := Step(sampling, Quizzes, pr, o, c, now);
      && r.Ok?
      && r.value.store.tags == pr.store.tags && r.value.store.serials.tag == pr.store.serials.tag
      && r.value.next == pr.next + 6 * c.quizzes
  {
  }

  /** Once seed_users commits users, seed_courses commits courses and
      seed_quizzes commits too, and seed_tags starts on the tags and tag
      sequence the run started with, after the oracle positions the users,
      courses and quizzes read. */
  lemma ReachTags(sampling: Sampling, s: Store, o: Oracle, p: nat, c: Config, now: Timestamp) returns (a3: Progress)
    requires c.users > 0 && c.courses > 0
    requires Step(sampling, Users, Progress(s, p, NoPools), o, c, now).Ok?
    ensures RunFrom(sampling, 0, Progress(s, p, NoPools), o, c, now) == RunFrom(sampling, 3, a3, o, c, now)
    ensures a3.store.tags == s.tags && a3.store.serials.tag == s.serials.tag
    ensures a3.next == p + 4 * c.users + 3 * c.courses + 6 * c.quizzes
  {
    var a1, a2;
    a1, a2, a3 := FirstStages(sampling, s, o, p, c, now);
    ThreeOn(sampling, Progress(s, p, NoPools), a1, a2, a3, o, c, now);
  }

  /** The progress after each of the first three stages, all of which commit. */
  lemma FirstStages(sampling: Sampling, s: Store, o: Oracle, p: nat, c: Config, now: Timestamp)
    returns (a1: Progress, a2: Progress, a3: Progress)
    requires c.users > 0 && c.courses > 0
    requires Step(sampling, Users, Progress(s, p, NoPools), o, c, now).Ok?
    ensures Step(sampling, Users, Progress(s, p, NoPools), o, c, now) == Ok(a1)
    ensures Step(sampling, Courses, a1, o, c, now) == Ok(a2)
    ensures Step(sampling, Quizzes, a2, o, c, now) == Ok(a3)
    ensures a3.store.tags == s.tags && a3.store.serials.tag == s.serials.tag
    ensures a3.next == p + 4 * c.users + 3 * c.courses + 6 * c.quizzes
  {
    var pr := Progress(s, p, NoPools);
    UsersStep(sampling, pr, o, c, now);
    a1 := Step(sampling, Users, pr, o, c, now).value;
    CoursesStep(sampling, a1, o, c, now);
    a2 := Step(sampling, Courses, a1, o, c, now).value;
    QuizzesStep(sampling, a2, o, c, now);
    a3 := Step(sampling, Quizzes, a2, o, c, now).value;
  }

  /** Three committed stages hand the run from the start on to seed_tags. */
  lemma ThreeOn(sampling: Sampling, pr: Progress, a1: Progress, a2: Progress, a3: Progress,
                o: Oracle, c: Config, now: Timestamp)
    requires Step(sampling, Users, pr, o, c, now) == Ok(a1)
    requires Step(sampling, Courses, a1, o, c, now) == Ok(a2)
    requires Step(sampling, Quizzes, a2, o, c, now) == Ok(a3)
    ensures RunFrom(sampling, 0, pr, o, c, now) == RunFrom(sampling, 3, a3, o, c, now)
  {
    OrderLayout();
    Handoff(sampling, 0, Users, pr, a1, o, c, now);
    Handoff(sampling, 1, Courses, a1, a2, o, c, now);
    Handoff(sampling, 2, Quizzes, a2, a3, o, c, now);
  }

  /** RunOn, with the stage and the progress it commits named. */
  lemma Handoff(sampling: Sampling, k: nat, stage: Stage, pr: Progress, next: Progress,
                o: Oracle, c: Config, now: Timestamp)
    requires k < |Order| && Order[k] == stage
    requires Step(sampling, stage, pr, o, c, now) == Ok(next)
    ensures RunFrom(sampling, k, pr, o, c, now) == RunFrom(sampling, k + 1, next, o, c, now)
  {
    RunOn(sampling, k, pr, o, c, now);
  }

  /** ReachTags at the default sizes: seed_tags reads from position p + 85. */
  lemma DefaultsReachTags(sampling: Sampling, s: Store, o: Oracle, p: nat, now: Timestamp) returns (a3: Progress)
    requires Step(sampling, Users, Progress(s, p, NoPools), o, Defaults, now).Ok?
    ensures RunFrom(sampling, 0, Progress(s, p, NoPools), o, Defaults, now) == RunFrom(sampling, 3, a3, o, Defaults, now)
    ensures a3.store.tags == s.tags && a3.store.serials.tag == s.serials.tag
    ensures a3.next == p + 85
  {
    a3 := ReachTags(sampling, s, o, p, Defaults, now);
  }

  /** seed_users, as the first stage, commits iff its users are fresh. */
  lemma UsersStepIffFresh(sampling: Sampling, s: Store, o: Oracle, p: nat, c: Config, now: Timestamp)
    requires UniqueBy(s.users, Username) && UniqueBy(s.users, UserEmail)
    ensures var users := s.users + DrawnUsers(o, p, s.serials.user, c.users);
      Step(sampling, Users, Progress(s, p, NoPools), o, c, now).Ok? <==>
        UniqueBy(users, Username) && UniqueBy(users, UserEmail)
  {
    SeedUsersIffFresh(s, o, p, c.users);
  }

  /** seed_tags commits iff its tag names are fresh. */
  lemma TagsStepIffFresh(sampling: Sampling, pr: Progress, o: Oracle, c: Config, now: Timestamp)
    requires UniqueBy(pr.store.tags, TagName)
    ensures Step(sampling, Tags, pr, o, c, now).Ok? <==>
      UniqueBy(pr.store.tags + DrawnTags(o, pr.next, pr.store.serials.tag, c.tags), TagName)
  {
    SeedTagsIffFresh(pr.store, o, pr.next, c.tags);
  }

  /** With the default sizes and tags drawn without replacement, a run that gets
      past seed_tags completes. */
  lemma DefaultsPastTags(s: Store, o: Oracle, p: nat, now: Timestamp, a4: Progress)
    requires Valid(s)
    requires MainSeeding(WithoutReplacement, s, o, p, Defaults, now)
          == RunFrom(WithoutReplacement, 4, a4, o, Defaults, now)
    ensures RunFrom(WithoutReplacement, 4, a4, o, Defaults, now).Completed?
  {
    DefaultsStopOnlyOnClash(WithoutReplacement, s, o, p, now);
    LateStagesFinish(RunFrom(WithoutReplacement, 4, a4, o, Defaults, now));
  }

  /** A run that can only stop in seed_users or seed_tags, started after both,
      completes. */
  lemma LateStagesFinish(r: Run)
    requires r.Aborted? ==> r.stage in Order[4..]
    requires r.Aborted? ==> r.stage == Users || r.stage == Tags
    ensures r.Completed?
  {
    assert Order[4..] == [QuizTags, Questions, Options, Results, Responses];
  }

  /** With the default sizes and tags drawn without replacement, main_seeding
      completes iff the ten drawn users clash with no stored or other drawn user
      on name or e-mail and the five drawn tag names clash with no stored or
      other drawn tag name. */
  lemma DefaultsCompleteIffFresh(s: Store, o: Oracle, p: nat, now: Timestamp)
    requires Valid(s)
    ensures var users := s.users + DrawnUsers(o, p, s.serials.user, 10);
      MainSeeding(WithoutReplacement, s, o, p, Defaults, now).Completed? <==>
        && UniqueBy(users, Username) && UniqueBy(users, UserEmail)
        && UniqueBy(s.tags + DrawnTags(o, p + 85, s.serials.tag, 5), TagName)
  {
    var sampling, c := WithoutReplacement, Defaults;
    var pr := Progress(s, p, NoPools);
    UsersStepIffFresh(sampling, s, o, p, c, now);
    OrderLayout();
    if Step(sampling, Users, pr, o, c, now).Err? {
      RunHalts(sampling, 0, pr, o, c, now);
    } else {
      var a3 := DefaultsReachTags(sampling, s, o, p, now);
      TagsStepIffFresh(sampling, a3, o, c, now);
      if Step(sampling, Tags, a3, o, c, now).Err? {
        RunHalts(sampling, 3, a3, o, c, now);
      } else {
        RunOn(sampling, 3, a3, o, c, now);
        DefaultsPastTags(s, o, p, now, Step(sampling, Tags, a3, o, c, now).value);
      }
    }
  }
}
