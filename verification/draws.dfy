/**
 The rows each seeding stage builds, before any of them is written. The loops
 of the generator read the fake-data oracle in a fixed order, so the row built
 at step `i` of a stage is a closed-form function of the oracle, the pools the
 stage draws from, and the first id the table's sequence will hand out. These
 are the reference definitions the stages and their lemmas are stated against.
 */
module Draws {
  import opened Tables
  import opened Schema
  import opened Fake
  import opened Grid

  const Roles: seq<string> := ["student", "teacher"]
  const QuestionKinds: seq<string> := ["multiple_choice", "true_false"]

  /** seed_options makes this many options for every question. */
  const OptionsPerQuestion: nat := 4

  // ---------------------------------------------------------------- users

  /** The user built from positions p .. p+3: user name, e-mail, password, role. */
  function DrawUser(o: Oracle, p: nat, id: nat): (u: User)
    ensures u.role in Roles
  {
    User(id, o.Text(p), o.Text(p + 1), o.Text(p + 2), o.Element(p + 3, Roles))
  }

  /** The `n` users of one run of seed_users, ids counting up from `first`. */
  function DrawnUsers(o: Oracle, p: nat, first: nat, n: nat): (r: seq<User>)
    ensures |r| == n && Numbered(r, UserId, first)
    ensures forall u :: u in r ==> u.role in Roles
  {
    seq(n, i requires 0 <= i < n => DrawUser(o, p + 4 * i, first + i))
  }

  // -------------------------------------------------------------- courses

  /** The course built from positions p .. p+2: name, description, creator drawn from `users`. */
  function DrawCourse(o: Oracle, p: nat, users: seq<User>, id: nat, now: Timestamp): (c: Course)
    requires |users| > 0
    ensures RefersTo(c.createdBy, UserIds(users))
  {
    Course(id, o.Text(p), NonNull(o.Text(p + 1)), NonNull(o.Element(p + 2, users).id), NonNull(now))
  }

  /** The `n` courses of one run of seed_courses. */
  function DrawnCourses(o: Oracle, p: nat, users: seq<User>, first: nat, n: nat, now: Timestamp)
    : (r: seq<Course>)
    requires n == 0 || |users| > 0
    ensures |r| == n && Numbered(r, CourseId, first)
    ensures forall c :: c in r ==> RefersTo(c.createdBy, UserIds(users))
  {
    seq(n, i requires 0 <= i < n => DrawCourse(o, p + 3 * i, users, first + i, now))
  }

  // -------------------------------------------------------------- quizzes

  /** The quiz built from positions p .. p+5: name, description, course and creator
      drawn from the pools, then start and end time drawn independently. */
  function DrawQuiz(o: Oracle, p: nat, courses: seq<Course>, users: seq<User>, id: nat): (q: Quiz)
    requires |courses| > 0 && |users| > 0
    ensures RefersTo(q.courseId, CourseIds(courses)) && RefersTo(q.createdBy, UserIds(users))
  {
    Quiz(id, o.Text(p), NonNull(o.Text(p + 1)),
         NonNull(o.Element(p + 2, courses).id), NonNull(o.Element(p + 3, users).id),
         o.Moment(p + 4), o.Moment(p + 5))
  }

  /** The `n` quizzes of one run of seed_quizzes: `n` in all, not `n` per course. */
  function DrawnQuizzes(o: Oracle, p: nat, courses: seq<Course>, users: seq<User>, first: nat, n: nat)
    : (r: seq<Quiz>)
    requires n == 0 || (|courses| > 0 && |users| > 0)
    ensures |r| == n && Numbered(r, QuizId, first)
    ensures forall q :: q in r ==> RefersTo(q.courseId, CourseIds(courses)) && RefersTo(q.createdBy, UserIds(users))
  {
    seq(n, i requires 0 <= i < n => DrawQuiz(o, p + 6 * i, courses, users, first + i))
  }

  // ----------------------------------------------------------------- tags

  /** The tag built from position p: its name. */
  function DrawTag(o: Oracle, p: nat, id: nat): (t: Tag)
    ensures t.id == id
  {
    Tag(id, o.Text(p))
  }

  /** The `n` tags of one run of seed_tags. */
  function DrawnTags(o: Oracle, p: nat, first: nat, n: nat): (r: seq<Tag>)
    ensures |r| == n && Numbered(r, TagId, first)
  {
    var r := seq(n, i requires 0 <= i < n => DrawTag(o, p + i, first + i));
    assert forall i :: 0 <= i < n ==> r[i] == DrawTag(o, p + i, first + i);
    r
  }

  // ------------------------------------------------------------ quiz tags

  /** How a quiz's tags are drawn: with replacement, as seed_quiz_tags does, or
      without, as the composite primary key of quiz_tags needs. */
  datatype Sampling = WithReplacement | WithoutReplacement

  /** random_element(tags). */
  function PickTag(o: Oracle, p: nat, tags: seq<Tag>): (t: Tag)
    requires |tags| > 0
    ensures t.id in TagIds(tags)
  {
    o.Element(p, tags)
  }

  /** `count` links of `quiz`, the tags drawn with replacement from positions p, p+1, .... */
  function DrawLinks(o: Oracle, p: nat, quiz: Quiz, tags: seq<Tag>, count: nat): (r: seq<QuizTag>)
    requires |tags| > 0
    ensures |r| == count
    ensures forall l :: l in r ==> l.quizId == quiz.id && l.tagId in TagIds(tags)
    decreases count
  {
    if count == 0 then []
    else [QuizTag(quiz.id, PickTag(o, p, tags).id)] + DrawLinks(o, p + 1, quiz, tags, count - 1)
  }

  /** The pool without its `i`-th member. */
  function Without(pool: seq<Tag>, i: nat): (r: seq<Tag>)
    requires i < |pool|
    ensures |r| == |pool| - 1
    ensures TagIds(r) <= TagIds(pool)
    ensures UniqueBy(pool, TagId) ==> UniqueBy(r, TagId) && pool[i].id !in TagIds(r)
  {
    var r := pool[..i] + pool[i + 1..];
    assert forall k :: 0 <= k < |r| ==> r[k] == pool[if k < i then k else k + 1];
    r
  }

  /** `count` links of `quiz`, each tag drawn from the tags not drawn yet. */
  function DrawLinksDistinct(o: Oracle, p: nat, quiz: Quiz, pool: seq<Tag>, count: nat)
    : (r: seq<QuizTag>)
    requires count <= |pool|
    ensures |r| == count
    ensures forall l :: l in r ==> l.quizId == quiz.id && l.tagId in TagIds(pool)
    ensures UniqueBy(pool, TagId) ==> Distinct(r)
    decreases count
  {
    if count == 0 then []
    else
      var i := o.draws(p) % |pool|;
      var rest := DrawLinksDistinct(o, p + 1, quiz, Without(pool, i), count - 1);
      var link := QuizTag(quiz.id, pool[i].id);
      DistinctCons(link, rest);
      [link] + rest
  }

  /** The link rows of one run, grouped by quiz, and the next unread position. */
  datatype LinkDraws = LinkDraws(groups: seq<seq<QuizTag>>, next: nat)

  /** The links of one quiz: a count in [1, 3] read at position p, then that many
      tags. With replacement each tag is drawn from the whole of `tags`; without,
      the count is capped at |tags| and no tag repeats. */
  function DrawGroup(sampling: Sampling, o: Oracle, p: nat, quiz: Quiz, tags: seq<Tag>)
    : (g: seq<QuizTag>)
    requires |tags| > 0
    ensures 1 <= |g| <= 3
    ensures forall l :: l in g ==> l.quizId == quiz.id && l.tagId in TagIds(tags)
    ensures sampling == WithoutReplacement && UniqueBy(tags, TagId) ==> Distinct(g)
  {
    if sampling == WithReplacement then DrawLinks(o, p + 1, quiz, tags, o.Int(p, 1, 3))
    else DrawLinksDistinct(o, p + 1, quiz, tags, o.Int(p, 1, if |tags| >= 3 then 3 else |tags|))
  }

  /** The draws the loops of seed_quiz_tags make, quiz after quiz. */
  function DrawQuizTags(sampling: Sampling, o: Oracle, p: nat, quizzes: seq<Quiz>, tags: seq<Tag>)
    : (r: LinkDraws)
    requires |quizzes| == 0 || |tags| > 0
    ensures |r.groups| == |quizzes|
    ensures forall j :: 0 <= j < |quizzes| ==> 1 <= |r.groups[j]| <= 3
    ensures forall j, l :: 0 <= j < |quizzes| && l in r.groups[j] ==>
      l.quizId == quizzes[j].id && l.tagId in TagIds(tags)
    ensures sampling == WithoutReplacement && UniqueBy(tags, TagId) ==>
      forall j :: 0 <= j < |quizzes| ==> Distinct(r.groups[j])
    decreases |quizzes|
  {
    if |quizzes| == 0 then LinkDraws([], p)
    else
      var group := DrawGroup(sampling, o, p, quizzes[0], tags);
      var rest := DrawQuizTags(sampling, o, p + 1 + |group|, quizzes[1..], tags);
      LinkDraws([group] + rest.groups, rest.next)
  }

  /** All link rows of one run: between one and three per quiz, each naming its
      own quiz and a tag of the pool. */
  lemma QuizTagLinks(sampling: Sampling, o: Oracle, p: nat, quizzes: seq<Quiz>, tags: seq<Tag>)
    requires |quizzes| == 0 || |tags| > 0
    ensures var links := Concat(DrawQuizTags(sampling, o, p, quizzes, tags).groups);
      && |quizzes| <= |links| <= 3 * |quizzes|
      && forall l :: l in links ==> l.quizId in QuizIds(quizzes) && l.tagId in TagIds(tags)
  {
    var d := DrawQuizTags(sampling, o, p, quizzes, tags);
    ConcatLength(d.groups, 1, 3);
    forall l | l in Concat(d.groups)
      ensures l.quizId in QuizIds(quizzes) && l.tagId in TagIds(tags)
    {
      var j :| 0 <= j < |d.groups| && l in d.groups[j];
      assert quizzes[j] in quizzes;
    }
  }

  // ------------------------------------------------------------ questions

  /** The question built from positions p, p+1: text, then a type from QuestionKinds. */
  function DrawQuestion(o: Oracle, p: nat, quiz: Quiz, id: nat): (q: Question)
    ensures q.kind in QuestionKinds && q.quizId == NonNull(quiz.id)
  {
    Question(id, o.Text(p), o.Element(p + 1, QuestionKinds), NonNull(quiz.id))
  }

  /** The questions of seed_questions(quizzes, k). Step `i` of the nested loop
      reads positions p + 2i and p + 2i + 1 and makes question `first + i`, of the
      quiz whose round the step falls in. */
  function QuestionRows(o: Oracle, p: nat, quizzes: seq<Quiz>, k: nat, first: nat): (r: seq<Question>)
    ensures |r| == Times(|quizzes|, k) && Numbered(r, QuestionId, first)
  {
    seq(Times(|quizzes|, k), i requires 0 <= i < Times(|quizzes|, k) =>
      DrawQuestion(o, p + 2 * i, Outer(quizzes, k, i), first + i))
  }

  /** The `k` questions of one quiz, made by one round of the inner loop. */
  function QuestionRound(o: Oracle, p: nat, quiz: Quiz, k: nat, first: nat): (r: seq<Question>)
    ensures |r| == k && Numbered(r, QuestionId, first)
  {
    seq(k, i requires 0 <= i < k => DrawQuestion(o, p + 2 * i, quiz, first + i))
  }

  /** The run is the loops it comes from: the first quiz's round, then the run over
      the remaining quizzes, which starts where the round stopped reading. */
  lemma QuestionRowsPeel(o: Oracle, p: nat, quizzes: seq<Quiz>, k: nat, first: nat)
    requires |quizzes| > 0
    ensures QuestionRows(o, p, quizzes, k, first)
         == QuestionRound(o, p, quizzes[0], k, first) + QuestionRows(o, p + 2 * k, quizzes[1..], k, first + k)
  {
    var rows := QuestionRows(o, p, quizzes, k, first);
    var round := QuestionRound(o, p, quizzes[0], k, first);
    var rest := QuestionRows(o, p + 2 * k, quizzes[1..], k, first + k);
    forall i | 0 <= i < |rows|
      ensures rows[i] == (round + rest)[i]
    {
      if i >= k {
        assert (round + rest)[i] == rest[i - k];
      }
    }
  }

  /** Each quiz gets its own block of `k` consecutive questions, and every
      question belongs to a quiz of the pool and has one of the two types. */
  lemma QuestionsPerQuiz(o: Oracle, p: nat, quizzes: seq<Quiz>, k: nat, first: nat)
    ensures var rows := QuestionRows(o, p, quizzes, k, first);
      forall j, t :: 0 <= j < |quizzes| && 0 <= t < k ==>
        Slot(j, k, t) < |rows| && rows[Slot(j, k, t)].quizId == NonNull(quizzes[j].id)
    ensures forall x :: x in QuestionRows(o, p, quizzes, k, first) ==>
      x.kind in QuestionKinds && exists q :: q in quizzes && x.quizId == NonNull(q.id)
  {
    var rows := QuestionRows(o, p, quizzes, k, first);
    forall j, t | 0 <= j < |quizzes| && 0 <= t < k
      ensures Slot(j, k, t) < |rows| && rows[Slot(j, k, t)].quizId == NonNull(quizzes[j].id)
    {
      OuterAt(quizzes, k, j, t);
    }
    forall x | x in rows
      ensures x.kind in QuestionKinds && exists q :: q in quizzes && x.quizId == NonNull(q.id)
    {
      var i :| 0 <= i < |rows| && rows[i] == x;
    }
  }

  // -------------------------------------------------------------- options

  /** The option built from positions p, p+1: text, then whether it is correct. */
  function DrawOption(o: Oracle, p: nat, question: Question, id: nat): (x: Option)
    ensures x.questionId == NonNull(question.id) && x.isCorrect == o.Bool(p + 1)
  {
    Option(id, o.Text(p), o.Bool(p + 1), NonNull(question.id))
  }

  /** The options of seed_options(questions). Step `i` of the nested loop reads
      positions p + 2i and p + 2i + 1 and makes option `first + i`, of the question
      whose round the step falls in. */
  function OptionRows(o: Oracle, p: nat, questions: seq<Question>, first: nat): (r: seq<Option>)
    ensures |r| == Times(|questions|, OptionsPerQuestion) && Numbered(r, OptionId, first)
  {
    seq(Times(|questions|, OptionsPerQuestion), i requires 0 <= i < Times(|questions|, OptionsPerQuestion) =>
      DrawOption(o, p + 2 * i, Outer(questions, OptionsPerQuestion, i), first + i))
  }

  /** The options of one question, made by one round of the inner loop. */
  function OptionRound(o: Oracle, p: nat, question: Question, first: nat): (r: seq<Option>)
    ensures |r| == OptionsPerQuestion && Numbered(r, OptionId, first)
  {
    seq(OptionsPerQuestion, i requires 0 <= i < OptionsPerQuestion =>
      DrawOption(o, p + 2 * i, question, first + i))
  }

  /** The run is the loops it comes from: the first question's round, then the run
      over the remaining questions. */
  lemma OptionRowsPeel(o: Oracle, p: nat, questions: seq<Question>, first: nat)
    requires |questions| > 0
    ensures OptionRows(o, p, questions, first)
         == OptionRound(o, p, questions[0], first)
          + OptionRows(o, p + 2 * OptionsPerQuestion, questions[1..], first + OptionsPerQuestion)
  {
    var rows := OptionRows(o, p, questions, first);
    var round := OptionRound(o, p, questions[0], first);
    var rest := OptionRows(o, p + 2 * OptionsPerQuestion, questions[1..], first + OptionsPerQuestion);
    forall i | 0 <= i < |rows|
      ensures rows[i] == (round + rest)[i]
    {
      if i >= OptionsPerQuestion {
        assert (round + rest)[i] == rest[i - OptionsPerQuestion];
      }
    }
  }

  /** Each question gets its own block of four consecutive options, and every
      option belongs to a question of the pool. */
  lemma OptionsPerQuestionBlock(o: Oracle, p: nat, questions: seq<Question>, first: nat)
    ensures var rows := OptionRows(o, p, questions, first);
      forall j, t :: 0 <= j < |questions| && 0 <= t < OptionsPerQuestion ==>
        && Slot(j, OptionsPerQuestion, t) < |rows|
        && rows[Slot(j, OptionsPerQuestion, t)].questionId == NonNull(questions[j].id)
    ensures forall x :: x in OptionRows(o, p, questions, first) ==>
      exists q :: q in questions && x.questionId == NonNull(q.id)
  {
    var rows := OptionRows(o, p, questions, first);
    forall j, t | 0 <= j < |questions| && 0 <= t < OptionsPerQuestion
      ensures Slot(j, OptionsPerQuestion, t) < |rows|
      ensures rows[Slot(j, OptionsPerQuestion, t)].questionId == NonNull(questions[j].id)
    {
      OuterAt(questions, OptionsPerQuestion, j, t);
    }
    forall x | x in rows
      ensures exists q :: q in questions && x.questionId == NonNull(q.id)
    {
      var i :| 0 <= i < |rows| && rows[i] == x;
    }
  }

  // -------------------------------------------------------------- results

  /** The result built from positions p, p+1: a score in [0, 100], then whether it passed. */
  function DrawResult(o: Oracle, p: nat, user: User, quiz: Quiz, id: nat): (x: Result)
    ensures x.userId == NonNull(user.id) && x.quizId == NonNull(quiz.id)
    ensures x.totalScore.NonNull? && 0 <= x.totalScore.value <= 100
  {
    Result(id, NonNull(user.id), NonNull(quiz.id), NonNull(o.Int(p, 0, 100)), o.Bool(p + 1))
  }

  /** The results of seed_results(users, quizzes). Step `i` of the nested loop reads
      positions p + 2i and p + 2i + 1 and makes result `first + i`, of the user whose
      round the step falls in, for the quiz the step visits. */
  function ResultRows(o: Oracle, p: nat, users: seq<User>, quizzes: seq<Quiz>, first: nat): (r: seq<Result>)
    ensures |r| == Times(|users|, |quizzes|) && Numbered(r, ResultId, first)
  {
    seq(Times(|users|, |quizzes|), i requires 0 <= i < Times(|users|, |quizzes|) =>
      DrawResult(o, p + 2 * i, Outer(users, |quizzes|, i), Inner(quizzes, |users|, i), first + i))
  }

  /** The results of one user, one per quiz in pool order. */
  function ResultRound(o: Oracle, p: nat, user: User, quizzes: seq<Quiz>, first: nat): (r: seq<Result>)
    ensures |r| == |quizzes| && Numbered(r, ResultId, first)
  {
    seq(|quizzes|, i requires 0 <= i < |quizzes| => DrawResult(o, p + 2 * i, user, quizzes[i], first + i))
  }

  /** The run is the loops it comes from: the first user's round, then the run over
      the remaining users. */
  lemma ResultRowsPeel(o: Oracle, p: nat, users: seq<User>, quizzes: seq<Quiz>, first: nat)
    requires |users| > 0
    ensures ResultRows(o, p, users, quizzes, first)
         == ResultRound(o, p, users[0], quizzes, first)
          + ResultRows(o, p + 2 * |quizzes|, users[1..], quizzes, first + |quizzes|)
  {
    var rows := ResultRows(o, p, users, quizzes, first);
    var round := ResultRound(o, p, users[0], quizzes, first);
    var rest := ResultRows(o, p + 2 * |quizzes|, users[1..], quizzes, first + |quizzes|);
    assert |rows| == |round| + |rest|;
    forall i | 0 <= i < |quizzes|
      ensures rows[i] == round[i]
    {
    }
    forall i | |quizzes| <= i < |rows|
      ensures rows[i] == rest[i - |quizzes|]
    {
    }
    assert rows == round + rest;
  }

  /** Every (user, quiz) pair gets a result: the pair (users[j], quizzes[t]) has it
      at step Slot(j, |quizzes|, t). */
  lemma ResultsPerPair(o: Oracle, p: nat, users: seq<User>, quizzes: seq<Quiz>, first: nat)
    ensures var rows := ResultRows(o, p, users, quizzes, first);
      forall j, t :: 0 <= j < |users| && 0 <= t < |quizzes| ==>
        && Slot(j, |quizzes|, t) < |rows|
        && rows[Slot(j, |quizzes|, t)].userId == NonNull(users[j].id)
        && rows[Slot(j, |quizzes|, t)].quizId == NonNull(quizzes[t].id)
  {
    var rows := ResultRows(o, p, users, quizzes, first);
    forall j, t | 0 <= j < |users| && 0 <= t < |quizzes|
      ensures Slot(j, |quizzes|, t) < |rows|
      ensures rows[Slot(j, |quizzes|, t)].userId == NonNull(users[j].id)
      ensures rows[Slot(j, |quizzes|, t)].quizId == NonNull(quizzes[t].id)
    {
      OuterAt(users, |quizzes|, j, t);
      InnerAt(quizzes, |users|, j, t);
    }
  }

  /** Every result is of a user and a quiz of the pools, with a score in [0, 100]. */
  lemma ResultsFromPools(o: Oracle, p: nat, users: seq<User>, quizzes: seq<Quiz>, first: nat)
    ensures forall x :: x in ResultRows(o, p, users, quizzes, first) ==>
      && x.totalScore.NonNull? && 0 <= x.totalScore.value <= 100
      && (exists u :: u in users && x.userId == NonNull(u.id))
      && (exists q :: q in quizzes && x.quizId == NonNull(q.id))
  {
    var rows := ResultRows(o, p, users, quizzes, first);
    forall x | x in rows
      ensures x.totalScore.NonNull? && 0 <= x.totalScore.value <= 100
      ensures exists u :: u in users && x.userId == NonNull(u.id)
      ensures exists q :: q in quizzes && x.quizId == NonNull(q.id)
    {
      var i :| 0 <= i < |rows| && rows[i] == x;
    }
  }

  /** Over pools with distinct ids, a pair's result is the only one it gets: a
      result of users[j] for quizzes[t] sits at step Slot(j, |quizzes|, t). */
  lemma ResultsOncePerPair(o: Oracle, p: nat, users: seq<User>, quizzes: seq<Quiz>, first: nat)
    requires UniqueBy(users, UserId) && UniqueBy(quizzes, QuizId)
    ensures var rows := ResultRows(o, p, users, quizzes, first);
      forall i, j, t ::
        (&& 0 <= i < |rows| && 0 <= j < |users| && 0 <= t < |quizzes|
         && rows[i].userId == NonNull(users[j].id) && rows[i].quizId == NonNull(quizzes[t].id))
        ==> i == Slot(j, |quizzes|, t)
  {
    var rows := ResultRows(o, p, users, quizzes, first);
    forall i, j, t | 0 <= i < |rows| && 0 <= j < |users| && 0 <= t < |quizzes| &&
        rows[i].userId == NonNull(users[j].id) && rows[i].quizId == NonNull(quizzes[t].id)
      ensures i == Slot(j, |quizzes|, t)
    {
      SlotOnto(|users|, |quizzes|, i);
      var j2: nat, t2: nat :| j2 < |users| && t2 < |quizzes| && i == Slot(j2, |quizzes|, t2);
      OuterAt(users, |quizzes|, j2, t2);
      InnerAt(quizzes, |users|, j2, t2);
      assert UserId(users[j]) == UserId(users[j2]) && QuizId(quizzes[t]) == QuizId(quizzes[t2]);
    }
  }

  // ------------------------------------------------------------ responses

  /** The response built from positions p, p+1: an option drawn from the whole
      pool `options`, whichever question it belongs to, then a submission time. */
  function DrawResponse(o: Oracle, p: nat, user: User, question: Question, options: seq<Option>, id: nat)
    : (x: Response)
    requires |options| > 0
    ensures x.userId == NonNull(user.id) && x.questionId == NonNull(question.id)
    ensures RefersTo(x.optionId, OptionIds(options)) && x.submittedAt.NonNull?
  {
    Response(id, NonNull(user.id), NonNull(question.id), NonNull(o.Element(p, options).id),
             NonNull(o.Moment(p + 1)))
  }

  /** The responses of seed_responses(users, questions, options). Step `i` of the
      nested loop reads positions p + 2i and p + 2i + 1 and makes response
      `first + i`, of the user whose round the step falls in, to the question the
      step visits. */
  function ResponseRows(o: Oracle, p: nat, users: seq<User>, questions: seq<Question>, options: seq<Option>,
                        first: nat): (r: seq<Response>)
    requires |users| == 0 || |questions| == 0 || |options| > 0
    ensures |r| == Times(|users|, |questions|) && Numbered(r, ResponseId, first)
  {
    seq(Times(|users|, |questions|), i requires 0 <= i < Times(|users|, |questions|) =>
      DrawResponse(o, p + 2 * i, Outer(users, |questions|, i), Inner(questions, |users|, i), options, first + i))
  }

  /** The responses of one user, one per question in pool order. */
  function ResponseRound(o: Oracle, p: nat, user: User, questions: seq<Question>, options: seq<Option>,
                         first: nat): (r: seq<Response>)
    requires |questions| == 0 || |options| > 0
    ensures |r| == |questions| && Numbered(r, ResponseId, first)
  {
    seq(|questions|, i requires 0 <= i < |questions| =>
      DrawResponse(o, p + 2 * i, user, questions[i], options, first + i))
  }

  /** The run is the loops it comes from: the first user's round, then the run over
      the remaining users. */
  lemma ResponseRowsPeel(o: Oracle, p: nat, users: seq<User>, questions: seq<Question>, options: seq<Option>,
                         first: nat)
    requires |users| > 0 && (|questions| == 0 || |options| > 0)
    ensures ResponseRows(o, p, users, questions, options, first)
         == ResponseRound(o, p, users[0], questions, options, first)
          + ResponseRows(o, p + 2 * |questions|, users[1..], questions, options, first + |questions|)
  {
    var rows := ResponseRows(o, p, users, questions, options, first);
    var round := ResponseRound(o, p, users[0], questions, options, first);
    var rest := ResponseRows(o, p + 2 * |questions|, users[1..], questions, options, first + |questions|);
    if |questions| == 0 {
      assert rows == [] && round == [] && rest == [];
    } else {
      assert |options| > 0;
      assert |rows| == |round| + |rest|;
      forall i | 0 <= i < |questions|
        ensures rows[i] == round[i]
      {
      }
      forall i | |questions| <= i < |rows|
        ensures rows[i] == rest[i - |questions|]
      {
      }
      assert rows == round + rest;
    }
  }

  /** Every (user, question) pair gets a response: the pair (users[j], questions[t])
      has it at step Slot(j, |questions|, t). */
  lemma ResponsesPerPair(o: Oracle, p: nat, users: seq<User>, questions: seq<Question>, options: seq<Option>,
                         first: nat)
    requires |options| > 0
    ensures var rows := ResponseRows(o, p, users, questions, options, first);
      forall j, t :: 0 <= j < |users| && 0 <= t < |questions| ==>
        && Slot(j, |questions|, t) < |rows|
        && rows[Slot(j, |questions|, t)].userId == NonNull(users[j].id)
        && rows[Slot(j, |questions|, t)].questionId == NonNull(questions[t].id)
  {
    var rows := ResponseRows(o, p, users, questions, options, first);
    forall j, t | 0 <= j < |users| && 0 <= t < |questions|
      ensures Slot(j, |questions|, t) < |rows|
      ensures rows[Slot(j, |questions|, t)].userId == NonNull(users[j].id)
      ensures rows[Slot(j, |questions|, t)].questionId == NonNull(questions[t].id)
    {
      OuterAt(users, |questions|, j, t);
      InnerAt(questions, |users|, j, t);
    }
  }

  /** Every response is of a user and a question of the pools and names an option
      of the whole option pool. */
  lemma ResponsesFromPools(o: Oracle, p: nat, users: seq<User>, questions: seq<Question>,
                           options: seq<Option>, first: nat)
    requires |options| > 0
    ensures forall x :: x in ResponseRows(o, p, users, questions, options, first) ==>
      && RefersTo(x.optionId, OptionIds(options))
      && (exists u :: u in users && x.userId == NonNull(u.id))
      && (exists q :: q in questions && x.questionId == NonNull(q.id))
  {
    var rows := ResponseRows(o, p, users, questions, options, first);
    forall x | x in rows
      ensures RefersTo(x.optionId, OptionIds(options))
      ensures exists u :: u in users && x.userId == NonNull(u.id)
      ensures exists q :: q in questions && x.questionId == NonNull(q.id)
    {
      var i :| 0 <= i < |rows| && rows[i] == x;
    }
  }

  /** Over pools with distinct ids, a pair's response is the only one it gets. */
  lemma ResponsesOncePerPair(o: Oracle, p: nat, users: seq<User>, questions: seq<Question>,
                             options: seq<Option>, first: nat)
    requires |options| > 0
    requires UniqueBy(users, UserId) && UniqueBy(questions, QuestionId)
    ensures var rows := ResponseRows(o, p, users, questions, options, first);
      forall i, j, t ::
        (&& 0 <= i < |rows| && 0 <= j < |users| && 0 <= t < |questions|
         && rows[i].userId == NonNull(users[j].id) && rows[i].questionId == NonNull(questions[t].id))
        ==> i == Slot(j, |questions|, t)
  {
    var rows := ResponseRows(o, p, users, questions, options, first);
    forall i, j, t | 0 <= i < |rows| && 0 <= j < |users| && 0 <= t < |questions| &&
        rows[i].userId == NonNull(users[j].id) && rows[i].questionId == NonNull(questions[t].id)
      ensures i == Slot(j, |questions|, t)
    {
      SlotOnto(|users|, |questions|, i);
      var j2: nat, t2: nat :| j2 < |users| && t2 < |questions| && i == Slot(j2, |questions|, t2);
      OuterAt(users, |questions|, j2, t2);
      InnerAt(questions, |users|, j2, t2);
      assert UserId(users[j]) == UserId(users[j2]) && QuestionId(questions[t]) == QuestionId(questions[t2]);
    }
  }
}
