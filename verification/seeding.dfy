/**
 The nine seeding stages. A stage builds its rows from the oracle and the pools
 earlier stages produced, adds them to the session, and commits: the rows are
 flushed in order and either all stored or, on the first rejected write, none.
 Every stage hands back the store after it, the rows it created and the next
 unread oracle position.

 Building a row never depends on a write, so a stage is its draws (module
 Draws) followed by its flush (module Flush). For seed_quiz_tags, whose inserts
 are executed one by one inside the loop, this changes only how far the oracle
 has been read when an insert fails, which nothing observes once the stage has
 failed.
 */
module Seeding {
  import opened Tables
  import opened Schema
  import opened Fake
  import opened Grid
  import opened Draws
  import opened Flush

  /** What a stage leaves behind: the store after it, the rows it created in
      creation order, and the next unread oracle position. */
  datatype Batch<T> = Batch(store: Store, rows: seq<T>, next: nat)

  // ---------------------------------------------------------------- users

  /** seed_users(num_users = n). */
  function SeedUsers(s: Store, o: Oracle, p: nat, n: nat): (r: Outcome<Batch<User>>)
    ensures r.Err? ==> r.error == UniqueViolation
    ensures r.Ok? ==>
      && r.value.rows == DrawnUsers(o, p, s.serials.user, n)
      && r.value.store == s.(users := s.users + r.value.rows,
                             serials := s.serials.(user := s.serials.user + n))
      && r.value.next == p + 4 * n
  {
    var rows := DrawnUsers(o, p, s.serials.user, n);
    match FlushUsers(s, rows)
    case Err(e) => Err(e)
    case Ok(t) => Ok(Batch(t, rows, p + 4 * n))
  }

  /** On a table whose user names and e-mails are unique, seed_users fails iff a
      drawn user name or e-mail is already taken or drawn twice. */
  lemma SeedUsersIffFresh(s: Store, o: Oracle, p: nat, n: nat)
    requires UniqueBy(s.users, Username) && UniqueBy(s.users, UserEmail)
    ensures var all := s.users + DrawnUsers(o, p, s.serials.user, n);
      SeedUsers(s, o, p, n).Ok? <==> UniqueBy(all, Username) && UniqueBy(all, UserEmail)
  {
    FlushUsersIffFresh(s, DrawnUsers(o, p, s.serials.user, n));
  }

  /** seed_users leaves a valid store valid. */
  lemma SeedUsersKeepsValid(s: Store, o: Oracle, p: nat, n: nat)
    requires Valid(s)
    ensures SeedUsers(s, o, p, n).Ok? ==> Valid(SeedUsers(s, o, p, n).value.store)
  {
    FlushUsersKeepsValid(s, DrawnUsers(o, p, s.serials.user, n));
  }

  // -------------------------------------------------------------- courses

  /** seed_courses(users, num_courses = n). `now` stands for the created_at default. */
  function SeedCourses(s: Store, o: Oracle, p: nat, users: seq<User>, n: nat, now: Timestamp)
    : (r: Outcome<Batch<Course>>)
    ensures r.Err? ==> r.error != UniqueViolation
    ensures r.Err? && r.error == EmptyPool <==> n > 0 && |users| == 0
    ensures UserIds(users) <= UserIds(s.users) ==> (r.Ok? <==> n == 0 || |users| > 0)
    ensures r.Ok? ==>
      && (n == 0 || |users| > 0)
      && r.value.rows == DrawnCourses(o, p, users, s.serials.course, n, now)
      && r.value.store == s.(courses := s.courses + r.value.rows,
                             serials := s.serials.(course := s.serials.course + n))
      && r.value.next == p + 3 * n
  {
    if n > 0 && |users| == 0 then Err(EmptyPool)
    else
      var rows := DrawnCourses(o, p, users, s.serials.course, n, now);
      match FlushCourses(s, rows)
      case Err(e) => Err(e)
      case Ok(t) => Ok(Batch(t, rows, p + 3 * n))
  }

  /** seed_courses leaves a valid store valid. */
  lemma SeedCoursesKeepsValid(s: Store, o: Oracle, p: nat, users: seq<User>, n: nat, now: Timestamp)
    requires Valid(s)
    ensures SeedCourses(s, o, p, users, n, now).Ok? ==> Valid(SeedCourses(s, o, p, users, n, now).value.store)
  {
    if n == 0 || |users| > 0 {
      FlushCoursesKeepsValid(s, DrawnCourses(o, p, users, s.serials.course, n, now));
    }
  }

  // -------------------------------------------------------------- quizzes

  /** seed_quizzes(courses, users, num_quizzes = n): `n` quizzes in all, each on a
      course drawn from `courses`, not `n` per course. */
  function SeedQuizzes(s: Store, o: Oracle, p: nat, courses: seq<Course>, users: seq<User>, n: nat)
    : (r: Outcome<Batch<Quiz>>)
    ensures r.Err? ==> r.error != UniqueViolation
    ensures r.Err? && r.error == EmptyPool <==> n > 0 && (|courses| == 0 || |users| == 0)
    ensures CourseIds(courses) <= CourseIds(s.courses) && UserIds(users) <= UserIds(s.users) ==>
      (r.Ok? <==> n == 0 || (|courses| > 0 && |users| > 0))
    ensures r.Ok? ==>
      && (n == 0 || (|courses| > 0 && |users| > 0))
      && r.value.rows == DrawnQuizzes(o, p, courses, users, s.serials.quiz, n)
      && r.value.store == s.(quizzes := s.quizzes + r.value.rows,
                             serials := s.serials.(quiz := s.serials.quiz + n))
      && r.value.next == p + 6 * n
  {
    if n > 0 && (|courses| == 0 || |users| == 0) then Err(EmptyPool)
    else
      var rows := DrawnQuizzes(o, p, courses, users, s.serials.quiz, n);
      match FlushQuizzes(s, rows)
      case Err(e) => Err(e)
      case Ok(t) => Ok(Batch(t, rows, p + 6 * n))
  }

  /** seed_quizzes leaves a valid store valid. */
  lemma SeedQuizzesKeepsValid(s: Store, o: Oracle, p: nat, courses: seq<Course>, users: seq<User>, n: nat)
    requires Valid(s)
    ensures SeedQuizzes(s, o, p, courses, users, n).Ok? ==> Valid(SeedQuizzes(s, o, p, courses, users, n).value.store)
  {
    if n == 0 || (|courses| > 0 && |users| > 0) {
      FlushQuizzesKeepsValid(s, DrawnQuizzes(o, p, courses, users, s.serials.quiz, n));
    }
  }

  /** An oracle that draws 1 at position 4 and 0 everywhere else. */
  const EndsFirst: Oracle := Oracle(i => if i == 4 then 1 else 0, _ => "")

  /** Nothing orders a quiz's two times: the oracle above gives the first quiz an
      end time before its start time. */
  lemma QuizMayEndBeforeStart(courses: seq<Course>, users: seq<User>, id: nat)
    requires |courses| > 0 && |users| > 0
    ensures DrawQuiz(EndsFirst, 0, courses, users, id).endTime < DrawQuiz(EndsFirst, 0, courses, users, id).startTime
  {
  }

  /** Nothing gives every course a quiz: an oracle of zeros puts every quiz on the
      first course, and a second course gets none. */
  lemma CourseMayGetNoQuiz(courses: seq<Course>, users: seq<User>, first: nat, n: nat)
    requires |courses| >= 2 && |users| > 0 && UniqueBy(courses, CourseId)
    ensures forall q :: q in DrawnQuizzes(Zeros, 0, courses, users, first, n) ==>
      q.courseId == NonNull(courses[0].id) && q.courseId != NonNull(courses[1].id)
  {
    assert CourseId(courses[0]) != CourseId(courses[1]);
  }

  // ----------------------------------------------------------------- tags

  /** seed_tags(num_tags = n). */
  function SeedTags(s: Store, o: Oracle, p: nat, n: nat): (r: Outcome<Batch<Tag>>)
    ensures r.Err? ==> r.error == UniqueViolation
    ensures r.Ok? ==>
      && r.value.rows == DrawnTags(o, p, s.serials.tag, n)
      && r.value.store == s.(tags := s.tags + r.value.rows,
                             serials := s.serials.(tag := s.serials.tag + n))
      && r.value.next == p + n
  {
    var rows := DrawnTags(o, p, s.serials.tag, n);
    match FlushTags(s, rows)
    case Err(e) => Err(e)
    case Ok(t) => Ok(Batch(t, rows, p + n))
  }

  /** On a table whose tag names are unique, seed_tags fails iff a drawn name is
      already taken or drawn twice. */
  lemma SeedTagsIffFresh(s: Store, o: Oracle, p: nat, n: nat)
    requires UniqueBy(s.tags, TagName)
    ensures SeedTags(s, o, p, n).Ok? <==> UniqueBy(s.tags + DrawnTags(o, p, s.serials.tag, n), TagName)
  {
    FlushTagsIffFresh(s, DrawnTags(o, p, s.serials.tag, n));
  }

  /** seed_tags leaves a valid store valid. */
  lemma SeedTagsKeepsValid(s: Store, o: Oracle, p: nat, n: nat)
    requires Valid(s)
    ensures SeedTags(s, o, p, n).Ok? ==> Valid(SeedTags(s, o, p, n).value.store)
  {
    FlushTagsKeepsValid(s, DrawnTags(o, p, s.serials.tag, n));
  }

  // ------------------------------------------------------------ quiz tags

  /** seed_quiz_tags(quizzes, tags), drawing each quiz's tags as `sampling` says. */
  function SeedQuizTags(sampling: Sampling, s: Store, o: Oracle, p: nat, quizzes: seq<Quiz>, tags: seq<Tag>)
    : (r: Outcome<Batch<QuizTag>>)
    ensures r.Err? && r.error == EmptyPool <==> |quizzes| > 0 && |tags| == 0
    ensures r.Ok? ==>
      && (|quizzes| == 0 || |tags| > 0)
      && r.value.rows == Concat(DrawQuizTags(sampling, o, p, quizzes, tags).groups)
      && r.value.store == s.(quizTags := s.quizTags + r.value.rows)
      && r.value.next == DrawQuizTags(sampling, o, p, quizzes, tags).next
  {
    if |quizzes| > 0 && |tags| == 0 then Err(EmptyPool)
    else
      var d := DrawQuizTags(sampling, o, p, quizzes, tags);
      var links := Concat(d.groups);
      match FlushLinks(s, links)
      case Err(e) => Err(e)
      case Ok(t) => Ok(Batch(t, links, d.next))
  }

  /** seed_quiz_tags leaves a valid store valid. */
  lemma SeedQuizTagsKeepsValid(sampling: Sampling, s: Store, o: Oracle, p: nat, quizzes: seq<Quiz>, tags: seq<Tag>)
    requires Valid(s)
    ensures SeedQuizTags(sampling, s, o, p, quizzes, tags).Ok? ==>
      Valid(SeedQuizTags(sampling, s, o, p, quizzes, tags).value.store)
  {
    if |quizzes| == 0 || |tags| > 0 {
      FlushLinksKeepsValid(s, Concat(DrawQuizTags(sampling, o, p, quizzes, tags).groups));
    }
  }

  /** Link rows of quizzes with distinct ids, none of which the table already links:
      the table with the rows added repeats a row iff the table already did or one
      quiz's own draw repeats a tag. */
  lemma {:induction false} LinksDistinct(prior: seq<QuizTag>, groups: seq<seq<QuizTag>>, quizzes: seq<Quiz>)
    requires |groups| == |quizzes| && UniqueBy(quizzes, QuizId)
    requires forall l :: l in prior ==> l.quizId !in QuizIds(quizzes)
    requires forall j, l :: 0 <= j < |groups| && l in groups[j] ==> l.quizId == quizzes[j].id
    ensures Distinct(prior + Concat(groups)) <==>
      Distinct(prior) && forall j :: 0 <= j < |groups| ==> Distinct(groups[j])
    decreases |groups|
  {
    if |groups| == 0 {
      assert prior + Concat(groups) == prior;
    } else {
      var g, rest := groups[0], groups[1..];
      assert prior + Concat(groups) == (prior + g) + Concat(rest);
      DistinctAppend(prior, g);
      forall l | l in prior + g
        ensures l.quizId !in QuizIds(quizzes[1..])
      {
        forall q | q in quizzes[1..]
          ensures q.id != l.quizId
        {
          var k :| 0 <= k < |quizzes[1..]| && quizzes[1..][k] == q;
          assert quizzes[k + 1] == q;
          if l in g {
            assert QuizId(quizzes[0]) != QuizId(quizzes[k + 1]);
          }
        }
      }
      LinksDistinct(prior + g, rest, quizzes[1..]);
      assert (forall j :: 0 <= j < |groups| ==> Distinct(groups[j])) <==>
        Distinct(g) && forall j :: 0 <= j < |rest| ==> Distinct(rest[j]) by {
        if forall j :: 0 <= j < |rest| ==> Distinct(rest[j]) {
          forall j | 0 < j < |groups|
            ensures Distinct(groups[j])
          {
            assert groups[j] == rest[j - 1];
          }
        }
      }
    }
  }

  /** The conditions under which main_seeding runs seed_quiz_tags: the quizzes are
      stored, have distinct ids and have no links yet, the tags are stored, and
      the link table repeats no pair. */
  ghost predicate FreshLinkPools(s: Store, quizzes: seq<Quiz>, tags: seq<Tag>) {
    && UniqueBy(quizzes, QuizId)
    && QuizIds(quizzes) <= QuizIds(s.quizzes) && TagIds(tags) <= TagIds(s.tags)
    && Distinct(s.quizTags)
    && (forall l :: l in s.quizTags ==> l.quizId !in QuizIds(quizzes))
  }

  /** On fresh pools, seed_quiz_tags never breaks a foreign key, and it fails iff
      the pool of tags is empty or some quiz's draw names the same tag twice. */
  lemma QuizTagsFailOnRepeat(sampling: Sampling, s: Store, o: Oracle, p: nat, quizzes: seq<Quiz>, tags: seq<Tag>)
    requires FreshLinkPools(s, quizzes, tags)
    ensures SeedQuizTags(sampling, s, o, p, quizzes, tags).Err? ==>
      SeedQuizTags(sampling, s, o, p, quizzes, tags).error != ForeignKeyViolation
    ensures SeedQuizTags(sampling, s, o, p, quizzes, tags).Ok? <==>
      && (|quizzes| == 0 || |tags| > 0)
      && forall j :: 0 <= j < |quizzes| ==> Distinct(DrawQuizTags(sampling, o, p, quizzes, tags).groups[j])
  {
    if |quizzes| == 0 || |tags| > 0 {
      FlushDrawnLinks(sampling, s, o, p, quizzes, tags);
    }
  }

  /** On fresh pools, writing the drawn links fails only on a repeated link, and
      exactly when some quiz's draw names the same tag twice. */
  lemma FlushDrawnLinks(sampling: Sampling, s: Store, o: Oracle, p: nat, quizzes: seq<Quiz>, tags: seq<Tag>)
    requires FreshLinkPools(s, quizzes, tags) && (|quizzes| == 0 || |tags| > 0)
    ensures var d := DrawQuizTags(sampling, o, p, quizzes, tags);
      var r := FlushLinks(s, Concat(d.groups));
      && (r.Err? ==> r.error == UniqueViolation)
      && (r.Ok? <==> forall j :: 0 <= j < |quizzes| ==> Distinct(d.groups[j]))
  {
    var d := DrawQuizTags(sampling, o, p, quizzes, tags);
    var links := Concat(d.groups);
    DrawnLinksResolve(sampling, s, o, p, quizzes, tags);
    assert FlushLinks(s, links).Ok? <==> Distinct(s.quizTags + links);
    LinksDistinct(s.quizTags, d.groups, quizzes);
  }

  /** On fresh pools, every drawn link names a stored quiz and a stored tag. */
  lemma DrawnLinksResolve(sampling: Sampling, s: Store, o: Oracle, p: nat, quizzes: seq<Quiz>, tags: seq<Tag>)
    requires FreshLinkPools(s, quizzes, tags) && (|quizzes| == 0 || |tags| > 0)
    ensures forall l :: l in Concat(DrawQuizTags(sampling, o, p, quizzes, tags).groups) ==>
      l.quizId in QuizIds(s.quizzes) && l.tagId in TagIds(s.tags)
  {
    QuizTagLinks(sampling, o, p, quizzes, tags);
  }

  /** As written: an oracle whose every number is 1 makes the first quiz draw two
      links, both to the same tag, and the stage ends in a primary-key violation. */
  lemma RepeatedTagAborts(s: Store, p: nat, quizzes: seq<Quiz>, tags: seq<Tag>)
    requires FreshLinkPools(s, quizzes, tags)
    requires |quizzes| > 0 && |tags| > 0
    ensures SeedQuizTags(WithReplacement, s, Ones, p, quizzes, tags) == Err(UniqueViolation)
  {
    var o := Ones;
    var d := DrawQuizTags(WithReplacement, o, p, quizzes, tags);
    var g := d.groups[0];
    var link := QuizTag(quizzes[0].id, tags[1 % |tags|].id);
    assert o.Int(p, 1, 3) == 2;
    assert PickTag(o, p + 1, tags) == tags[1 % |tags|] && PickTag(o, p + 2, tags) == tags[1 % |tags|];
    assert DrawLinks(o, p + 2, quizzes[0], tags, 1) == [link];
    assert g == [link, link];
    assert !Distinct(g) by {
      assert g[0] == g[1];
    }
    QuizTagsFailOnRepeat(WithReplacement, s, o, p, quizzes, tags);
    assert !Distinct(DrawQuizTags(WithReplacement, o, p, quizzes, tags).groups[0]);
  }

  /** Corrected: drawing a quiz's tags without replacement never repeats a pair,
      so on fresh pools the stage fails only when there are quizzes but no tags. */
  lemma SampledTagsNeverRepeat(s: Store, o: Oracle, p: nat, quizzes: seq<Quiz>, tags: seq<Tag>)
    requires FreshLinkPools(s, quizzes, tags)
    requires UniqueBy(tags, TagId)
    ensures SeedQuizTags(WithoutReplacement, s, o, p, quizzes, tags).Ok? <==> |quizzes| == 0 || |tags| > 0
  {
    QuizTagsFailOnRepeat(WithoutReplacement, s, o, p, quizzes, tags);
  }

  // ------------------------------------------------------------ questions

  /** seed_questions(quizzes, num_questions = k). */
  function SeedQuestions(s: Store, o: Oracle, p: nat, quizzes: seq<Quiz>, k: nat): (r: Outcome<Batch<Question>>)
    ensures r.Err? ==> r.error == ForeignKeyViolation
    ensures r.Ok? ==>
      && r.value.rows == QuestionRows(o, p, quizzes, k, s.serials.question)
      && r.value.store == s.(questions := s.questions + r.value.rows,
                             serials := s.serials.(question := s.serials.question + Times(|quizzes|, k)))
      && r.value.next == p + 2 * Times(|quizzes|, k)
  {
    var rows := QuestionRows(o, p, quizzes, k, s.serials.question);
    match FlushQuestions(s, rows)
    case Err(e) => Err(e)
    case Ok(t) => Ok(Batch(t, rows, p + 2 * |rows|))
  }

  /** seed_questions leaves a valid store valid. */
  lemma SeedQuestionsKeepsValid(s: Store, o: Oracle, p: nat, quizzes: seq<Quiz>, k: nat)
    requires Valid(s)
    ensures SeedQuestions(s, o, p, quizzes, k).Ok? ==> Valid(SeedQuestions(s, o, p, quizzes, k).value.store)
  {
    FlushQuestionsKeepsValid(s, QuestionRows(o, p, quizzes, k, s.serials.question));
  }

  /** seed_questions fails iff it makes questions and some quiz of the pool is not stored. */
  lemma SeedQuestionsFail(s: Store, o: Oracle, p: nat, quizzes: seq<Quiz>, k: nat)
    ensures SeedQuestions(s, o, p, quizzes, k).Err? <==>
      k > 0 && exists q :: q in quizzes && q.id !in QuizIds(s.quizzes)
  {
    var rows := QuestionRows(o, p, quizzes, k, s.serials.question);
    QuestionsPerQuiz(o, p, quizzes, k, s.serials.question);
    if k > 0 && exists q :: q in quizzes && q.id !in QuizIds(s.quizzes) {
      var q :| q in quizzes && q.id !in QuizIds(s.quizzes);
      var j :| 0 <= j < |quizzes| && quizzes[j] == q;
      assert rows[Slot(j, k, 0)] in rows;
    }
  }

  // -------------------------------------------------------------- options

  /** seed_options(questions): four options for every question. */
  function SeedOptions(s: Store, o: Oracle, p: nat, questions: seq<Question>): (r: Outcome<Batch<Option>>)
    ensures r.Err? ==> r.error == ForeignKeyViolation
    ensures r.Ok? ==>
      && r.value.rows == OptionRows(o, p, questions, s.serials.option)
      && r.value.store == s.(options := s.options + r.value.rows,
                             serials := s.serials.(option := s.serials.option + Times(|questions|, OptionsPerQuestion)))
      && r.value.next == p + 2 * Times(|questions|, OptionsPerQuestion)
  {
    var rows := OptionRows(o, p, questions, s.serials.option);
    match FlushOptions(s, rows)
    case Err(e) => Err(e)
    case Ok(t) => Ok(Batch(t, rows, p + 2 * |rows|))
  }

  /** seed_options leaves a valid store valid. */
  lemma SeedOptionsKeepsValid(s: Store, o: Oracle, p: nat, questions: seq<Question>)
    requires Valid(s)
    ensures SeedOptions(s, o, p, questions).Ok? ==> Valid(SeedOptions(s, o, p, questions).value.store)
  {
    FlushOptionsKeepsValid(s, OptionRows(o, p, questions, s.serials.option));
  }

  /** seed_options fails iff some question of the pool is not stored. */
  lemma SeedOptionsFail(s: Store, o: Oracle, p: nat, questions: seq<Question>)
    ensures SeedOptions(s, o, p, questions).Err? <==>
      exists q :: q in questions && q.id !in QuestionIds(s.questions)
  {
    var rows := OptionRows(o, p, questions, s.serials.option);
    OptionsPerQuestionBlock(o, p, questions, s.serials.option);
    if exists q :: q in questions && q.id !in QuestionIds(s.questions) {
      var q :| q in questions && q.id !in QuestionIds(s.questions);
      var j :| 0 <= j < |questions| && questions[j] == q;
      assert rows[Slot(j, OptionsPerQuestion, 0)] in rows;
    }
  }

  /** is_correct is drawn for each option on its own: an oracle of zeros marks no
      option of any question correct, and an oracle of ones marks every option correct. */
  lemma CorrectnessIsUnconstrained(p: nat, questions: seq<Question>, first: nat)
    ensures forall x :: x in OptionRows(Zeros, p, questions, first) ==> !x.isCorrect
    ensures forall x :: x in OptionRows(Ones, p, questions, first) ==> x.isCorrect
  {
    forall x | x in OptionRows(Zeros, p, questions, first)
      ensures !x.isCorrect
    {
      var rows := OptionRows(Zeros, p, questions, first);
      var i :| 0 <= i < |rows| && rows[i] == x;
    }
    forall x | x in OptionRows(Ones, p, questions, first)
      ensures x.isCorrect
    {
      var rows := OptionRows(Ones, p, questions, first);
      var i :| 0 <= i < |rows| && rows[i] == x;
    }
  }

  // -------------------------------------------------------------- results

  /** seed_results(users, quizzes): one result per (user, quiz) pair. */
  function SeedResults(s: Store, o: Oracle, p: nat, users: seq<User>, quizzes: seq<Quiz>)
    : (r: Outcome<Batch<Result>>)
    ensures r.Err? ==> r.error == ForeignKeyViolation
    ensures r.Ok? ==>
      && r.value.rows == ResultRows(o, p, users, quizzes, s.serials.result)
      && r.value.store == s.(results := s.results + r.value.rows,
                             serials := s.serials.(result := s.serials.result + Times(|users|, |quizzes|)))
      && r.value.next == p + 2 * Times(|users|, |quizzes|)
  {
    var rows := ResultRows(o, p, users, quizzes, s.serials.result);
    match FlushResults(s, rows)
    case Err(e) => Err(e)
    case Ok(t) => Ok(Batch(t, rows, p + 2 * |rows|))
  }

  /** seed_results leaves a valid store valid. */
  lemma SeedResultsKeepsValid(s: Store, o: Oracle, p: nat, users: seq<User>, quizzes: seq<Quiz>)
    requires Valid(s)
    ensures SeedResults(s, o, p, users, quizzes).Ok? ==> Valid(SeedResults(s, o, p, users, quizzes).value.store)
  {
    FlushResultsKeepsValid(s, ResultRows(o, p, users, quizzes, s.serials.result));
  }

  /** seed_results fails iff some user of the pool is not stored while there are
      quizzes, or some quiz is not stored while there are users. */
  lemma SeedResultsFail(s: Store, o: Oracle, p: nat, users: seq<User>, quizzes: seq<Quiz>)
    ensures SeedResults(s, o, p, users, quizzes).Err? <==>
      || (|quizzes| > 0 && exists u :: u in users && u.id !in UserIds(s.users))
      || (|users| > 0 && exists q :: q in quizzes && q.id !in QuizIds(s.quizzes))
  {
    var rows := ResultRows(o, p, users, quizzes, s.serials.result);
    if FlushResults(s, rows).Err? {
      var x :| x in rows && (!Resolves(x.userId, UserIds(s.users)) || !Resolves(x.quizId, QuizIds(s.quizzes)));
      ResultsFromPools(o, p, users, quizzes, s.serials.result);
      assert |users| > 0 && |quizzes| > 0;
    } else {
      ResultsPerPair(o, p, users, quizzes, s.serials.result);
      forall u | u in users && |quizzes| > 0
        ensures u.id in UserIds(s.users)
      {
        var j :| 0 <= j < |users| && users[j] == u;
        assert rows[Slot(j, |quizzes|, 0)] in rows;
      }
      forall q | q in quizzes && |users| > 0
        ensures q.id in QuizIds(s.quizzes)
      {
        var t :| 0 <= t < |quizzes| && quizzes[t] == q;
        assert rows[Slot(0, |quizzes|, t)] in rows;
      }
    }
  }

  // ------------------------------------------------------------ responses

  /** seed_responses(users, questions, options): one response per (user, question)
      pair, its option drawn from `options`, which main_seeding passes as every
      option of the store. */
  function SeedResponses(s: Store, o: Oracle, p: nat, users: seq<User>, questions: seq<Question>,
                         options: seq<Option>): (r: Outcome<Batch<Response>>)
    ensures r.Err? ==> r.error != UniqueViolation
    ensures r.Err? && r.error == EmptyPool <==> |users| > 0 && |questions| > 0 && |options| == 0
    ensures r.Ok? ==>
      && (|users| == 0 || |questions| == 0 || |options| > 0)
      && r.value.rows == ResponseRows(o, p, users, questions, options, s.serials.response)
      && r.value.store == s.(responses := s.responses + r.value.rows,
                             serials := s.serials.(response := s.serials.response + Times(|users|, |questions|)))
      && r.value.next == p + 2 * Times(|users|, |questions|)
  {
    if |users| > 0 && |questions| > 0 && |options| == 0 then Err(EmptyPool)
    else
      var rows := ResponseRows(o, p, users, questions, options, s.serials.response);
      match FlushResponses(s, rows)
      case Err(e) => Err(e)
      case Ok(t) => Ok(Batch(t, rows, p + 2 * |rows|))
  }

  /** seed_responses leaves a valid store valid. */
  lemma SeedResponsesKeepsValid(s: Store, o: Oracle, p: nat, users: seq<User>, questions: seq<Question>,
                                options: seq<Option>)
    requires Valid(s)
    ensures SeedResponses(s, o, p, users, questions, options).Ok? ==>
      Valid(SeedResponses(s, o, p, users, questions, options).value.store)
  {
    if !(|users| > 0 && |questions| > 0 && |options| == 0) {
      FlushResponsesKeepsValid(s, ResponseRows(o, p, users, questions, options, s.serials.response));
    }
  }

  /** With an option pool drawn from the store, seed_responses fails iff it would
      draw from an empty pool, or some user of the pool is not stored while there
      are questions, or some question is not stored while there are users. */
  lemma SeedResponsesFail(s: Store, o: Oracle, p: nat, users: seq<User>, questions: seq<Question>,
                          options: seq<Option>)
    requires OptionIds(options) <= OptionIds(s.options)
    ensures SeedResponses(s, o, p, users, questions, options).Err? <==>
      || (|users| > 0 && |questions| > 0 && |options| == 0)
      || (|questions| > 0 && exists u :: u in users && u.id !in UserIds(s.users))
      || (|users| > 0 && exists q :: q in questions && q.id !in QuestionIds(s.questions))
  {
    if |users| == 0 || |questions| == 0 {
      assert Times(|users|, |questions|) == 0;
    } else if |options| > 0 {
      var rows := ResponseRows(o, p, users, questions, options, s.serials.response);
      if FlushResponses(s, rows).Err? {
        ResponsesFromPools(o, p, users, questions, options, s.serials.response);
      } else {
        ResponsesPerPair(o, p, users, questions, options, s.serials.response);
        forall u | u in users
          ensures u.id in UserIds(s.users)
        {
          var j :| 0 <= j < |users| && users[j] == u;
          assert rows[Slot(j, |questions|, 0)] in rows;
        }
        forall q | q in questions
          ensures q.id in QuestionIds(s.questions)
        {
          var t :| 0 <= t < |questions| && questions[t] == q;
          assert rows[Slot(0, |questions|, t)] in rows;
        }
      }
    }
  }

  /** A response's option need not belong to its question: with a pool of one
      option of another question, every response names that option. */
  lemma ResponseOptionMayBelongElsewhere(o: Oracle, p: nat, users: seq<User>, question: Question,
                                         option: Option, first: nat)
    requires option.questionId != NonNull(question.id)
    ensures forall x :: x in ResponseRows(o, p, users, [question], [option], first) ==>
      x.questionId == NonNull(question.id) && x.optionId == NonNull(option.id) &&
      option.questionId != x.questionId
  {
    ResponsesFromPools(o, p, users, [question], [option], first);
  }
}
