/**
 What session.commit() does with the rows a stage has added to the session:
 it writes them in the order they were added, each through the table's INSERT,
 inside one transaction. The first write the database rejects rolls the whole
 transaction back, so a flush either stores every row or none.

 The rows arrive with their ids already filled in: the ids the table's SERIAL
 sequence is about to hand out, in order (`Numbered`). Each INSERT then stores
 exactly the row it was given.
 */
module Flush {
  import opened Tables
  import opened Schema

  /** The pending users. Only the UNIQUE columns can reject one. */
  function FlushUsers(s: Store, rows: seq<User>): (r: Outcome<Store>)
    requires Numbered(rows, UserId, s.serials.user)
    ensures r.Err? ==> r.error == UniqueViolation
    ensures r.Ok? ==> r.value == s.(users := s.users + rows,
                                    serials := s.serials.(user := s.serials.user + |rows|))
    decreases |rows|
  {
    if |rows| == 0 then
      assert s.users + rows == s.users;
      Ok(s)
    else
      var u := rows[0];
      match InsertUser(s, u.username, u.email, u.password, u.role)
      case Err(e) => Err(e)
      case Ok(ins) =>
        assert ins.row == u;
        assert s.users + rows == ins.store.users + rows[1..];
        FlushUsers(ins.store, rows[1..])
  }

  /** On a table whose user names and e-mails are unique, the pending users are
      all stored iff no user name and no e-mail occurs twice among the old and the
      new rows together. */
  lemma {:induction false} FlushUsersIffFresh(s: Store, rows: seq<User>)
    requires Numbered(rows, UserId, s.serials.user)
    requires UniqueBy(s.users, Username) && UniqueBy(s.users, UserEmail)
    ensures FlushUsers(s, rows).Ok? <==>
      UniqueBy(s.users + rows, Username) && UniqueBy(s.users + rows, UserEmail)
    decreases |rows|
  {
    if |rows| == 0 {
      assert s.users + rows == s.users;
    } else {
      var u := rows[0];
      UniqueHead(s.users, rows, Username);
      UniqueHead(s.users, rows, UserEmail);
      match InsertUser(s, u.username, u.email, u.password, u.role)
      case Err(_) =>
      case Ok(ins) =>
        AppendUnique(s.users, u, Username);
        AppendUnique(s.users, u, UserEmail);
        assert s.users + rows == ins.store.users + rows[1..];
        FlushUsersIffFresh(ins.store, rows[1..]);
    }
  }

  /** The pending courses. Only the creator's foreign key can reject one. */
  function FlushCourses(s: Store, rows: seq<Course>): (r: Outcome<Store>)
    requires Numbered(rows, CourseId, s.serials.course)
    ensures r.Err? <==> exists c :: c in rows && !Resolves(c.createdBy, UserIds(s.users))
    ensures r.Err? ==> r.error == ForeignKeyViolation
    ensures r.Ok? ==> r.value == s.(courses := s.courses + rows,
                                    serials := s.serials.(course := s.serials.course + |rows|))
    decreases |rows|
  {
    if |rows| == 0 then
      assert s.courses + rows == s.courses;
      Ok(s)
    else
      var c := rows[0];
      match InsertCourse(s, c.name, c.description, c.createdBy, c.createdAt)
      case Err(e) => Err(e)
      case Ok(ins) =>
        assert ins.row == c;
        assert s.courses + rows == ins.store.courses + rows[1..];
        assert forall x :: x in rows <==> x == c || x in rows[1..];
        FlushCourses(ins.store, rows[1..])
  }

  /** The pending quizzes. The course and the creator foreign keys can reject one. */
  function FlushQuizzes(s: Store, rows: seq<Quiz>): (r: Outcome<Store>)
    requires Numbered(rows, QuizId, s.serials.quiz)
    ensures r.Err? <==>
      exists q :: q in rows &&
        (!Resolves(q.courseId, CourseIds(s.courses)) || !Resolves(q.createdBy, UserIds(s.users)))
    ensures r.Err? ==> r.error == ForeignKeyViolation
    ensures r.Ok? ==> r.value == s.(quizzes := s.quizzes + rows,
                                    serials := s.serials.(quiz := s.serials.quiz + |rows|))
    decreases |rows|
  {
    if |rows| == 0 then
      assert s.quizzes + rows == s.quizzes;
      Ok(s)
    else
      var q := rows[0];
      match InsertQuiz(s, q.name, q.description, q.courseId, q.createdBy, q.startTime, q.endTime)
      case Err(e) => Err(e)
      case Ok(ins) =>
        assert ins.row == q;
        assert s.quizzes + rows == ins.store.quizzes + rows[1..];
        assert forall x :: x in rows <==> x == q || x in rows[1..];
        FlushQuizzes(ins.store, rows[1..])
  }

  /** The pending tags. Only the UNIQUE name can reject one. */
  function FlushTags(s: Store, rows: seq<Tag>): (r: Outcome<Store>)
    requires Numbered(rows, TagId, s.serials.tag)
    ensures r.Err? ==> r.error == UniqueViolation
    ensures r.Ok? ==> r.value == s.(tags := s.tags + rows,
                                    serials := s.serials.(tag := s.serials.tag + |rows|))
    decreases |rows|
  {
    if |rows| == 0 then
      assert s.tags + rows == s.tags;
      Ok(s)
    else
      var t := rows[0];
      match InsertTag(s, t.name)
      case Err(e) => Err(e)
      case Ok(ins) =>
        assert ins.row == t;
        assert s.tags + rows == ins.store.tags + rows[1..];
        FlushTags(ins.store, rows[1..])
  }

  /** On a table whose tag names are unique, the pending tags are all stored iff
      no name occurs twice among the old and the new rows together. */
  lemma {:induction false} FlushTagsIffFresh(s: Store, rows: seq<Tag>)
    requires Numbered(rows, TagId, s.serials.tag)
    requires UniqueBy(s.tags, TagName)
    ensures FlushTags(s, rows).Ok? <==> UniqueBy(s.tags + rows, TagName)
    decreases |rows|
  {
    if |rows| == 0 {
      assert s.tags + rows == s.tags;
    } else {
      var t := rows[0];
      UniqueHead(s.tags, rows, TagName);
      match InsertTag(s, t.name)
      case Err(_) =>
      case Ok(ins) =>
        AppendUnique(s.tags, t, TagName);
        assert s.tags + rows == ins.store.tags + rows[1..];
        FlushTagsIffFresh(ins.store, rows[1..]);
    }
  }

  /** The link inserts of one quiz-tag stage, one statement per row. The pair is
      the primary key, so a pair already linked, or linked earlier in the same
      stage, is rejected. */
  function FlushLinks(s: Store, links: seq<QuizTag>): (r: Outcome<Store>)
    ensures r.Err? ==> r.error != EmptyPool
    ensures r.Ok? ==> r.value == s.(quizTags := s.quizTags + links)
    ensures Distinct(s.quizTags) ==>
      (r.Ok? <==>
        && (forall l :: l in links ==> l.quizId in QuizIds(s.quizzes) && l.tagId in TagIds(s.tags))
        && Distinct(s.quizTags + links))
    ensures (forall l :: l in links ==> l.quizId in QuizIds(s.quizzes) && l.tagId in TagIds(s.tags)) ==>
      (r.Err? ==> r.error == UniqueViolation)
    decreases |links|
  {
    if |links| == 0 then
      assert s.quizTags + links == s.quizTags;
      Ok(s)
    else
      match InsertQuizTag(s, links[0].quizId, links[0].tagId)
      case Err(e) =>
        DistinctHead(s.quizTags, links);
        Err(e)
      case Ok(t) =>
        var r := FlushLinks(t, links[1..]);
        assert s.quizTags + links == t.quizTags + links[1..];
        DistinctSnoc(s.quizTags, links[0]);
        r
  }

  /** The pending questions. Only the quiz foreign key can reject one. */
  function FlushQuestions(s: Store, rows: seq<Question>): (r: Outcome<Store>)
    requires Numbered(rows, QuestionId, s.serials.question)
    ensures r.Err? <==> exists q :: q in rows && !Resolves(q.quizId, QuizIds(s.quizzes))
    ensures r.Err? ==> r.error == ForeignKeyViolation
    ensures r.Ok? ==> r.value == s.(questions := s.questions + rows,
                                    serials := s.serials.(question := s.serials.question + |rows|))
    decreases |rows|
  {
    if |rows| == 0 then
      assert s.questions + rows == s.questions;
      Ok(s)
    else
      var q := rows[0];
      match InsertQuestion(s, q.text, q.kind, q.quizId)
      case Err(e) => Err(e)
      case Ok(ins) =>
        assert ins.row == q;
        assert s.questions + rows == ins.store.questions + rows[1..];
        assert forall x :: x in rows <==> x == q || x in rows[1..];
        FlushQuestions(ins.store, rows[1..])
  }

  /** The pending options. Only the question foreign key can reject one. */
  function FlushOptions(s: Store, rows: seq<Option>): (r: Outcome<Store>)
    requires Numbered(rows, OptionId, s.serials.option)
    ensures r.Err? <==> exists x :: x in rows && !Resolves(x.questionId, QuestionIds(s.questions))
    ensures r.Err? ==> r.error == ForeignKeyViolation
    ensures r.Ok? ==> r.value == s.(options := s.options + rows,
                                    serials := s.serials.(option := s.serials.option + |rows|))
    decreases |rows|
  {
    if |rows| == 0 then
      assert s.options + rows == s.options;
      Ok(s)
    else
      var x := rows[0];
      match InsertOption(s, x.text, x.isCorrect, x.questionId)
      case Err(e) => Err(e)
      case Ok(ins) =>
        assert ins.row == x;
        assert s.options + rows == ins.store.options + rows[1..];
        assert forall y :: y in rows <==> y == x || y in rows[1..];
        FlushOptions(ins.store, rows[1..])
  }

  /** The pending results. The user and the quiz foreign keys can reject one. */
  function FlushResults(s: Store, rows: seq<Result>): (r: Outcome<Store>)
    requires Numbered(rows, ResultId, s.serials.result)
    ensures r.Err? <==>
      exists x :: x in rows &&
        (!Resolves(x.userId, UserIds(s.users)) || !Resolves(x.quizId, QuizIds(s.quizzes)))
    ensures r.Err? ==> r.error == ForeignKeyViolation
    ensures r.Ok? ==> r.value == s.(results := s.results + rows,
                                    serials := s.serials.(result := s.serials.result + |rows|))
    decreases |rows|
  {
    if |rows| == 0 then
      assert s.results + rows == s.results;
      Ok(s)
    else
      var x := rows[0];
      match InsertResult(s, x.userId, x.quizId, x.totalScore, x.passed)
      case Err(e) => Err(e)
      case Ok(ins) =>
        assert ins.row == x;
        assert s.results + rows == ins.store.results + rows[1..];
        assert forall y :: y in rows <==> y == x || y in rows[1..];
        FlushResults(ins.store, rows[1..])
  }

  /** The pending responses. The user, question and option foreign keys can reject one. */
  function FlushResponses(s: Store, rows: seq<Response>): (r: Outcome<Store>)
    requires Numbered(rows, ResponseId, s.serials.response)
    ensures r.Err? <==>
      exists x :: x in rows &&
        (|| !Resolves(x.userId, UserIds(s.users))
         || !Resolves(x.questionId, QuestionIds(s.questions))
         || !Resolves(x.optionId, OptionIds(s.options)))
    ensures r.Err? ==> r.error == ForeignKeyViolation
    ensures r.Ok? ==> r.value == s.(responses := s.responses + rows,
                                    serials := s.serials.(response := s.serials.response + |rows|))
    decreases |rows|
  {
    if |rows| == 0 then
      assert s.responses + rows == s.responses;
      Ok(s)
    else
      var x := rows[0];
      match InsertResponse(s, x.userId, x.questionId, x.optionId, x.submittedAt)
      case Err(e) => Err(e)
      case Ok(ins) =>
        assert ins.row == x;
        assert s.responses + rows == ins.store.responses + rows[1..];
        assert forall y :: y in rows <==> y == x || y in rows[1..];
        FlushResponses(ins.store, rows[1..])
  }

  // A flush the database accepts leaves a valid store valid.

  lemma {:induction false} FlushUsersKeepsValid(s: Store, rows: seq<User>)
    requires Valid(s) && Numbered(rows, UserId, s.serials.user)
    ensures FlushUsers(s, rows).Ok? ==> Valid(FlushUsers(s, rows).value)
    decreases |rows|
  {
    if |rows| > 0 {
      var u := rows[0];
      AppendUser(s, User(s.serials.user, u.username, u.email, u.password, u.role));
      match InsertUser(s, u.username, u.email, u.password, u.role)
      case Err(_) =>
      case Ok(ins) =>
        FlushUsersKeepsValid(ins.store, rows[1..]);
    }
  }

  lemma {:induction false} FlushCoursesKeepsValid(s: Store, rows: seq<Course>)
    requires Valid(s) && Numbered(rows, CourseId, s.serials.course)
    ensures FlushCourses(s, rows).Ok? ==> Valid(FlushCourses(s, rows).value)
    decreases |rows|
  {
    if |rows| > 0 {
      var c := rows[0];
      AppendCourse(s, Course(s.serials.course, c.name, c.description, c.createdBy, c.createdAt));
      match InsertCourse(s, c.name, c.description, c.createdBy, c.createdAt)
      case Err(_) =>
      case Ok(ins) =>
        FlushCoursesKeepsValid(ins.store, rows[1..]);
    }
  }

  lemma {:induction false} FlushQuizzesKeepsValid(s: Store, rows: seq<Quiz>)
    requires Valid(s) && Numbered(rows, QuizId, s.serials.quiz)
    ensures FlushQuizzes(s, rows).Ok? ==> Valid(FlushQuizzes(s, rows).value)
    decreases |rows|
  {
    if |rows| > 0 {
      var q := rows[0];
      AppendQuiz(s, Quiz(s.serials.quiz, q.name, q.description, q.courseId, q.createdBy, q.startTime, q.endTime));
      match InsertQuiz(s, q.name, q.description, q.courseId, q.createdBy, q.startTime, q.endTime)
      case Err(_) =>
      case Ok(ins) =>
        FlushQuizzesKeepsValid(ins.store, rows[1..]);
    }
  }

  lemma {:induction false} FlushTagsKeepsValid(s: Store, rows: seq<Tag>)
    requires Valid(s) && Numbered(rows, TagId, s.serials.tag)
    ensures FlushTags(s, rows).Ok? ==> Valid(FlushTags(s, rows).value)
    decreases |rows|
  {
    if |rows| > 0 {
      var t := rows[0];
      AppendTag(s, Tag(s.serials.tag, t.name));
      match InsertTag(s, t.name)
      case Err(_) =>
      case Ok(ins) =>
        FlushTagsKeepsValid(ins.store, rows[1..]);
    }
  }

  lemma {:induction false} FlushQuestionsKeepsValid(s: Store, rows: seq<Question>)
    requires Valid(s) && Numbered(rows, QuestionId, s.serials.question)
    ensures FlushQuestions(s, rows).Ok? ==> Valid(FlushQuestions(s, rows).value)
    decreases |rows|
  {
    if |rows| > 0 {
      var q := rows[0];
      AppendQuestion(s, Question(s.serials.question, q.text, q.kind, q.quizId));
      match InsertQuestion(s, q.text, q.kind, q.quizId)
      case Err(_) =>
      case Ok(ins) =>
        FlushQuestionsKeepsValid(ins.store, rows[1..]);
    }
  }

  lemma {:induction false} FlushOptionsKeepsValid(s: Store, rows: seq<Option>)
    requires Valid(s) && Numbered(rows, OptionId, s.serials.option)
    ensures FlushOptions(s, rows).Ok? ==> Valid(FlushOptions(s, rows).value)
    decreases |rows|
  {
    if |rows| > 0 {
      var x := rows[0];
      AppendOption(s, Option(s.serials.option, x.text, x.isCorrect, x.questionId));
      match InsertOption(s, x.text, x.isCorrect, x.questionId)
      case Err(_) =>
      case Ok(ins) =>
        FlushOptionsKeepsValid(ins.store, rows[1..]);
    }
  }

  lemma {:induction false} FlushResultsKeepsValid(s: Store, rows: seq<Result>)
    requires Valid(s) && Numbered(rows, ResultId, s.serials.result)
    ensures FlushResults(s, rows).Ok? ==> Valid(FlushResults(s, rows).value)
    decreases |rows|
  {
    if |rows| > 0 {
      var x := rows[0];
      AppendResult(s, Result(s.serials.result, x.userId, x.quizId, x.totalScore, x.passed));
      match InsertResult(s, x.userId, x.quizId, x.totalScore, x.passed)
      case Err(_) =>
      case Ok(ins) =>
        FlushResultsKeepsValid(ins.store, rows[1..]);
    }
  }

  lemma {:induction false} FlushResponsesKeepsValid(s: Store, rows: seq<Response>)
    requires Valid(s) && Numbered(rows, ResponseId, s.serials.response)
    ensures FlushResponses(s, rows).Ok? ==> Valid(FlushResponses(s, rows).value)
    decreases |rows|
  {
    if |rows| > 0 {
      var x := rows[0];
      AppendResponse(s, Response(s.serials.response, x.userId, x.questionId, x.optionId, x.submittedAt));
      match InsertResponse(s, x.userId, x.questionId, x.optionId, x.submittedAt)
      case Err(_) =>
      case Ok(ins) =>
        FlushResponsesKeepsValid(ins.store, rows[1..]);
    }
  }

  lemma {:induction false} FlushLinksKeepsValid(s: Store, links: seq<QuizTag>)
    requires Valid(s)
    ensures FlushLinks(s, links).Ok? ==> Valid(FlushLinks(s, links).value)
    decreases |links|
  {
    if |links| > 0 {
      AppendQuizTag(s, QuizTag(links[0].quizId, links[0].tagId));
      match InsertQuizTag(s, links[0].quizId, links[0].tagId)
      case Err(_) =>
      case Ok(t) =>
        FlushLinksKeepsValid(t, links[1..]);
    }
  }
}
