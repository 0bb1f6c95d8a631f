/**
 DELETE with the schema's declared ON DELETE rules, applied transitively.

 The rules are those of the foreign keys themselves (the database level):
   courses.created_by, quizzes.created_by  -> users      SET NULL
   quizzes.course_id                       -> courses    CASCADE
   quiz_tags.quiz_id / quiz_tags.tag_id    -> quizzes / tags  CASCADE
   questions.quiz_id                       -> quizzes    CASCADE
   options.question_id                     -> questions  CASCADE
   results.user_id / results.quiz_id       -> users / quizzes  CASCADE
   responses.user_id / responses.question_id -> users / questions CASCADE
   responses.option_id                     -> options    SET NULL
 The ORM additionally declares cascade="all, delete-orphan" on a user's
 created courses and quizzes, which contradicts the SET NULL above; that
 session-level behaviour is not modelled, only what the database does.

 All deletes go through one engine, `Delete`, which takes the rows named
 directly (by id) and removes every row that reaches them through a CASCADE
 chain, then clears every SET NULL column that names a removed row.
 */
module Cascade {
  import opened Tables
  import opened Schema

  /** The rows a DELETE statement names directly, by table. */
  datatype Deletion = Deletion(
    users: set<nat>, courses: set<nat>, quizzes: set<nat>, tags: set<nat>,
    quizTags: set<QuizTag>, questions: set<nat>, options: set<nat>,
    results: set<nat>, responses: set<nat>)

  const Nothing := Deletion({}, {}, {}, {}, {}, {}, {}, {}, {})

  /** SET NULL: a foreign key naming a removed row becomes NULL. */
  function Cleared(fk: Nullable<nat>, gone: set<nat>): Nullable<nat> {
    if RefersTo(fk, gone) then Null else fk
  }

  // Which rows go. Quizzes, questions and options can be reached by a
  // CASCADE chain, so the ids they are removed under are computed first:
  // the ids named directly plus those of the rows reached through the chain.

  predicate QuizGoes(d: Deletion, q: Quiz) {
    q.id in d.quizzes || RefersTo(q.courseId, d.courses)
  }

  function GoneQuizzes(s: Store, d: Deletion): set<nat> {
    d.quizzes + set q | q in s.quizzes && QuizGoes(d, q) :: q.id
  }

  predicate QuestionGoes(s: Store, d: Deletion, q: Question) {
    q.id in d.questions || RefersTo(q.quizId, GoneQuizzes(s, d))
  }

  function GoneQuestions(s: Store, d: Deletion): set<nat> {
    d.questions + set q | q in s.questions && QuestionGoes(s, d, q) :: q.id
  }

  predicate OptionGoes(s: Store, d: Deletion, o: Option) {
    o.id in d.options || RefersTo(o.questionId, GoneQuestions(s, d))
  }

  function GoneOptions(s: Store, d: Deletion): set<nat> {
    d.options + set o | o in s.options && OptionGoes(s, d, o) :: o.id
  }

  predicate QuizTagGoes(s: Store, d: Deletion, l: QuizTag) {
    l in d.quizTags || l.quizId in GoneQuizzes(s, d) || l.tagId in d.tags
  }

  predicate ResultGoes(s: Store, d: Deletion, x: Result) {
    x.id in d.results || RefersTo(x.userId, d.users) || RefersTo(x.quizId, GoneQuizzes(s, d))
  }

  predicate ResponseGoes(s: Store, d: Deletion, x: Response) {
    x.id in d.responses || RefersTo(x.userId, d.users) || RefersTo(x.questionId, GoneQuestions(s, d))
  }

  /** The store after deleting the rows `d` names, with every ON DELETE rule applied. */
  function Delete(s: Store, d: Deletion): Store {
    var go := GoneOptions(s, d);
    Store(
      Filter(s.users, (u: User) => u.id !in d.users),
      Update(Filter(s.courses, (c: Course) => c.id !in d.courses),
             (c: Course) => c.(createdBy := Cleared(c.createdBy, d.users))),
      Update(Filter(s.quizzes, (q: Quiz) => !QuizGoes(d, q)),
             (q: Quiz) => q.(createdBy := Cleared(q.createdBy, d.users))),
      Filter(s.tags, (t: Tag) => t.id !in d.tags),
      Filter(s.quizTags, (l: QuizTag) => !QuizTagGoes(s, d, l)),
      Filter(s.questions, (q: Question) => !QuestionGoes(s, d, q)),
      Filter(s.options, (o: Option) => !OptionGoes(s, d, o)),
      Filter(s.results, (x: Result) => !ResultGoes(s, d, x)),
      Update(Filter(s.responses, (x: Response) => !ResponseGoes(s, d, x)),
             (x: Response) => x.(optionId := Cleared(x.optionId, go))),
      s.serials)
  }

  // Which ids still have a row after the delete.

  lemma UsersLeft(s: Store, d: Deletion)
    ensures UserIds(s.users) - d.users <= UserIds(Delete(s, d).users)
  {
    forall v | v in UserIds(s.users) - d.users
      ensures v in UserIds(Delete(s, d).users)
    {
      var u :| u in s.users && u.id == v;
      assert u in Delete(s, d).users;
    }
  }

  lemma CoursesLeft(s: Store, d: Deletion)
    ensures CourseIds(s.courses) - d.courses <= CourseIds(Delete(s, d).courses)
  {
    var kept := Filter(s.courses, (c: Course) => c.id !in d.courses);
    var f := (c: Course) => c.(createdBy := Cleared(c.createdBy, d.users));
    UpdateMembers(kept, f);
    forall v | v in CourseIds(s.courses) - d.courses
      ensures v in CourseIds(Delete(s, d).courses)
    {
      var c :| c in s.courses && c.id == v;
      assert f(c) in Delete(s, d).courses;
    }
  }

  lemma QuizzesLeft(s: Store, d: Deletion)
    ensures QuizIds(s.quizzes) - GoneQuizzes(s, d) <= QuizIds(Delete(s, d).quizzes)
  {
    var kept := Filter(s.quizzes, (q: Quiz) => !QuizGoes(d, q));
    var f := (q: Quiz) => q.(createdBy := Cleared(q.createdBy, d.users));
    UpdateMembers(kept, f);
    forall v | v in QuizIds(s.quizzes) - GoneQuizzes(s, d)
      ensures v in QuizIds(Delete(s, d).quizzes)
    {
      var q :| q in s.quizzes && q.id == v;
      assert f(q) in Delete(s, d).quizzes;
    }
  }

  lemma TagsLeft(s: Store, d: Deletion)
    ensures TagIds(s.tags) - d.tags <= TagIds(Delete(s, d).tags)
  {
    forall v | v in TagIds(s.tags) - d.tags
      ensures v in TagIds(Delete(s, d).tags)
    {
      var t :| t in s.tags && t.id == v;
      assert t in Delete(s, d).tags;
    }
  }

  lemma QuestionsLeft(s: Store, d: Deletion)
    ensures QuestionIds(s.questions) - GoneQuestions(s, d) <= QuestionIds(Delete(s, d).questions)
  {
    forall v | v in QuestionIds(s.questions) - GoneQuestions(s, d)
      ensures v in QuestionIds(Delete(s, d).questions)
    {
      var q :| q in s.questions && q.id == v;
      assert q in Delete(s, d).questions;
    }
  }

  lemma OptionsLeft(s: Store, d: Deletion)
    ensures OptionIds(s.options) - GoneOptions(s, d) <= OptionIds(Delete(s, d).options)
  {
    forall v | v in OptionIds(s.options) - GoneOptions(s, d)
      ensures v in OptionIds(Delete(s, d).options)
    {
      var o :| o in s.options && o.id == v;
      assert o in Delete(s, d).options;
    }
  }

  // One lemma per referencing table: its surviving rows still resolve.

  lemma CoursesResolve(s: Store, d: Deletion)
    requires RefConsistent(s)
    ensures forall c :: c in Delete(s, d).courses ==> Resolves(c.createdBy, UserIds(Delete(s, d).users))
  {
    UsersLeft(s, d);
    var kept := Filter(s.courses, (c: Course) => c.id !in d.courses);
    UpdateMembers(kept, (c: Course) => c.(createdBy := Cleared(c.createdBy, d.users)));
  }

  lemma QuizzesResolve(s: Store, d: Deletion)
    requires RefConsistent(s)
    ensures forall q :: q in Delete(s, d).quizzes ==>
      Resolves(q.courseId, CourseIds(Delete(s, d).courses)) && Resolves(q.createdBy, UserIds(Delete(s, d).users))
  {
    UsersLeft(s, d);
    CoursesLeft(s, d);
    var kept := Filter(s.quizzes, (q: Quiz) => !QuizGoes(d, q));
    UpdateMembers(kept, (q: Quiz) => q.(createdBy := Cleared(q.createdBy, d.users)));
  }

  lemma QuizTagsResolve(s: Store, d: Deletion)
    requires RefConsistent(s)
    ensures forall l :: l in Delete(s, d).quizTags ==>
      l.quizId in QuizIds(Delete(s, d).quizzes) && l.tagId in TagIds(Delete(s, d).tags)
  {
    QuizzesLeft(s, d);
    TagsLeft(s, d);
  }

  lemma QuestionsResolve(s: Store, d: Deletion)
    requires RefConsistent(s)
    ensures forall q :: q in Delete(s, d).questions ==> Resolves(q.quizId, QuizIds(Delete(s, d).quizzes))
  {
    QuizzesLeft(s, d);
  }

  lemma OptionsResolve(s: Store, d: Deletion)
    requires RefConsistent(s)
    ensures forall o :: o in Delete(s, d).options ==> Resolves(o.questionId, QuestionIds(Delete(s, d).questions))
  {
    QuestionsLeft(s, d);
  }

  lemma ResultsResolve(s: Store, d: Deletion)
    requires RefConsistent(s)
    ensures forall x :: x in Delete(s, d).results ==>
      Resolves(x.userId, UserIds(Delete(s, d).users)) && Resolves(x.quizId, QuizIds(Delete(s, d).quizzes))
  {
    UsersLeft(s, d);
    QuizzesLeft(s, d);
  }

  lemma ResponseRowResolves(s: Store, d: Deletion, x: Response)
    requires RefConsistent(s)
    requires x in s.responses && !ResponseGoes(s, d, x)
    ensures Resolves(x.userId, UserIds(s.users) - d.users)
    ensures Resolves(x.questionId, QuestionIds(s.questions) - GoneQuestions(s, d))
    ensures Resolves(Cleared(x.optionId, GoneOptions(s, d)), OptionIds(s.options) - GoneOptions(s, d))
  {
  }

  lemma ResponsesResolve(s: Store, d: Deletion)
    requires RefConsistent(s)
    ensures forall x :: x in Delete(s, d).responses ==>
      && Resolves(x.userId, UserIds(Delete(s, d).users))
      && Resolves(x.questionId, QuestionIds(Delete(s, d).questions))
      && Resolves(x.optionId, OptionIds(Delete(s, d).options))
  {
    var r := Delete(s, d);
    UsersLeft(s, d);
    QuestionsLeft(s, d);
    OptionsLeft(s, d);
    var go := GoneOptions(s, d);
    var kept := Filter(s.responses, (x: Response) => !ResponseGoes(s, d, x));
    var f := (x: Response) => x.(optionId := Cleared(x.optionId, go));
    assert r.responses == Update(kept, f);
    UpdateMembers(kept, f);
    forall x | x in r.responses
      ensures Resolves(x.userId, UserIds(r.users))
      ensures Resolves(x.questionId, QuestionIds(r.questions))
      ensures Resolves(x.optionId, OptionIds(r.options))
    {
      var x0 :| x0 in kept && x == f(x0);
      ResponseRowResolves(s, d, x0);
    }
  }

  /** Applying the declared ON DELETE rules never leaves a dangling foreign key. */
  lemma DeleteKeepsRefConsistent(s: Store, d: Deletion)
    requires RefConsistent(s)
    ensures RefConsistent(Delete(s, d))
  {
    CoursesResolve(s, d);
    QuizzesResolve(s, d);
    QuizTagsResolve(s, d);
    QuestionsResolve(s, d);
    OptionsResolve(s, d);
    ResultsResolve(s, d);
    ResponsesResolve(s, d);
  }

  lemma DeleteKeepsKeysUnique(s: Store, d: Deletion)
    requires KeysUnique(s)
    ensures KeysUnique(Delete(s, d))
  {
    var r := Delete(s, d);
    var keepUser := (u: User) => u.id !in d.users;
    FilterUnique(s.users, keepUser, UserId);
    FilterUnique(s.users, keepUser, Username);
    FilterUnique(s.users, keepUser, UserEmail);

    var keptCourses := Filter(s.courses, (c: Course) => c.id !in d.courses);
    FilterUnique(s.courses, (c: Course) => c.id !in d.courses, CourseId);
    UpdateUnique(keptCourses, r.courses, CourseId);

    var keptQuizzes := Filter(s.quizzes, (q: Quiz) => !QuizGoes(d, q));
    FilterUnique(s.quizzes, (q: Quiz) => !QuizGoes(d, q), QuizId);
    UpdateUnique(keptQuizzes, r.quizzes, QuizId);

    FilterUnique(s.tags, (t: Tag) => t.id !in d.tags, TagId);
    FilterUnique(s.tags, (t: Tag) => t.id !in d.tags, TagName);
    FilterUnique(s.questions, (q: Question) => !QuestionGoes(s, d, q), QuestionId);
    FilterUnique(s.options, (o: Option) => !OptionGoes(s, d, o), OptionId);
    FilterUnique(s.results, (x: Result) => !ResultGoes(s, d, x), ResultId);

    var keptResponses := Filter(s.responses, (x: Response) => !ResponseGoes(s, d, x));
    FilterUnique(s.responses, (x: Response) => !ResponseGoes(s, d, x), ResponseId);
    UpdateUnique(keptResponses, r.responses, ResponseId);
  }

  lemma DeleteKeepsSerialsAhead(s: Store, d: Deletion)
    requires SerialsAhead(s)
    ensures SerialsAhead(Delete(s, d))
  {
    var keptCourses := Filter(s.courses, (c: Course) => c.id !in d.courses);
    UpdateMembers(keptCourses, (c: Course) => c.(createdBy := Cleared(c.createdBy, d.users)));
    var keptQuizzes := Filter(s.quizzes, (q: Quiz) => !QuizGoes(d, q));
    UpdateMembers(keptQuizzes, (q: Quiz) => q.(createdBy := Cleared(q.createdBy, d.users)));
    var go := GoneOptions(s, d);
    var keptResponses := Filter(s.responses, (x: Response) => !ResponseGoes(s, d, x));
    UpdateMembers(keptResponses, (x: Response) => x.(optionId := Cleared(x.optionId, go)));
  }

  /** A delete takes a valid store to a valid store. */
  lemma DeleteKeepsValid(s: Store, d: Deletion)
    requires Valid(s)
    ensures Valid(Delete(s, d))
  {
    DeleteKeepsRefConsistent(s, d);
    DeleteKeepsKeysUnique(s, d);
    DeleteKeepsSerialsAhead(s, d);
  }

  /** Both invariants, stated for any store, for use inside the per-table deletes. */
  lemma DeletePreserves(s: Store, d: Deletion)
    ensures RefConsistent(s) ==> RefConsistent(Delete(s, d))
    ensures Valid(s) ==> Valid(Delete(s, d))
  {
    if RefConsistent(s) {
      DeleteKeepsRefConsistent(s, d);
    }
    if Valid(s) {
      DeleteKeepsValid(s, d);
    }
  }

  // Frame: a table that neither the deletion nor its CASCADE chain reaches is unchanged.

  lemma UsersUntouched(s: Store, d: Deletion)
    requires d.users == {}
    ensures Delete(s, d).users == s.users
  {
    FilterAll(s.users, (u: User) => u.id !in d.users);
  }

  lemma CoursesUntouched(s: Store, d: Deletion)
    requires d.courses == {} && d.users == {}
    ensures Delete(s, d).courses == s.courses
  {
    FilterAll(s.courses, (c: Course) => c.id !in d.courses);
    UpdateIdentity(s.courses, (c: Course) => c.(createdBy := Cleared(c.createdBy, d.users)));
  }

  lemma QuizzesUntouched(s: Store, d: Deletion)
    requires d.quizzes == {} && d.courses == {} && d.users == {}
    ensures Delete(s, d).quizzes == s.quizzes
  {
    FilterAll(s.quizzes, (q: Quiz) => !QuizGoes(d, q));
    UpdateIdentity(s.quizzes, (q: Quiz) => q.(createdBy := Cleared(q.createdBy, d.users)));
  }

  lemma TagsUntouched(s: Store, d: Deletion)
    requires d.tags == {}
    ensures Delete(s, d).tags == s.tags
  {
    FilterAll(s.tags, (t: Tag) => t.id !in d.tags);
  }

  lemma QuizTagsUntouched(s: Store, d: Deletion)
    requires d.quizTags == {} && d.tags == {} && GoneQuizzes(s, d) == {}
    ensures Delete(s, d).quizTags == s.quizTags
  {
    FilterAll(s.quizTags, (l: QuizTag) => !QuizTagGoes(s, d, l));
  }

  lemma QuestionsUntouched(s: Store, d: Deletion)
    requires d.questions == {} && GoneQuizzes(s, d) == {}
    ensures Delete(s, d).questions == s.questions
  {
    FilterAll(s.questions, (q: Question) => !QuestionGoes(s, d, q));
  }

  lemma OptionsUntouched(s: Store, d: Deletion)
    requires d.options == {} && GoneQuestions(s, d) == {}
    ensures Delete(s, d).options == s.options
  {
    FilterAll(s.options, (o: Option) => !OptionGoes(s, d, o));
  }

  lemma ResultsUntouched(s: Store, d: Deletion)
    requires d.results == {} && d.users == {} && GoneQuizzes(s, d) == {}
    ensures Delete(s, d).results == s.results
  {
    FilterAll(s.results, (x: Result) => !ResultGoes(s, d, x));
  }

  lemma ResponsesUntouched(s: Store, d: Deletion)
    requires d.responses == {} && d.users == {} && GoneQuestions(s, d) == {} && GoneOptions(s, d) == {}
    ensures Delete(s, d).responses == s.responses
  {
    FilterAll(s.responses, (x: Response) => !ResponseGoes(s, d, x));
    UpdateIdentity(s.responses, (x: Response) => x.(optionId := Cleared(x.optionId, GoneOptions(s, d))));
  }

  /** With no quiz, question or option named, the CASCADE chain reaches none of them. */
  lemma NoChain(s: Store, d: Deletion)
    requires d.courses == {} && d.quizzes == {} && d.questions == {} && d.options == {}
    ensures GoneQuizzes(s, d) == {} && GoneQuestions(s, d) == {} && GoneOptions(s, d) == {}
  {
    assert GoneQuizzes(s, d) == {};
    assert GoneQuestions(s, d) == {};
  }
}
