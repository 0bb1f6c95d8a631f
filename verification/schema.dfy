/**
 The relational schema of the quiz platform: one record type per table, the
 store that holds all tables, the foreign-key and uniqueness constraints the
 database enforces, and the INSERT operation of each table.

 Every table except the quiz-tag link table has a surrogate integer primary
 key drawn from its own SERIAL sequence; the sequence is never rewound, so an
 id is never reused, not even after a delete.
 */
module Schema {
  import opened Tables

  /** Timestamps are opaque here; only their presence matters. */
  type Timestamp = nat

  /** A column that may hold SQL NULL. */
  datatype Nullable<T> = Null | NonNull(value: T)

  datatype User = User(id: nat, username: string, email: string, password: string, role: string)

  datatype Course = Course(
    id: nat, name: string, description: Nullable<string>,
    createdBy: Nullable<nat>,           // users.id, ON DELETE SET NULL
    createdAt: Nullable<Timestamp>)

  datatype Quiz = Quiz(
    id: nat, name: string, description: Nullable<string>,
    courseId: Nullable<nat>,            // courses.id, ON DELETE CASCADE
    createdBy: Nullable<nat>,           // users.id, ON DELETE SET NULL
    startTime: Timestamp, endTime: Timestamp)

  datatype Tag = Tag(id: nat, name: string)

  /** A row of the quiz_tags link table; its primary key is the pair itself. */
  datatype QuizTag = QuizTag(
    quizId: nat,                        // quizzes.id, ON DELETE CASCADE
    tagId: nat)                         // tags.id, ON DELETE CASCADE

  datatype Question = Question(
    id: nat, text: string, kind: string,
    quizId: Nullable<nat>)              // quizzes.id, ON DELETE CASCADE

  datatype Option = Option(
    id: nat, text: string, isCorrect: bool,
    questionId: Nullable<nat>)          // questions.id, ON DELETE CASCADE

  datatype Result = Result(
    id: nat,
    userId: Nullable<nat>,              // users.id, ON DELETE CASCADE
    quizId: Nullable<nat>,              // quizzes.id, ON DELETE CASCADE
    totalScore: Nullable<int>, passed: bool)

  datatype Response = Response(
    id: nat,
    userId: Nullable<nat>,              // users.id, ON DELETE CASCADE
    questionId: Nullable<nat>,          // questions.id, ON DELETE CASCADE
    optionId: Nullable<nat>,            // options.id, ON DELETE SET NULL
    submittedAt: Nullable<Timestamp>)

  /** The next value of each table's SERIAL sequence. */
  datatype Serials = Serials(
    user: nat, course: nat, quiz: nat, tag: nat,
    question: nat, option: nat, result: nat, response: nat)

  datatype Store = Store(
    users: seq<User>, courses: seq<Course>, quizzes: seq<Quiz>, tags: seq<Tag>,
    quizTags: seq<QuizTag>, questions: seq<Question>, options: seq<Option>,
    results: seq<Result>, responses: seq<Response>,
    serials: Serials)

  /** A freshly created database: no rows, every sequence at 1. */
  function EmptyStore(): Store {
    Store([], [], [], [], [], [], [], [], [], Serials(1, 1, 1, 1, 1, 1, 1, 1))
  }

  /** The errors a write can end with: the two integrity violations the
      database raises, and the sampling error of drawing from an empty pool. */
  datatype Error = UniqueViolation | ForeignKeyViolation | EmptyPool

  datatype Outcome<T> = Ok(value: T) | Err(error: Error)

  /** A store after an INSERT, with the row as stored (its id filled in). */
  datatype Inserted<T> = Inserted(store: Store, row: T)

  // Column projections used as keys.

  function UserId(u: User): nat { u.id }
  function Username(u: User): string { u.username }
  function UserEmail(u: User): string { u.email }
  function CourseId(c: Course): nat { c.id }
  function QuizId(q: Quiz): nat { q.id }
  function TagId(t: Tag): nat { t.id }
  function TagName(t: Tag): string { t.name }
  function QuestionId(q: Question): nat { q.id }
  function OptionId(o: Option): nat { o.id }
  function ResultId(r: Result): nat { r.id }
  function ResponseId(r: Response): nat { r.id }

  // The primary keys present in a table.

  function UserIds(xs: seq<User>): set<nat> { set x | x in xs :: x.id }
  function CourseIds(xs: seq<Course>): set<nat> { set x | x in xs :: x.id }
  function QuizIds(xs: seq<Quiz>): set<nat> { set x | x in xs :: x.id }
  function TagIds(xs: seq<Tag>): set<nat> { set x | x in xs :: x.id }
  function QuestionIds(xs: seq<Question>): set<nat> { set x | x in xs :: x.id }
  function OptionIds(xs: seq<Option>): set<nat> { set x | x in xs :: x.id }

  /** A nullable foreign key is NULL or names one of `ids`. */
  predicate Resolves(fk: Nullable<nat>, ids: set<nat>) {
    fk.Null? || fk.value in ids
  }

  /** A foreign key that names one of `ids` (NULL names nothing). */
  predicate RefersTo(fk: Nullable<nat>, ids: set<nat>) {
    fk.NonNull? && fk.value in ids
  }

  /** Every non-NULL foreign key names an existing row of the table it references. */
  ghost predicate RefConsistent(s: Store) {
    && (forall c :: c in s.courses ==> Resolves(c.createdBy, UserIds(s.users)))
    && (forall q :: q in s.quizzes ==>
          Resolves(q.courseId, CourseIds(s.courses)) && Resolves(q.createdBy, UserIds(s.users)))
    && (forall l :: l in s.quizTags ==> l.quizId in QuizIds(s.quizzes) && l.tagId in TagIds(s.tags))
    && (forall q :: q in s.questions ==> Resolves(q.quizId, QuizIds(s.quizzes)))
    && (forall o :: o in s.options ==> Resolves(o.questionId, QuestionIds(s.questions)))
    && (forall r :: r in s.results ==>
          Resolves(r.userId, UserIds(s.users)) && Resolves(r.quizId, QuizIds(s.quizzes)))
    && (forall r :: r in s.responses ==>
          && Resolves(r.userId, UserIds(s.users))
          && Resolves(r.questionId, QuestionIds(s.questions))
          && Resolves(r.optionId, OptionIds(s.options)))
  }

  /** Primary keys and the UNIQUE columns (username, email, tag name) hold. */
  ghost predicate KeysUnique(s: Store) {
    && UniqueBy(s.users, UserId) && UniqueBy(s.users, Username) && UniqueBy(s.users, UserEmail)
    && UniqueBy(s.courses, CourseId)
    && UniqueBy(s.quizzes, QuizId)
    && UniqueBy(s.tags, TagId) && UniqueBy(s.tags, TagName)
    && Distinct(s.quizTags)
    && UniqueBy(s.questions, QuestionId)
    && UniqueBy(s.options, OptionId)
    && UniqueBy(s.results, ResultId)
    && UniqueBy(s.responses, ResponseId)
  }

  /** Every id handed out so far lies below its sequence's next value. */
  ghost predicate SerialsAhead(s: Store) {
    && (forall x :: x in s.users ==> x.id < s.serials.user)
    && (forall x :: x in s.courses ==> x.id < s.serials.course)
    && (forall x :: x in s.quizzes ==> x.id < s.serials.quiz)
    && (forall x :: x in s.tags ==> x.id < s.serials.tag)
    && (forall x :: x in s.questions ==> x.id < s.serials.question)
    && (forall x :: x in s.options ==> x.id < s.serials.option)
    && (forall x :: x in s.results ==> x.id < s.serials.result)
    && (forall x :: x in s.responses ==> x.id < s.serials.response)
  }

  /** A state the database can be in: all declared constraints hold. */
  ghost predicate Valid(s: Store) {
    RefConsistent(s) && KeysUnique(s) && SerialsAhead(s)
  }

  /** Row counts of every table. */
  datatype Sizes = Sizes(
    users: nat, courses: nat, quizzes: nat, tags: nat, quizTags: nat,
    questions: nat, options: nat, results: nat, responses: nat)

  function SizesOf(s: Store): Sizes {
    Sizes(|s.users|, |s.courses|, |s.quizzes|, |s.tags|, |s.quizTags|,
          |s.questions|, |s.options|, |s.results|, |s.responses|)
  }

  /** `t` is `s` with rows appended: every table of `s` is a prefix of the same table of `t`. */
  ghost predicate Extends(s: Store, t: Store) {
    && s.users <= t.users && s.courses <= t.courses && s.quizzes <= t.quizzes
    && s.tags <= t.tags && s.quizTags <= t.quizTags && s.questions <= t.questions
    && s.options <= t.options && s.results <= t.results && s.responses <= t.responses
  }

  // INSERT, one per table. The database checks a UNIQUE index while it writes
  // the row and a foreign key after it; a failed insert leaves the store as it was.
  //
  // On a valid store, each INSERT accepts a row exactly when the store with the
  // row appended still satisfies every constraint: an INSERT that would break
  // one is rejected, and one that breaks none goes through. The id it hands out
  // is one no stored row has.

  /** INSERT INTO users. */
  function InsertUser(s: Store, username: string, email: string, password: string, role: string)
    : (r: Outcome<Inserted<User>>)
    ensures Valid(s) ==>
      (r.Ok? <==> Valid(s.(users := s.users + [User(s.serials.user, username, email, password, role)],
                           serials := s.serials.(user := s.serials.user + 1))))
    ensures Valid(s) && r.Ok? ==> r.value.row.id !in UserIds(s.users)
    ensures r.Err? <==> exists u :: u in s.users && (u.username == username || u.email == email)
    ensures r.Err? ==> r.error == UniqueViolation
    ensures r.Ok? ==>
      && r.value.row == User(s.serials.user, username, email, password, role)
      && r.value.store == s.(users := s.users + [r.value.row],
                             serials := s.serials.(user := s.serials.user + 1))
  {
    var row := User(s.serials.user, username, email, password, role);
    AppendUser(s, row);
    if exists u :: u in s.users && (u.username == username || u.email == email) then Err(UniqueViolation)
    else Ok(Inserted(s.(users := s.users + [row], serials := s.serials.(user := s.serials.user + 1)), row))
  }

  /** INSERT INTO courses. */
  function InsertCourse(s: Store, name: string, description: Nullable<string>,
                        createdBy: Nullable<nat>, createdAt: Nullable<Timestamp>)
    : (r: Outcome<Inserted<Course>>)
    ensures Valid(s) ==>
      (r.Ok? <==> Valid(s.(courses := s.courses + [Course(s.serials.course, name, description, createdBy, createdAt)],
                           serials := s.serials.(course := s.serials.course + 1))))
    ensures Valid(s) && r.Ok? ==> r.value.row.id !in CourseIds(s.courses)
    ensures r.Err? <==> !Resolves(createdBy, UserIds(s.users))
    ensures r.Err? ==> r.error == ForeignKeyViolation
    ensures r.Ok? ==>
      && r.value.row == Course(s.serials.course, name, description, createdBy, createdAt)
      && r.value.store == s.(courses := s.courses + [r.value.row],
                             serials := s.serials.(course := s.serials.course + 1))
  {
    var row := Course(s.serials.course, name, description, createdBy, createdAt);
    AppendCourse(s, row);
    if !Resolves(createdBy, UserIds(s.users)) then Err(ForeignKeyViolation)
    else Ok(Inserted(s.(courses := s.courses + [row], serials := s.serials.(course := s.serials.course + 1)), row))
  }

  /** INSERT INTO quizzes. Nothing relates start_time to end_time. */
  function InsertQuiz(s: Store, name: string, description: Nullable<string>,
                      courseId: Nullable<nat>, createdBy: Nullable<nat>,
                      startTime: Timestamp, endTime: Timestamp)
    : (r: Outcome<Inserted<Quiz>>)
    ensures Valid(s) ==>
      (r.Ok? <==> Valid(s.(quizzes := s.quizzes + [Quiz(s.serials.quiz, name, description, courseId, createdBy, startTime, endTime)],
                           serials := s.serials.(quiz := s.serials.quiz + 1))))
    ensures Valid(s) && r.Ok? ==> r.value.row.id !in QuizIds(s.quizzes)
    ensures r.Err? <==> !Resolves(courseId, CourseIds(s.courses)) || !Resolves(createdBy, UserIds(s.users))
    ensures r.Err? ==> r.error == ForeignKeyViolation
    ensures r.Ok? ==>
      && r.value.row == Quiz(s.serials.quiz, name, description, courseId, createdBy, startTime, endTime)
      && r.value.store == s.(quizzes := s.quizzes + [r.value.row],
                             serials := s.serials.(quiz := s.serials.quiz + 1))
  {
    var row := Quiz(s.serials.quiz, name, description, courseId, createdBy, startTime, endTime);
    AppendQuiz(s, row);
    if !Resolves(courseId, CourseIds(s.courses)) || !Resolves(createdBy, UserIds(s.users)) then
      Err(ForeignKeyViolation)
    else Ok(Inserted(s.(quizzes := s.quizzes + [row], serials := s.serials.(quiz := s.serials.quiz + 1)), row))
  }

  /** INSERT INTO tags. */
  function InsertTag(s: Store, name: string): (r: Outcome<Inserted<Tag>>)
    ensures Valid(s) ==>
      (r.Ok? <==> Valid(s.(tags := s.tags + [Tag(s.serials.tag, name)],
                           serials := s.serials.(tag := s.serials.tag + 1))))
    ensures Valid(s) && r.Ok? ==> r.value.row.id !in TagIds(s.tags)
    ensures r.Err? <==> exists t :: t in s.tags && t.name == name
    ensures r.Err? ==> r.error == UniqueViolation
    ensures r.Ok? ==>
      && r.value.row == Tag(s.serials.tag, name)
      && r.value.store == s.(tags := s.tags + [r.value.row],
                             serials := s.serials.(tag := s.serials.tag + 1))
  {
    var row := Tag(s.serials.tag, name);
    AppendTag(s, row);
    if exists t :: t in s.tags && t.name == name then Err(UniqueViolation)
    else Ok(Inserted(s.(tags := s.tags + [row], serials := s.serials.(tag := s.serials.tag + 1)), row))
  }

  /** INSERT INTO quiz_tags: the pair is the primary key, and both halves are foreign keys. */
  function InsertQuizTag(s: Store, quizId: nat, tagId: nat): (r: Outcome<Store>)
    ensures Valid(s) ==> (r.Ok? <==> Valid(s.(quizTags := s.quizTags + [QuizTag(quizId, tagId)])))
    ensures r.Err? <==>
      QuizTag(quizId, tagId) in s.quizTags || quizId !in QuizIds(s.quizzes) || tagId !in TagIds(s.tags)
    ensures r.Err? ==>
      r.error == (if QuizTag(quizId, tagId) in s.quizTags then UniqueViolation else ForeignKeyViolation)
    ensures r.Ok? ==> r.value == s.(quizTags := s.quizTags + [QuizTag(quizId, tagId)])
  {
    AppendQuizTag(s, QuizTag(quizId, tagId));
    if QuizTag(quizId, tagId) in s.quizTags then Err(UniqueViolation)
    else if quizId !in QuizIds(s.quizzes) || tagId !in TagIds(s.tags) then Err(ForeignKeyViolation)
    else Ok(s.(quizTags := s.quizTags + [QuizTag(quizId, tagId)]))
  }

  /** INSERT INTO questions. */
  function InsertQuestion(s: Store, text: string, kind: string, quizId: Nullable<nat>)
    : (r: Outcome<Inserted<Question>>)
    ensures Valid(s) ==>
      (r.Ok? <==> Valid(s.(questions := s.questions + [Question(s.serials.question, text, kind, quizId)],
                           serials := s.serials.(question := s.serials.question + 1))))
    ensures Valid(s) && r.Ok? ==> r.value.row.id !in QuestionIds(s.questions)
    ensures r.Err? <==> !Resolves(quizId, QuizIds(s.quizzes))
    ensures r.Err? ==> r.error == ForeignKeyViolation
    ensures r.Ok? ==>
      && r.value.row == Question(s.serials.question, text, kind, quizId)
      && r.value.store == s.(questions := s.questions + [r.value.row],
                             serials := s.serials.(question := s.serials.question + 1))
  {
    var row := Question(s.serials.question, text, kind, quizId);
    AppendQuestion(s, row);
    if !Resolves(quizId, QuizIds(s.quizzes)) then Err(ForeignKeyViolation)
    else Ok(Inserted(s.(questions := s.questions + [row],
                        serials := s.serials.(question := s.serials.question + 1)), row))
  }

  /** INSERT INTO options. */
  function InsertOption(s: Store, text: string, isCorrect: bool, questionId: Nullable<nat>)
    : (r: Outcome<Inserted<Option>>)
    ensures Valid(s) ==>
      (r.Ok? <==> Valid(s.(options := s.options + [Option(s.serials.option, text, isCorrect, questionId)],
                           serials := s.serials.(option := s.serials.option + 1))))
    ensures Valid(s) && r.Ok? ==> r.value.row.id !in OptionIds(s.options)
    ensures r.Err? <==> !Resolves(questionId, QuestionIds(s.questions))
    ensures r.Err? ==> r.error == ForeignKeyViolation
    ensures r.Ok? ==>
      && r.value.row == Option(s.serials.option, text, isCorrect, questionId)
      && r.value.store == s.(options := s.options + [r.value.row],
                             serials := s.serials.(option := s.serials.option + 1))
  {
    var row := Option(s.serials.option, text, isCorrect, questionId);
    AppendOption(s, row);
    if !Resolves(questionId, QuestionIds(s.questions)) then Err(ForeignKeyViolation)
    else Ok(Inserted(s.(options := s.options + [row], serials := s.serials.(option := s.serials.option + 1)), row))
  }

  /** INSERT INTO results. */
  function InsertResult(s: Store, userId: Nullable<nat>, quizId: Nullable<nat>,
                        totalScore: Nullable<int>, passed: bool)
    : (r: Outcome<Inserted<Result>>)
    ensures Valid(s) ==>
      (r.Ok? <==> Valid(s.(results := s.results + [Result(s.serials.result, userId, quizId, totalScore, passed)],
                           serials := s.serials.(result := s.serials.result + 1))))
    ensures Valid(s) && r.Ok? ==> forall x :: x in s.results ==> x.id != r.value.row.id
    ensures r.Err? <==> !Resolves(userId, UserIds(s.users)) || !Resolves(quizId, QuizIds(s.quizzes))
    ensures r.Err? ==> r.error == ForeignKeyViolation
    ensures r.Ok? ==>
      && r.value.row == Result(s.serials.result, userId, quizId, totalScore, passed)
      && r.value.store == s.(results := s.results + [r.value.row],
                             serials := s.serials.(result := s.serials.result + 1))
  {
    var row := Result(s.serials.result, userId, quizId, totalScore, passed);
    AppendResult(s, row);
    if !Resolves(userId, UserIds(s.users)) || !Resolves(quizId, QuizIds(s.quizzes)) then
      Err(ForeignKeyViolation)
    else Ok(Inserted(s.(results := s.results + [row], serials := s.serials.(result := s.serials.result + 1)), row))
  }

  /** INSERT INTO responses. */
  function InsertResponse(s: Store, userId: Nullable<nat>, questionId: Nullable<nat>,
                          optionId: Nullable<nat>, submittedAt: Nullable<Timestamp>)
    : (r: Outcome<Inserted<Response>>)
    ensures Valid(s) ==>
      (r.Ok? <==> Valid(s.(responses := s.responses + [Response(s.serials.response, userId, questionId, optionId, submittedAt)],
                           serials := s.serials.(response := s.serials.response + 1))))
    ensures Valid(s) && r.Ok? ==> forall x :: x in s.responses ==> x.id != r.value.row.id
    ensures r.Err? <==>
      || !Resolves(userId, UserIds(s.users))
      || !Resolves(questionId, QuestionIds(s.questions))
      || !Resolves(optionId, OptionIds(s.options))
    ensures r.Err? ==> r.error == ForeignKeyViolation
    ensures r.Ok? ==>
      && r.value.row == Response(s.serials.response, userId, questionId, optionId, submittedAt)
      && r.value.store == s.(responses := s.responses + [r.value.row],
                             serials := s.serials.(response := s.serials.response + 1))
  {
    var row := Response(s.serials.response, userId, questionId, optionId, submittedAt);
    AppendResponse(s, row);
    if || !Resolves(userId, UserIds(s.users))
       || !Resolves(questionId, QuestionIds(s.questions))
       || !Resolves(optionId, OptionIds(s.options))
    then Err(ForeignKeyViolation)
    else Ok(Inserted(s.(responses := s.responses + [row],
                        serials := s.serials.(response := s.serials.response + 1)), row))
  }

  // What appending one row with the sequence's next id does to validity: the
  // row's own id is always fresh, so only its UNIQUE columns and foreign keys
  // can break a constraint.

  lemma AppendUser(s: Store, row: User)
    requires row.id == s.serials.user
    ensures Valid(s) ==>
      && row.id !in UserIds(s.users)
      && (Valid(s.(users := s.users + [row], serials := s.serials.(user := s.serials.user + 1))) <==>
            !exists u :: u in s.users && (u.username == row.username || u.email == row.email))
  {
    if Valid(s) {
      AppendUniqueIff(s.users, row, Username);
      AppendUniqueIff(s.users, row, UserEmail);
      AppendUnique(s.users, row, UserId);
    }
  }

  lemma AppendCourse(s: Store, row: Course)
    requires row.id == s.serials.course
    ensures Valid(s) ==>
      && row.id !in CourseIds(s.courses)
      && (Valid(s.(courses := s.courses + [row], serials := s.serials.(course := s.serials.course + 1))) <==>
            Resolves(row.createdBy, UserIds(s.users)))
  {
    if Valid(s) {
      AppendUnique(s.courses, row, CourseId);
      assert row in s.courses + [row];
    }
  }

  lemma AppendQuiz(s: Store, row: Quiz)
    requires row.id == s.serials.quiz
    ensures Valid(s) ==>
      && row.id !in QuizIds(s.quizzes)
      && (Valid(s.(quizzes := s.quizzes + [row], serials := s.serials.(quiz := s.serials.quiz + 1))) <==>
            Resolves(row.courseId, CourseIds(s.courses)) && Resolves(row.createdBy, UserIds(s.users)))
  {
    if Valid(s) {
      AppendUnique(s.quizzes, row, QuizId);
      assert row in s.quizzes + [row];
    }
  }

  lemma AppendTag(s: Store, row: Tag)
    requires row.id == s.serials.tag
    ensures Valid(s) ==>
      && row.id !in TagIds(s.tags)
      && (Valid(s.(tags := s.tags + [row], serials := s.serials.(tag := s.serials.tag + 1))) <==>
            !exists t :: t in s.tags && t.name == row.name)
  {
    if Valid(s) {
      AppendUniqueIff(s.tags, row, TagName);
      AppendUnique(s.tags, row, TagId);
    }
  }

  lemma AppendQuizTag(s: Store, link: QuizTag)
    ensures Valid(s) ==>
      (Valid(s.(quizTags := s.quizTags + [link])) <==>
         link !in s.quizTags && link.quizId in QuizIds(s.quizzes) && link.tagId in TagIds(s.tags))
  {
    if Valid(s) {
      DistinctSnoc(s.quizTags, link);
      assert link in s.quizTags + [link];
    }
  }

  lemma AppendQuestion(s: Store, row: Question)
    requires row.id == s.serials.question
    ensures Valid(s) ==>
      && row.id !in QuestionIds(s.questions)
      && (Valid(s.(questions := s.questions + [row], serials := s.serials.(question := s.serials.question + 1))) <==>
            Resolves(row.quizId, QuizIds(s.quizzes)))
  {
    if Valid(s) {
      AppendUnique(s.questions, row, QuestionId);
      assert row in s.questions + [row];
    }
  }

  lemma AppendOption(s: Store, row: Option)
    requires row.id == s.serials.option
    ensures Valid(s) ==>
      && row.id !in OptionIds(s.options)
      && (Valid(s.(options := s.options + [row], serials := s.serials.(option := s.serials.option + 1))) <==>
            Resolves(row.questionId, QuestionIds(s.questions)))
  {
    if Valid(s) {
      AppendUnique(s.options, row, OptionId);
      assert row in s.options + [row];
    }
  }

  lemma AppendResult(s: Store, row: Result)
    requires row.id == s.serials.result
    ensures Valid(s) ==>
      && (forall x :: x in s.results ==> x.id != row.id)
      && (Valid(s.(results := s.results + [row], serials := s.serials.(result := s.serials.result + 1))) <==>
            Resolves(row.userId, UserIds(s.users)) && Resolves(row.quizId, QuizIds(s.quizzes)))
  {
    if Valid(s) {
      AppendUnique(s.results, row, ResultId);
      assert row in s.results + [row];
    }
  }

  lemma AppendResponse(s: Store, row: Response)
    requires row.id == s.serials.response
    ensures Valid(s) ==>
      && (forall x :: x in s.responses ==> x.id != row.id)
      && (Valid(s.(responses := s.responses + [row], serials := s.serials.(response := s.serials.response + 1))) <==>
            && Resolves(row.userId, UserIds(s.users))
            && Resolves(row.questionId, QuestionIds(s.questions))
            && Resolves(row.optionId, OptionIds(s.options)))
  {
    if Valid(s) {
      AppendUnique(s.responses, row, ResponseId);
      assert row in s.responses + [row];
    }
  }
}
