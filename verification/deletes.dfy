/**
 DELETE FROM <table> WHERE id = ?, one operation per table, each applying the
 declared ON DELETE rules through the `Cascade.Delete` engine. Each operation's
 contract says what it does to every table; the lemmas after the operations
 prove those facts about the engine for the one row named.
 */
module Deletes {
  import opened Tables
  import opened Schema
  import opened Cascade

  /** The ids of the quizzes that belong to course `id`. */
  function QuizzesOf(s: Store, id: nat): set<nat> {
    set q | q in s.quizzes && q.courseId == NonNull(id) :: q.id
  }

  /** The ids of the questions of the quizzes `quizzes`. */
  function QuestionsOf(s: Store, quizzes: set<nat>): set<nat> {
    set q | q in s.questions && RefersTo(q.quizId, quizzes) :: q.id
  }

  /** The ids of the options of the questions `questions`. */
  function OptionsOf(s: Store, questions: set<nat>): set<nat> {
    set o | o in s.options && RefersTo(o.questionId, questions) :: o.id
  }

  /** The user goes, and so do exactly the results and responses whose
      user_id names it (CASCADE); created_by on that user's courses and
      quizzes becomes NULL (SET NULL), and nothing else changes. */
  function DeleteUser(s: Store, id: nat): (r: Store)
    ensures forall u :: u in r.users <==> u in s.users && u.id != id
    ensures forall x :: x in r.results <==> x in s.results && x.userId != NonNull(id)
    ensures forall x :: x in r.responses <==> x in s.responses && x.userId != NonNull(id)
    ensures |r.courses| == |s.courses|
    ensures forall i :: 0 <= i < |s.courses| ==>
      var c, c' := s.courses[i], r.courses[i];
      c'.createdBy == (if c.createdBy == NonNull(id) then Null else c.createdBy) && c' == c.(createdBy := c'.createdBy)
    ensures |r.quizzes| == |s.quizzes|
    ensures forall i :: 0 <= i < |s.quizzes| ==>
      var q, q' := s.quizzes[i], r.quizzes[i];
      q'.createdBy == (if q.createdBy == NonNull(id) then Null else q.createdBy) && q' == q.(createdBy := q'.createdBy)
    ensures r.tags == s.tags && r.quizTags == s.quizTags
    ensures r.questions == s.questions && r.options == s.options
    ensures r.serials == s.serials
    ensures RefConsistent(s) ==> RefConsistent(r)
    ensures Valid(s) ==> Valid(r)
  {
    var d := Nothing.(users := {id});
    DeletePreserves(s, d);
    UserCascades(s, id, d);
    UserClearsCourses(s, id, d);
    UserClearsQuizzes(s, id, d);
    UserLeavesContent(s, id, d);
    Delete(s, d)
  }

  /** The course goes, and so do exactly the quizzes whose course_id names it;
      the CASCADE continues to those quizzes' tag links, questions and results,
      and to the options of those questions and every response to them. A
      surviving response that chose a removed option keeps everything except
      option_id, which becomes NULL. Users and tags stay. */
  function DeleteCourse(s: Store, id: nat): (r: Store)
    ensures forall c :: c in r.courses <==> c in s.courses && c.id != id
    ensures forall q :: q in r.quizzes <==> q in s.quizzes && q.courseId != NonNull(id)
    ensures forall l :: l in r.quizTags <==> l in s.quizTags && l.quizId !in QuizzesOf(s, id)
    ensures forall x :: x in r.questions <==> x in s.questions && !RefersTo(x.quizId, QuizzesOf(s, id))
    ensures forall x :: x in r.results <==> x in s.results && !RefersTo(x.quizId, QuizzesOf(s, id))
    ensures forall o :: o in r.options <==>
      o in s.options && !RefersTo(o.questionId, QuestionsOf(s, QuizzesOf(s, id)))
    ensures forall x :: x in s.responses && !RefersTo(x.questionId, QuestionsOf(s, QuizzesOf(s, id))) ==>
      x.(optionId := Cleared(x.optionId, OptionsOf(s, QuestionsOf(s, QuizzesOf(s, id))))) in r.responses
    ensures forall x :: x in r.responses ==>
      && !RefersTo(x.questionId, QuestionsOf(s, QuizzesOf(s, id)))
      && !RefersTo(x.optionId, OptionsOf(s, QuestionsOf(s, QuizzesOf(s, id))))
      && exists x0 :: x0 in s.responses &&
           x == x0.(optionId := Cleared(x0.optionId, OptionsOf(s, QuestionsOf(s, QuizzesOf(s, id)))))
    ensures r.users == s.users && r.tags == s.tags
    ensures r.serials == s.serials
    ensures RefConsistent(s) ==> RefConsistent(r)
    ensures Valid(s) ==> Valid(r)
  {
    var d := Nothing.(courses := {id});
    DeletePreserves(s, d);
    CourseEffects(s, id, d);
    CourseCascades(s, id, d);
    CourseResponses(s, id, d);
    Delete(s, d)
  }

  /** The quiz goes, and so do exactly its quiz_tags rows, its questions, its
      results, the options of its questions and every response to them. A
      surviving response that chose a removed option keeps everything except
      option_id, which becomes NULL. Tags, courses and users stay. */
  function DeleteQuiz(s: Store, id: nat): (r: Store)
    ensures forall q :: q in r.quizzes <==> q in s.quizzes && q.id != id
    ensures forall l :: l in r.quizTags <==> l in s.quizTags && l.quizId != id
    ensures forall x :: x in r.questions <==> x in s.questions && x.quizId != NonNull(id)
    ensures forall x :: x in r.results <==> x in s.results && x.quizId != NonNull(id)
    ensures forall o :: o in r.options <==> o in s.options && !RefersTo(o.questionId, QuestionsOf(s, {id}))
    ensures forall x :: x in s.responses && !RefersTo(x.questionId, QuestionsOf(s, {id})) ==>
      x.(optionId := Cleared(x.optionId, OptionsOf(s, QuestionsOf(s, {id})))) in r.responses
    ensures forall x :: x in r.responses ==>
      && !RefersTo(x.questionId, QuestionsOf(s, {id}))
      && !RefersTo(x.optionId, OptionsOf(s, QuestionsOf(s, {id})))
      && exists x0 :: x0 in s.responses && x == x0.(optionId := Cleared(x0.optionId, OptionsOf(s, QuestionsOf(s, {id}))))
    ensures r.tags == s.tags && r.courses == s.courses && r.users == s.users
    ensures r.serials == s.serials
    ensures RefConsistent(s) ==> RefConsistent(r)
    ensures Valid(s) ==> Valid(r)
  {
    var d := Nothing.(quizzes := {id});
    DeletePreserves(s, d);
    QuizEffects(s, id, d);
    QuizResponses(s, id, d);
    Delete(s, d)
  }

  /** The tag goes, and so do exactly the quiz_tags rows naming it; the
      quizzes and every other table stay. */
  function DeleteTag(s: Store, id: nat): (r: Store)
    ensures forall t :: t in r.tags <==> t in s.tags && t.id != id
    ensures forall l :: l in r.quizTags <==> l in s.quizTags && l.tagId != id
    ensures r.quizzes == s.quizzes && r.users == s.users && r.courses == s.courses
    ensures r.questions == s.questions && r.options == s.options
    ensures r.results == s.results && r.responses == s.responses
    ensures r.serials == s.serials
    ensures RefConsistent(s) ==> RefConsistent(r)
    ensures Valid(s) ==> Valid(r)
  {
    var d := Nothing.(tags := {id});
    DeletePreserves(s, d);
    TagEffects(s, id, d);
    Delete(s, d)
  }

  /** DELETE FROM quiz_tags WHERE quiz_id = ? AND tag_id = ?: exactly that
      link goes, and no other table changes. */
  function DeleteQuizTag(s: Store, quizId: nat, tagId: nat): (r: Store)
    ensures forall l :: l in r.quizTags <==> l in s.quizTags && l != QuizTag(quizId, tagId)
    ensures r.quizzes == s.quizzes && r.tags == s.tags
    ensures r.users == s.users && r.courses == s.courses
    ensures r.questions == s.questions && r.options == s.options
    ensures r.results == s.results && r.responses == s.responses
    ensures r.serials == s.serials
    ensures RefConsistent(s) ==> RefConsistent(r)
    ensures Valid(s) ==> Valid(r)
  {
    var d := Nothing.(quizTags := {QuizTag(quizId, tagId)});
    DeletePreserves(s, d);
    QuizTagEffects(s, quizId, tagId, d);
    Delete(s, d)
  }

  /** The question goes, and so do exactly its options and every response to
      it; a surviving response that chose one of its options keeps everything
      except option_id, which becomes NULL. No other table changes. */
  function DeleteQuestion(s: Store, id: nat): (r: Store)
    ensures forall q :: q in r.questions <==> q in s.questions && q.id != id
    ensures forall o :: o in r.options <==> o in s.options && o.questionId != NonNull(id)
    ensures r.quizzes == s.quizzes && r.results == s.results
    ensures r.users == s.users && r.courses == s.courses
    ensures r.tags == s.tags && r.quizTags == s.quizTags
    ensures forall x :: x in s.responses && x.questionId != NonNull(id) ==>
      x.(optionId := Cleared(x.optionId, OptionsOf(s, {id}))) in r.responses
    ensures forall x :: x in r.responses ==>
      && x.questionId != NonNull(id)
      && !RefersTo(x.optionId, OptionsOf(s, {id}))
      && exists x0 :: x0 in s.responses && x == x0.(optionId := Cleared(x0.optionId, OptionsOf(s, {id})))
    ensures r.serials == s.serials
    ensures RefConsistent(s) ==> RefConsistent(r)
    ensures Valid(s) ==> Valid(r)
  {
    var d := Nothing.(questions := {id});
    DeletePreserves(s, d);
    QuestionEffects(s, id, d);
    QuestionResponses(s, id, d);
    Delete(s, d)
  }

  /** The option goes; option_id becomes NULL on the responses that chose it,
      no response is removed, and no other column or table changes. */
  function DeleteOption(s: Store, id: nat): (r: Store)
    ensures forall o :: o in r.options <==> o in s.options && o.id != id
    ensures |r.responses| == |s.responses|
    ensures forall i :: 0 <= i < |s.responses| ==>
      var x, x' := s.responses[i], r.responses[i];
      x'.optionId == (if x.optionId == NonNull(id) then Null else x.optionId) && x' == x.(optionId := x'.optionId)
    ensures r.users == s.users && r.courses == s.courses
    ensures r.quizzes == s.quizzes && r.tags == s.tags
    ensures r.quizTags == s.quizTags && r.questions == s.questions
    ensures r.results == s.results
    ensures r.serials == s.serials
    ensures RefConsistent(s) ==> RefConsistent(r)
    ensures Valid(s) ==> Valid(r)
  {
    var d := Nothing.(options := {id});
    DeletePreserves(s, d);
    OptionEffects(s, id, d);
    Delete(s, d)
  }

  /** Nothing references a result: deleting one removes that row only. */
  function DeleteResult(s: Store, id: nat): (r: Store)
    ensures forall x :: x in r.results <==> x in s.results && x.id != id
    ensures r.users == s.users && r.quizzes == s.quizzes && r.responses == s.responses
    ensures r.courses == s.courses && r.tags == s.tags && r.quizTags == s.quizTags
    ensures r.questions == s.questions && r.options == s.options
    ensures r.serials == s.serials
    ensures RefConsistent(s) ==> RefConsistent(r)
    ensures Valid(s) ==> Valid(r)
  {
    var d := Nothing.(results := {id});
    DeletePreserves(s, d);
    ResultEffects(s, id, d);
    Delete(s, d)
  }

  /** Nothing references a response: deleting one removes that row only. */
  function DeleteResponse(s: Store, id: nat): (r: Store)
    ensures forall x :: x in r.responses <==> x in s.responses && x.id != id
    ensures r.users == s.users && r.questions == s.questions
    ensures r.options == s.options && r.results == s.results
    ensures r.courses == s.courses && r.quizzes == s.quizzes
    ensures r.tags == s.tags && r.quizTags == s.quizTags
    ensures r.serials == s.serials
    ensures RefConsistent(s) ==> RefConsistent(r)
    ensures Valid(s) ==> Valid(r)
  {
    var d := Nothing.(responses := {id});
    DeletePreserves(s, d);
    ResponseEffects(s, id, d);
    Delete(s, d)
  }

  // The effects above, proved about the engine for the deletion each
  // operation builds.

  lemma UserCascades(s: Store, id: nat, d: Deletion)
    requires d == Nothing.(users := {id})
    ensures forall u :: u in Delete(s, d).users <==> u in s.users && u.id != id
    ensures forall x :: x in Delete(s, d).results <==> x in s.results && x.userId != NonNull(id)
    ensures forall x :: x in Delete(s, d).responses <==> x in s.responses && x.userId != NonNull(id)
  {
    NoChain(s, d);
    forall x: Result ensures ResultGoes(s, d, x) <==> x.userId == NonNull(id) { }
    forall x: Response ensures ResponseGoes(s, d, x) <==> x.userId == NonNull(id) { }
    var kept := Filter(s.responses, (x: Response) => !ResponseGoes(s, d, x));
    UpdateIdentity(kept, (x: Response) => x.(optionId := Cleared(x.optionId, GoneOptions(s, d))));
  }

  lemma UserClearsCourses(s: Store, id: nat, d: Deletion)
    requires d == Nothing.(users := {id})
    ensures |Delete(s, d).courses| == |s.courses|
    ensures forall i :: 0 <= i < |s.courses| ==>
      var c, c' := s.courses[i], Delete(s, d).courses[i];
      c'.createdBy == (if c.createdBy == NonNull(id) then Null else c.createdBy) && c' == c.(createdBy := c'.createdBy)
  {
    FilterAll(s.courses, (c: Course) => c.id !in d.courses);
  }

  lemma UserClearsQuizzes(s: Store, id: nat, d: Deletion)
    requires d == Nothing.(users := {id})
    ensures |Delete(s, d).quizzes| == |s.quizzes|
    ensures forall i :: 0 <= i < |s.quizzes| ==>
      var q, q' := s.quizzes[i], Delete(s, d).quizzes[i];
      q'.createdBy == (if q.createdBy == NonNull(id) then Null else q.createdBy) && q' == q.(createdBy := q'.createdBy)
  {
    FilterAll(s.quizzes, (q: Quiz) => !QuizGoes(d, q));
  }

  lemma UserLeavesContent(s: Store, id: nat, d: Deletion)
    requires d == Nothing.(users := {id})
    ensures Delete(s, d).tags == s.tags && Delete(s, d).quizTags == s.quizTags
    ensures Delete(s, d).questions == s.questions && Delete(s, d).options == s.options
  {
    NoChain(s, d);
    TagsUntouched(s, d);
    QuizTagsUntouched(s, d);
    QuestionsUntouched(s, d);
    OptionsUntouched(s, d);
  }

  lemma CourseEffects(s: Store, id: nat, d: Deletion)
    requires d == Nothing.(courses := {id})
    ensures forall c :: c in Delete(s, d).courses <==> c in s.courses && c.id != id
    ensures forall q :: q in Delete(s, d).quizzes <==> q in s.quizzes && q.courseId != NonNull(id)
    ensures Delete(s, d).users == s.users && Delete(s, d).tags == s.tags
  {
    forall q ensures QuizGoes(d, q) <==> q.courseId == NonNull(id) { }
    assert forall c :: c in Delete(s, d).courses <==> c in s.courses && c.id != id by {
      UpdateIdentity(Filter(s.courses, (c: Course) => c.id !in d.courses),
                     (c: Course) => c.(createdBy := Cleared(c.createdBy, d.users)));
    }
    assert forall q :: q in Delete(s, d).quizzes <==> q in s.quizzes && q.courseId != NonNull(id) by {
      UpdateIdentity(Filter(s.quizzes, (q: Quiz) => !QuizGoes(d, q)),
                     (q: Quiz) => q.(createdBy := Cleared(q.createdBy, d.users)));
    }
    assert Delete(s, d).users == s.users && Delete(s, d).tags == s.tags by {
      UsersUntouched(s, d);
      TagsUntouched(s, d);
    }
  }

  lemma CourseCascades(s: Store, id: nat, d: Deletion)
    requires d == Nothing.(courses := {id})
    ensures forall l :: l in Delete(s, d).quizTags <==> l in s.quizTags && l.quizId !in QuizzesOf(s, id)
    ensures forall x :: x in Delete(s, d).questions <==>
      x in s.questions && !RefersTo(x.quizId, QuizzesOf(s, id))
    ensures forall x :: x in Delete(s, d).results <==>
      x in s.results && !RefersTo(x.quizId, QuizzesOf(s, id))
    ensures forall o :: o in Delete(s, d).options <==>
      o in s.options && !RefersTo(o.questionId, QuestionsOf(s, QuizzesOf(s, id)))
  {
    assert GoneQuizzes(s, d) == QuizzesOf(s, id);
    assert GoneQuestions(s, d) == QuestionsOf(s, QuizzesOf(s, id));
  }

  lemma QuizEffects(s: Store, id: nat, d: Deletion)
    requires d == Nothing.(quizzes := {id})
    ensures forall q :: q in Delete(s, d).quizzes <==> q in s.quizzes && q.id != id
    ensures forall l :: l in Delete(s, d).quizTags <==> l in s.quizTags && l.quizId != id
    ensures forall x :: x in Delete(s, d).questions <==> x in s.questions && x.quizId != NonNull(id)
    ensures forall x :: x in Delete(s, d).results <==> x in s.results && x.quizId != NonNull(id)
    ensures forall o :: o in Delete(s, d).options <==>
      o in s.options && !RefersTo(o.questionId, QuestionsOf(s, {id}))
    ensures Delete(s, d).tags == s.tags
    ensures Delete(s, d).courses == s.courses && Delete(s, d).users == s.users
  {
    assert GoneQuizzes(s, d) == {id};
    assert GoneQuestions(s, d) == QuestionsOf(s, {id});
    forall q ensures QuizGoes(d, q) <==> q.id == id { }
    forall l ensures QuizTagGoes(s, d, l) <==> l.quizId == id { }
    forall x: Question ensures QuestionGoes(s, d, x) <==> x.quizId == NonNull(id) { }
    forall x: Result ensures ResultGoes(s, d, x) <==> x.quizId == NonNull(id) { }
    forall o ensures OptionGoes(s, d, o) <==> RefersTo(o.questionId, QuestionsOf(s, {id})) { }
    UpdateIdentity(Filter(s.quizzes, (q: Quiz) => !QuizGoes(d, q)),
                   (q: Quiz) => q.(createdBy := Cleared(q.createdBy, d.users)));
    UsersUntouched(s, d);
    CoursesUntouched(s, d);
    TagsUntouched(s, d);
  }

  lemma TagEffects(s: Store, id: nat, d: Deletion)
    requires d == Nothing.(tags := {id})
    ensures forall t :: t in Delete(s, d).tags <==> t in s.tags && t.id != id
    ensures forall l :: l in Delete(s, d).quizTags <==> l in s.quizTags && l.tagId != id
    ensures Delete(s, d).quizzes == s.quizzes
    ensures Delete(s, d).users == s.users && Delete(s, d).courses == s.courses
    ensures Delete(s, d).questions == s.questions && Delete(s, d).options == s.options
    ensures Delete(s, d).results == s.results && Delete(s, d).responses == s.responses
  {
    NoChain(s, d);
    forall l ensures QuizTagGoes(s, d, l) <==> l.tagId == id { }
    UsersUntouched(s, d);
    CoursesUntouched(s, d);
    QuizzesUntouched(s, d);
    QuestionsUntouched(s, d);
    OptionsUntouched(s, d);
    ResultsUntouched(s, d);
    ResponsesUntouched(s, d);
  }

  lemma QuizTagEffects(s: Store, quizId: nat, tagId: nat, d: Deletion)
    requires d == Nothing.(quizTags := {QuizTag(quizId, tagId)})
    ensures forall l :: l in Delete(s, d).quizTags <==> l in s.quizTags && l != QuizTag(quizId, tagId)
    ensures Delete(s, d).quizzes == s.quizzes && Delete(s, d).tags == s.tags
    ensures Delete(s, d).users == s.users && Delete(s, d).courses == s.courses
    ensures Delete(s, d).questions == s.questions && Delete(s, d).options == s.options
    ensures Delete(s, d).results == s.results && Delete(s, d).responses == s.responses
  {
    NoChain(s, d);
    forall l ensures QuizTagGoes(s, d, l) <==> l == QuizTag(quizId, tagId) { }
    QuizzesUntouched(s, d);
    TagsUntouched(s, d);
    UsersUntouched(s, d);
    CoursesUntouched(s, d);
    QuestionsUntouched(s, d);
    OptionsUntouched(s, d);
    ResultsUntouched(s, d);
    ResponsesUntouched(s, d);
  }

  lemma QuestionEffects(s: Store, id: nat, d: Deletion)
    requires d == Nothing.(questions := {id})
    ensures forall q :: q in Delete(s, d).questions <==> q in s.questions && q.id != id
    ensures forall o :: o in Delete(s, d).options <==> o in s.options && o.questionId != NonNull(id)
    ensures Delete(s, d).quizzes == s.quizzes && Delete(s, d).results == s.results
    ensures Delete(s, d).users == s.users && Delete(s, d).courses == s.courses
    ensures Delete(s, d).tags == s.tags && Delete(s, d).quizTags == s.quizTags
  {
    NoChain(s, d.(questions := {}));
    assert GoneQuizzes(s, d) == {};
    assert GoneQuestions(s, d) == {id};
    assert Delete(s, d).quizzes == s.quizzes && Delete(s, d).results == s.results by {
      QuizzesUntouched(s, d);
      ResultsUntouched(s, d);
    }
    assert Delete(s, d).users == s.users && Delete(s, d).courses == s.courses by {
      UsersUntouched(s, d);
      CoursesUntouched(s, d);
    }
    assert Delete(s, d).tags == s.tags && Delete(s, d).quizTags == s.quizTags by {
      TagsUntouched(s, d);
      QuizTagsUntouched(s, d);
    }
  }

  lemma QuestionResponses(s: Store, id: nat, d: Deletion)
    requires d == Nothing.(questions := {id})
    ensures forall x :: x in s.responses && x.questionId != NonNull(id) ==>
      x.(optionId := Cleared(x.optionId, OptionsOf(s, {id}))) in Delete(s, d).responses
    ensures forall x :: x in Delete(s, d).responses ==>
      && x.questionId != NonNull(id)
      && !RefersTo(x.optionId, OptionsOf(s, {id}))
      && exists x0 :: x0 in s.responses && x == x0.(optionId := Cleared(x0.optionId, OptionsOf(s, {id})))
  {
    NoChain(s, d.(questions := {}));
    var gone := OptionsOf(s, {id});
    assert GoneQuestions(s, d) == {id};
    assert GoneOptions(s, d) == gone;
    forall x: Response ensures ResponseGoes(s, d, x) <==> x.questionId == NonNull(id) { }
    FilterUpdateMembers(s.responses, (x: Response) => !ResponseGoes(s, d, x),
                        (x: Response) => x.(optionId := Cleared(x.optionId, GoneOptions(s, d))));
  }

  /** When the questions `qs` go and no user, option or response is named
      directly, the responses to `qs` go, and a surviving response that chose
      an option of `qs` has its option_id cleared. */
  lemma ResponsesAfter(s: Store, d: Deletion, qs: set<nat>)
    requires d.users == {} && d.options == {} && d.responses == {}
    requires GoneQuestions(s, d) == qs
    ensures forall x :: x in s.responses && !RefersTo(x.questionId, qs) ==>
      x.(optionId := Cleared(x.optionId, OptionsOf(s, qs))) in Delete(s, d).responses
    ensures forall x :: x in Delete(s, d).responses ==>
      && !RefersTo(x.questionId, qs)
      && !RefersTo(x.optionId, OptionsOf(s, qs))
      && exists x0 :: x0 in s.responses && x == x0.(optionId := Cleared(x0.optionId, OptionsOf(s, qs)))
  {
    assert GoneOptions(s, d) == OptionsOf(s, qs);
    forall x: Response ensures ResponseGoes(s, d, x) <==> RefersTo(x.questionId, qs) { }
    FilterUpdateMembers(s.responses, (x: Response) => !ResponseGoes(s, d, x),
                        (x: Response) => x.(optionId := Cleared(x.optionId, GoneOptions(s, d))));
  }

  lemma CourseResponses(s: Store, id: nat, d: Deletion)
    requires d == Nothing.(courses := {id})
    ensures forall x :: x in s.responses && !RefersTo(x.questionId, QuestionsOf(s, QuizzesOf(s, id))) ==>
      x.(optionId := Cleared(x.optionId, OptionsOf(s, QuestionsOf(s, QuizzesOf(s, id))))) in Delete(s, d).responses
    ensures forall x :: x in Delete(s, d).responses ==>
      && !RefersTo(x.questionId, QuestionsOf(s, QuizzesOf(s, id)))
      && !RefersTo(x.optionId, OptionsOf(s, QuestionsOf(s, QuizzesOf(s, id))))
      && exists x0 :: x0 in s.responses &&
           x == x0.(optionId := Cleared(x0.optionId, OptionsOf(s, QuestionsOf(s, QuizzesOf(s, id)))))
  {
    assert GoneQuizzes(s, d) == QuizzesOf(s, id);
    assert GoneQuestions(s, d) == QuestionsOf(s, QuizzesOf(s, id));
    ResponsesAfter(s, d, QuestionsOf(s, QuizzesOf(s, id)));
  }

  lemma QuizResponses(s: Store, id: nat, d: Deletion)
    requires d == Nothing.(quizzes := {id})
    ensures forall x :: x in s.responses && !RefersTo(x.questionId, QuestionsOf(s, {id})) ==>
      x.(optionId := Cleared(x.optionId, OptionsOf(s, QuestionsOf(s, {id})))) in Delete(s, d).responses
    ensures forall x :: x in Delete(s, d).responses ==>
      && !RefersTo(x.questionId, QuestionsOf(s, {id}))
      && !RefersTo(x.optionId, OptionsOf(s, QuestionsOf(s, {id})))
      && exists x0 :: x0 in s.responses && x == x0.(optionId := Cleared(x0.optionId, OptionsOf(s, QuestionsOf(s, {id}))))
  {
    assert GoneQuizzes(s, d) == {id};
    assert GoneQuestions(s, d) == QuestionsOf(s, {id});
    ResponsesAfter(s, d, QuestionsOf(s, {id}));
  }

  lemma OptionEffects(s: Store, id: nat, d: Deletion)
    requires d == Nothing.(options := {id})
    ensures forall o :: o in Delete(s, d).options <==> o in s.options && o.id != id
    ensures |Delete(s, d).responses| == |s.responses|
    ensures forall i :: 0 <= i < |s.responses| ==>
      var x, x' := s.responses[i], Delete(s, d).responses[i];
      x'.optionId == (if x.optionId == NonNull(id) then Null else x.optionId) && x' == x.(optionId := x'.optionId)
    ensures Delete(s, d).users == s.users && Delete(s, d).courses == s.courses
    ensures Delete(s, d).quizzes == s.quizzes && Delete(s, d).tags == s.tags
    ensures Delete(s, d).quizTags == s.quizTags && Delete(s, d).questions == s.questions
    ensures Delete(s, d).results == s.results
  {
    NoChain(s, d.(options := {}));
    assert GoneQuizzes(s, d) == {};
    assert GoneQuestions(s, d) == {};
    assert GoneOptions(s, d) == {id};
    FilterAll(s.responses, (x: Response) => !ResponseGoes(s, d, x));
    UsersUntouched(s, d);
    CoursesUntouched(s, d);
    QuizzesUntouched(s, d);
    TagsUntouched(s, d);
    QuizTagsUntouched(s, d);
    QuestionsUntouched(s, d);
    ResultsUntouched(s, d);
  }

  lemma ResultEffects(s: Store, id: nat, d: Deletion)
    requires d == Nothing.(results := {id})
    ensures forall x :: x in Delete(s, d).results <==> x in s.results && x.id != id
    ensures Delete(s, d).users == s.users && Delete(s, d).quizzes == s.quizzes
    ensures Delete(s, d).responses == s.responses
    ensures Delete(s, d).courses == s.courses && Delete(s, d).tags == s.tags
    ensures Delete(s, d).quizTags == s.quizTags
    ensures Delete(s, d).questions == s.questions && Delete(s, d).options == s.options
  {
    NoChain(s, d);
    forall x: Result ensures ResultGoes(s, d, x) <==> x.id == id { }
    assert Delete(s, d).courses == s.courses && Delete(s, d).tags == s.tags by {
      CoursesUntouched(s, d);
      TagsUntouched(s, d);
    }
    assert Delete(s, d).quizTags == s.quizTags by {
      QuizTagsUntouched(s, d);
    }
    assert Delete(s, d).questions == s.questions && Delete(s, d).options == s.options by {
      QuestionsUntouched(s, d);
      OptionsUntouched(s, d);
    }
    assert Delete(s, d).users == s.users && Delete(s, d).quizzes == s.quizzes by {
      UsersUntouched(s, d);
      QuizzesUntouched(s, d);
    }
    assert Delete(s, d).responses == s.responses by {
      ResponsesUntouched(s, d);
    }
  }

  lemma ResponseEffects(s: Store, id: nat, d: Deletion)
    requires d == Nothing.(responses := {id})
    ensures forall x :: x in Delete(s, d).responses <==> x in s.responses && x.id != id
    ensures Delete(s, d).users == s.users && Delete(s, d).questions == s.questions
    ensures Delete(s, d).options == s.options && Delete(s, d).results == s.results
    ensures Delete(s, d).courses == s.courses && Delete(s, d).quizzes == s.quizzes
    ensures Delete(s, d).tags == s.tags && Delete(s, d).quizTags == s.quizTags
  {
    NoChain(s, d);
    forall x: Response ensures ResponseGoes(s, d, x) <==> x.id == id { }
    assert Delete(s, d).courses == s.courses && Delete(s, d).quizzes == s.quizzes by {
      CoursesUntouched(s, d);
      QuizzesUntouched(s, d);
    }
    assert Delete(s, d).tags == s.tags && Delete(s, d).quizTags == s.quizTags by {
      TagsUntouched(s, d);
      QuizTagsUntouched(s, d);
    }
    assert forall x :: x in Delete(s, d).responses <==> x in s.responses && x.id != id by {
      var kept := Filter(s.responses, (x: Response) => !ResponseGoes(s, d, x));
      UpdateIdentity(kept, (x: Response) => x.(optionId := Cleared(x.optionId, GoneOptions(s, d))));
    }
    assert Delete(s, d).users == s.users && Delete(s, d).questions == s.questions by {
      UsersUntouched(s, d);
      QuestionsUntouched(s, d);
    }
    assert Delete(s, d).options == s.options && Delete(s, d).results == s.results by {
      OptionsUntouched(s, d);
      ResultsUntouched(s, d);
    }
  }
}
