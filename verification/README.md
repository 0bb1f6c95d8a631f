# Quiz platform schema and seeding pipeline, in Dafny

This project models two parts of an educational quiz platform that stores its data in PostgreSQL through SQLAlchemy.

1. **The relational schema and its delete rules.**
   - The schema has eight entity tables: users, courses, quizzes, tags, questions, options, results and responses.
   - A ninth table, `quiz_tags`, links quizzes to tags.
   - The model records every table's columns, which columns may be NULL, the primary keys, the UNIQUE columns (user name, e-mail, tag name) and the composite key of the link table.
   - It also records each foreign key's `ON DELETE` rule, CASCADE or SET NULL.
2. **The seeding script.**
   - Nine stages fill the database with fake users, courses, quizzes, tags, quiz-tag links, questions, options, results and responses.
   - The stages run in dependency order, and each one commits before the next begins.

The database is an immutable value, `Schema.Store`, with one sequence per table and one SERIAL counter per table that has a surrogate key.

- **INSERT** of each table is a pure function. It either rejects the row with the integrity error the database would raise, or appends the row with the next id.
- **DELETE** of each table is a pure function. It goes through one engine, `Cascade.Delete`, which applies the declared `ON DELETE` rules transitively:
  - it removes every row that reaches a deleted row through a CASCADE chain;
  - it sets to NULL every SET NULL column that names a removed row.

The fake-data library is replaced by an explicit oracle, `Fake.Oracle`:

- the k-th call the script makes reads position k;
- `random_element(xs)` is `xs[n % |xs|]` for the number `n` at that position;
- `random_int(lo, hi)` is `lo + n % (hi - lo + 1)`.

Every general property below holds for every oracle, so nothing depends on a distribution. The possibility lemmas (`Seeding.QuizMayEndBeforeStart`, `Seeding.CourseMayGetNoQuiz`, `Seeding.CorrectnessIsUnconstrained`, `Seeding.ResponseOptionMayBelongElsewhere` and `Seeding.RepeatedTagAborts`) each exhibit one oracle that produces the behaviour.

Each stage is built in two parts:

- a closed-form description of the rows its loops build (module `Draws`, with the nested-loop arithmetic in `Grid`);
- an all-or-none write of those rows through the table's INSERT (module `Flush`, which models one `commit`).

`Pipeline.MainSeeding` folds the nine stages. The first stage that fails ends the run. That stage's own rows are rolled back, and what the earlier stages committed stays.

Modules, in dependency order:

| module | file | contents |
|---|---|---|
| `Tables` | tables.dfy | generic sequence facts: uniqueness by a key, filtering, concatenation, consecutive numbering |
| `Schema` | schema.dfy | the record types, the store, the constraint predicates (`RefConsistent`, `KeysUnique`, `Valid`) and the INSERTs |
| `Cascade` | cascade.dfy | the delete engine and its preservation lemmas |
| `Deletes` | deletes.dfy | `DELETE ... WHERE id = ?` for each table, and what each one does to the other tables |
| `Fake` | fake.dfy | the oracle |
| `Grid` | grid.dfy | row-major enumeration of a nested loop |
| `Draws` | draws.dfy | the rows each stage builds, as reference definitions |
| `Flush` | flush.dfy | a stage's commit: its INSERTs in order, all or none |
| `Seeding` | seeding.dfy | the nine `seed_*` stages |
| `Pipeline` | pipeline.dfy | `main_seeding` |

## Model

| member | source | states |
|---|---|---|
| Schema.InsertUser | src/models.py:24-30 | on a valid store, a user is accepted exactly when the store with it appended still meets every constraint, and the id it gets belongs to no stored user; a refusal is a unique violation, raised exactly when a stored user already has its user name or e-mail; an accepted user is stored with the next id of the user sequence |
| Schema.InsertCourse | src/models.py:39-45 | on a valid store, a course is accepted exactly when the store with it appended still meets every constraint, and its id is fresh; a refusal is a foreign-key violation, raised exactly when its non-NULL creator is not a stored user |
| Schema.InsertQuiz | src/models.py:52-60 | on a valid store, a quiz is accepted exactly when the store with it appended still meets every constraint, and its id is fresh; a refusal is a foreign-key violation, raised exactly when its non-NULL course or creator is not stored; nothing relates its start and end times |
| Schema.InsertTag | src/models.py:77-80 | on a valid store, a tag is accepted exactly when the store with it appended still meets every constraint, and its id is fresh; a refusal is a unique violation, raised exactly when its name is already taken |
| Schema.InsertQuizTag | src/models.py:71-74 | on a valid store, a link is accepted exactly when the store with it appended still meets every constraint; it is refused with a unique violation when the pair is already linked (the composite primary key), and otherwise with a foreign-key violation when it names a missing quiz or tag |
| Schema.InsertQuestion | src/models.py:86-91 | on a valid store, a question is accepted exactly when the store with it appended still meets every constraint, and its id is fresh; a refusal is a foreign-key violation, raised exactly when its non-NULL quiz is not stored |
| Schema.InsertOption | src/models.py:98-103 | on a valid store, an option is accepted exactly when the store with it appended still meets every constraint, and its id is fresh; a refusal is a foreign-key violation, raised exactly when its non-NULL question is not stored |
| Schema.InsertResult | src/models.py:109-115 | on a valid store, a result is accepted exactly when the store with it appended still meets every constraint, and its id is fresh; a refusal is a foreign-key violation, raised exactly when its non-NULL user or quiz is not stored |
| Schema.InsertResponse | src/models.py:122-128 | on a valid store, a response is accepted exactly when the store with it appended still meets every constraint, and its id is fresh; a refusal is a foreign-key violation, raised exactly when its non-NULL user, question or option is not stored |
| Schema.AppendUser | src/models.py:24-30 | on a valid store, appending a user with the sequence's next id keeps every constraint exactly when no stored user has its user name or e-mail (the two UNIQUE columns); the id is fresh |
| Schema.AppendCourse | src/models.py:39-45 | on a valid store, appending a course with the next id keeps every constraint exactly when its created_by is NULL or names a stored user |
| Schema.AppendQuiz | src/models.py:52-60 | on a valid store, appending a quiz with the next id keeps every constraint exactly when its course_id and created_by each are NULL or name a stored row |
| Schema.AppendTag | src/models.py:77-80 | on a valid store, appending a tag with the next id keeps every constraint exactly when no stored tag has its name (the UNIQUE column) |
| Schema.AppendQuizTag | src/models.py:71-74 | on a valid store, appending a link keeps every constraint exactly when the pair is not linked yet and both halves name stored rows |
| Schema.AppendQuestion | src/models.py:86-91 | on a valid store, appending a question with the next id keeps every constraint exactly when its quiz_id is NULL or names a stored quiz |
| Schema.AppendOption | src/models.py:98-103 | on a valid store, appending an option with the next id keeps every constraint exactly when its question_id is NULL or names a stored question |
| Schema.AppendResult | src/models.py:109-115 | on a valid store, appending a result with the next id keeps every constraint exactly when its user_id and quiz_id each are NULL or name a stored row |
| Schema.AppendResponse | src/models.py:122-128 | on a valid store, appending a response with the next id keeps every constraint exactly when its user_id, question_id and option_id each are NULL or name a stored row |
| Cascade.DeleteKeepsRefConsistent | src/models.py:44-127 | deleting any set of rows under the declared ON DELETE rules leaves no foreign key naming a missing row |
| Cascade.DeleteKeepsKeysUnique | src/models.py:26-80 | a delete never makes two rows share a primary key or a UNIQUE column |
| Cascade.DeleteKeepsSerialsAhead | src/models.py:26-124 | a delete does not rewind any sequence, so no id is handed out twice |
| Cascade.DeleteKeepsValid | src/models.py:24-133 | a delete takes a valid store to a valid store |
| Cascade.DeletePreserves | src/models.py:24-133 | the two preservation facts above, stated for any store |
| Deletes.DeleteUser | src/models.py:24-125 | deleting a user removes that user and exactly the results and responses whose user_id names it; created_by on that user's courses and quizzes becomes NULL, no course or quiz is removed and no other column changes; tags, links, questions and options stay, no sequence is rewound, and a consistent store stays consistent and a valid store valid |
| Deletes.DeleteCourse | src/models.py:39-127 | deleting a course removes it and exactly the quizzes whose course_id names it, those quizzes' tag links, questions and results, the options of those questions and every response to them; a surviving response that chose a removed option keeps everything except option_id, which becomes NULL; users and tags stay, no sequence is rewound, and consistency and validity are kept |
| Deletes.DeleteQuiz | src/models.py:52-127 | deleting a quiz removes it and exactly its quiz_tags rows, its questions, its results, its questions' options and every response to its questions; a surviving response that chose a removed option keeps everything except option_id, which becomes NULL; tags, courses and users stay, no sequence is rewound, and consistency and validity are kept |
| Deletes.DeleteTag | src/models.py:71-83 | deleting a tag removes it and exactly the quiz_tags rows naming it; every other table stays, no sequence is rewound, and consistency and validity are kept |
| Deletes.DeleteQuizTag | src/models.py:71-74 | unlinking removes exactly that one (quiz_id, tag_id) pair; every other table stays, no sequence is rewound, and consistency and validity are kept |
| Deletes.DeleteQuestion | src/models.py:86-127 | deleting a question removes it, exactly its options and every response to it; a surviving response that chose one of its options keeps everything except option_id, which becomes NULL; every other table stays, no sequence is rewound, and consistency and validity are kept |
| Deletes.DeleteOption | src/models.py:98-127 | deleting an option removes it and sets option_id to NULL on the responses that chose it; no response is removed, no other column or table changes, no sequence is rewound, and consistency and validity are kept |
| Deletes.DeleteResult | src/models.py:109-119 | nothing references a result: deleting one removes that row only, every other table stays, no sequence is rewound, and consistency and validity are kept |
| Deletes.DeleteResponse | src/models.py:122-133 | nothing references a response: deleting one removes that row only, every other table stays, no sequence is rewound, and consistency and validity are kept |
| Draws.DrawnUsers | src/simulate_data.py:14-26 | seed_users builds exactly num_users users, numbered consecutively, each with role student or teacher |
| Draws.DrawnCourses | src/simulate_data.py:29-40 | seed_courses builds exactly num_courses courses, each created by a user of the pool it was given; an empty pool with courses to make is excluded by the caller |
| Draws.DrawnQuizzes | src/simulate_data.py:43-57 | seed_quizzes builds num_quizzes quizzes in all, each on a course and by a user of the pools |
| Draws.DrawnTags | src/simulate_data.py:60-69 | seed_tags builds exactly num_tags tags, numbered consecutively |
| Draws.DrawGroup | src/simulate_data.py:73-78 | a quiz gets one to three links, each naming that quiz and a tag of the pool; drawn without replacement they never repeat a tag |
| Draws.DrawQuizTags | src/simulate_data.py:72-80 | one group of one to three links per quiz, in quiz order, each naming its own quiz |
| Draws.QuizTagLinks | src/simulate_data.py:72-80 | the whole link batch has between one and three rows per quiz, each naming a quiz and a tag of the pools |
| Draws.DrawLinksDistinct | src/simulate_data.py:74-77 | tags drawn one after another from the tags not drawn yet give distinct links |
| Draws.DrawQuestion | src/simulate_data.py:87-91 | a question belongs to the quiz of its loop round and has type multiple_choice or true_false |
| Draws.QuestionRows | src/simulate_data.py:83-95 | seed_questions builds the number of quizzes times num_questions questions, numbered consecutively |
| Draws.QuestionRowsPeel | src/simulate_data.py:85-93 | the closed form is the nested loop: the first quiz's round followed by the run over the other quizzes |
| Draws.QuestionsPerQuiz | src/simulate_data.py:83-95 | each quiz owns a block of num_questions consecutive questions; every question names a quiz of the pool and has one of the two types |
| Draws.OptionRows | src/simulate_data.py:98-109 | seed_options builds four options per question, numbered consecutively |
| Draws.OptionRowsPeel | src/simulate_data.py:100-108 | the closed form is the nested loop over questions and four options |
| Draws.OptionsPerQuestionBlock | src/simulate_data.py:98-109 | each question owns a block of four consecutive options, and every option names a question of the pool |
| Draws.DrawResult | src/simulate_data.py:116-121 | a result is of its round's user and step's quiz, with a total score in [0, 100] |
| Draws.ResultRows | src/simulate_data.py:112-124 | seed_results builds the number of users times the number of quizzes results, numbered consecutively |
| Draws.ResultRowsPeel | src/simulate_data.py:114-123 | the closed form is the nested loop over users then quizzes |
| Draws.ResultsPerPair | src/simulate_data.py:114-121 | every (user, quiz) pair of the pools gets a result |
| Draws.ResultsFromPools | src/simulate_data.py:112-124 | every result names a user and a quiz of the pools and has a score in [0, 100] |
| Draws.ResultsOncePerPair | src/simulate_data.py:114-121 | over pools with distinct ids, no pair gets a second result |
| Draws.DrawResponse | src/simulate_data.py:130-135 | a response is of its round's user and step's question, names an option of the whole option pool and has a submission time |
| Draws.ResponseRows | src/simulate_data.py:127-137 | seed_responses builds the number of users times the number of questions responses, numbered consecutively |
| Draws.ResponseRowsPeel | src/simulate_data.py:128-136 | the closed form is the nested loop over users then questions |
| Draws.ResponsesPerPair | src/simulate_data.py:128-135 | every (user, question) pair of the pools gets a response |
| Draws.ResponsesFromPools | src/simulate_data.py:127-137 | every response names a user and a question of the pools and an option of the option pool |
| Draws.ResponsesOncePerPair | src/simulate_data.py:128-135 | over pools with distinct ids, no pair gets a second response |
| Flush.FlushUsers | src/simulate_data.py:23-25 | committing pending users fails only on a unique violation and otherwise stores exactly those users after the existing ones |
| Flush.FlushUsersIffFresh | src/models.py:27-28 | the commit succeeds iff user names and e-mails stay unique over the old and new rows together |
| Flush.FlushCourses | src/simulate_data.py:37-39 | committing pending courses fails, with a foreign-key violation, exactly when one names a missing creator |
| Flush.FlushQuizzes | src/simulate_data.py:54-56 | committing pending quizzes fails exactly when one names a missing course or creator |
| Flush.FlushTags | src/simulate_data.py:66-68 | committing pending tags fails only on a unique violation and otherwise stores them all |
| Flush.FlushTagsIffFresh | src/models.py:80 | the commit succeeds iff tag names stay unique over the old and new rows together |
| Flush.FlushLinks | src/simulate_data.py:75-80 | on a table with no repeated pair, the link statements all succeed iff every link names stored rows and no pair repeats; with stored rows, only a unique violation can stop them |
| Flush.FlushQuestions | src/simulate_data.py:92-94 | committing pending questions fails exactly when one names a missing quiz |
| Flush.FlushOptions | src/simulate_data.py:107-109 | committing pending options fails exactly when one names a missing question |
| Flush.FlushResults | src/simulate_data.py:122-124 | committing pending results fails exactly when one names a missing user or quiz |
| Flush.FlushResponses | src/simulate_data.py:136-137 | committing pending responses fails exactly when one names a missing user, question or option |
| Flush.FlushUsersKeepsValid | src/simulate_data.py:23-25 | a successful user commit keeps a valid store valid |
| Flush.FlushCoursesKeepsValid | src/simulate_data.py:37-39 | a successful course commit keeps a valid store valid |
| Flush.FlushQuizzesKeepsValid | src/simulate_data.py:54-56 | a successful quiz commit keeps a valid store valid |
| Flush.FlushTagsKeepsValid | src/simulate_data.py:66-68 | a successful tag commit keeps a valid store valid |
| Flush.FlushLinksKeepsValid | src/simulate_data.py:75-80 | successful link statements keep a valid store valid |
| Flush.FlushQuestionsKeepsValid | src/simulate_data.py:92-94 | a successful question commit keeps a valid store valid |
| Flush.FlushOptionsKeepsValid | src/simulate_data.py:107-109 | a successful option commit keeps a valid store valid |
| Flush.FlushResultsKeepsValid | src/simulate_data.py:122-124 | a successful result commit keeps a valid store valid |
| Flush.FlushResponsesKeepsValid | src/simulate_data.py:136-137 | a successful response commit keeps a valid store valid |
| Seeding.SeedUsers | src/simulate_data.py:14-26 | seed_users fails only on a unique violation; otherwise it stores and returns its num_users drawn users and moves the oracle on by four calls per user |
| Seeding.SeedUsersIffFresh | src/simulate_data.py:14-26 | seed_users fails iff a drawn user name or e-mail is taken or drawn twice |
| Seeding.SeedUsersKeepsValid | src/simulate_data.py:14-26 | seed_users keeps a valid store valid |
| Seeding.SeedCourses | src/simulate_data.py:29-40 | seed_courses never hits a unique violation; it fails on an empty user pool exactly when it has courses to make; with stored users it succeeds otherwise |
| Seeding.SeedCoursesKeepsValid | src/simulate_data.py:29-40 | seed_courses keeps a valid store valid |
| Seeding.SeedQuizzes | src/simulate_data.py:43-57 | seed_quizzes fails on an empty pool exactly when it has quizzes to make and no course or no user; with stored pools it succeeds otherwise and stores num_quizzes quizzes in all |
| Seeding.SeedQuizzesKeepsValid | src/simulate_data.py:43-57 | seed_quizzes keeps a valid store valid |
| Seeding.QuizMayEndBeforeStart | src/simulate_data.py:51-52 | start and end time are drawn independently, so some oracle gives a quiz that ends before it starts |
| Seeding.CourseMayGetNoQuiz | src/simulate_data.py:45-49 | each quiz draws its course independently, so with two courses some oracle leaves one without a quiz |
| Seeding.SeedTags | src/simulate_data.py:60-69 | seed_tags fails only on a unique violation and otherwise stores its num_tags drawn tags |
| Seeding.SeedTagsIffFresh | src/simulate_data.py:60-69 | seed_tags fails iff a drawn tag name is taken or drawn twice |
| Seeding.SeedTagsKeepsValid | src/simulate_data.py:60-69 | seed_tags keeps a valid store valid |
| Seeding.SeedQuizTags | src/simulate_data.py:72-80 | seed_quiz_tags fails on an empty pool exactly when there are quizzes and no tags; otherwise it stores the drawn links, one to three per quiz |
| Seeding.SeedQuizTagsKeepsValid | src/simulate_data.py:72-80 | seed_quiz_tags keeps a valid store valid |
| Seeding.LinksDistinct | src/models.py:71-74 | links of distinct fresh quizzes repeat a pair iff the table already did or one quiz's own group repeats a tag |
| Seeding.QuizTagsFailOnRepeat | src/simulate_data.py:72-80 | on the pools main_seeding passes, seed_quiz_tags never breaks a foreign key, and it fails iff tags are missing or some quiz draws one tag twice |
| Seeding.RepeatedTagAborts | src/simulate_data.py:74-77 | as written, an oracle of ones makes the first quiz link one tag twice, and the stage ends in a unique violation |
| Seeding.SampledTagsNeverRepeat | src/simulate_data.py:74-77 | with each quiz's tags drawn without replacement, the stage fails only when there are quizzes and no tags |
| Seeding.SeedQuestions | src/simulate_data.py:83-95 | seed_questions fails only on a foreign key; otherwise it stores the number of quizzes times num_questions questions |
| Seeding.SeedQuestionsKeepsValid | src/simulate_data.py:83-95 | seed_questions keeps a valid store valid |
| Seeding.SeedQuestionsFail | src/simulate_data.py:83-95 | seed_questions fails iff it makes questions and some quiz of its pool is not stored |
| Seeding.SeedOptions | src/simulate_data.py:98-109 | seed_options fails only on a foreign key; otherwise it stores four options per question |
| Seeding.SeedOptionsKeepsValid | src/simulate_data.py:98-109 | seed_options keeps a valid store valid |
| Seeding.SeedOptionsFail | src/simulate_data.py:98-109 | seed_options fails iff some question of its pool is not stored |
| Seeding.CorrectnessIsUnconstrained | src/simulate_data.py:101-104 | is_correct is drawn per option: some oracle marks no option correct and another marks every option correct |
| Seeding.SeedResults | src/simulate_data.py:112-124 | seed_results fails only on a foreign key; otherwise it stores one result per (user, quiz) pair |
| Seeding.SeedResultsKeepsValid | src/simulate_data.py:112-124 | seed_results keeps a valid store valid |
| Seeding.SeedResultsFail | src/simulate_data.py:112-124 | seed_results fails iff a user of its pool is missing while there are quizzes, or a quiz is missing while there are users |
| Seeding.SeedResponses | src/simulate_data.py:127-137 | seed_responses fails on an empty option pool exactly when there are users and questions; otherwise, barring a foreign key, it stores one response per (user, question) pair |
| Seeding.SeedResponsesKeepsValid | src/simulate_data.py:127-137 | seed_responses keeps a valid store valid |
| Seeding.SeedResponsesFail | src/simulate_data.py:127-137 | with a stored option pool, seed_responses fails iff it must draw from an empty pool, or a user or question of its pools is missing while the other pool is not empty |
| Seeding.ResponseOptionMayBelongElsewhere | src/simulate_data.py:133 | the option is drawn from all options, so a response may name an option of another question |
| Pipeline.Step | src/simulate_data.py:140-166 | a stage only appends rows: every table of the store before it is a prefix of the same table after it |
| Pipeline.RunFrom | src/simulate_data.py:140-166 | the stages from a given one on only append rows, and a run that stops names one of those stages |
| Pipeline.MainSeeding | src/simulate_data.py:140-166 | main_seeding only appends rows: what earlier stages committed stays even when a later stage fails |
| Pipeline.StepReady | src/simulate_data.py:140-166 | each stage, given the pools the earlier stages returned, leaves a store ready for the next stage and fails only in an allowed way |
| Pipeline.StepCounts | src/simulate_data.py:140-166 | each committed stage grows its table by exactly what it was asked to make |
| Pipeline.RunValid | src/simulate_data.py:140-166 | a run from any ready stage ends on a valid store |
| Pipeline.RunStops | src/simulate_data.py:140-166 | a run from any ready stage stops only on a unique clash of drawn rows or an empty pool |
| Pipeline.RunCounts | src/simulate_data.py:140-166 | a completed run from any stage has grown every table by what the remaining stages make |
| Pipeline.MainSeedingKeepsValid | src/simulate_data.py:140-166 | main_seeding leaves a valid database valid whether it completes or stops; it never stops on a foreign key, only on a clash of drawn unique values or an empty pool |
| Pipeline.MainSeedingSizes | src/simulate_data.py:140-166 | a completed run adds the configured users, courses, quizzes and tags, one to three links per quiz, num_questions questions per quiz, four options per question, one result per user and quiz, and one response per user and question |
| Pipeline.DefaultsStopOnlyOnClash | src/simulate_data.py:140-166 | with the default sizes, a run stops only on a unique violation in seed_users, seed_tags or seed_quiz_tags, and never in seed_quiz_tags when tags are drawn without replacement |
| Pipeline.CoursesWithoutUsers | src/simulate_data.py:142-145 | asked for courses but no users, the run stops in seed_courses on its empty pool and writes nothing |
| Pipeline.UsersStep | src/simulate_data.py:142 | a committed seed_users returns num_users stored users and leaves the tags alone |
| Pipeline.CoursesStep | src/simulate_data.py:145 | on a non-empty stored user pool, seed_courses commits and returns num_courses stored courses |
| Pipeline.QuizzesStep | src/simulate_data.py:148 | on non-empty stored user and course pools, seed_quizzes commits and leaves the tags alone |
| Pipeline.ReachTags | src/simulate_data.py:142-151 | asked for at least one user and one course, once seed_users commits, the first three stages all commit and seed_tags starts on the original tags, after the oracle calls they made |
| Pipeline.DefaultsReachTags | src/simulate_data.py:142-151 | at the default sizes the first three stages read 85 oracle positions before seed_tags |
| Pipeline.UsersStepIffFresh | src/simulate_data.py:142 | the first stage commits iff its drawn user names and e-mails are fresh |
| Pipeline.TagsStepIffFresh | src/simulate_data.py:151 | seed_tags commits iff its drawn tag names are fresh |
| Pipeline.DefaultsPastTags | src/simulate_data.py:154-166 | at the default sizes, with tags drawn without replacement, a run that gets past seed_tags completes |
| Pipeline.DefaultsCompleteIffFresh | src/simulate_data.py:140-166 | at the default sizes, with tags drawn without replacement, main_seeding completes iff its ten drawn users and five drawn tag names are fresh |

## Left out

- Loading credentials from the environment, the connection string, engine creation and `create_all` (src/models.py:4-18, 136-141). These are I/O and configuration.
- The session itself: `sessionmaker`, `add`, `execute`, `commit` and `close` (src/simulate_data.py:7-8, 175).
  - A stage's writes are one transaction: either all are stored or none are.
  - The exception a failed commit raises is modelled as the run stopping.
- The text content of fake data: names, e-mails, passwords, phrases and words. Each is an opaque string read from the oracle.
- Dates from `date_time_this_year` are opaque numbers from the oracle.
- Probabilities: nothing says how likely a clash of drawn values is.
- `datetime.utcnow` for `courses.created_at`. It is the parameter `now` of the stages.
- The ORM relationships and their session-level `cascade="all, delete-orphan"` (src/models.py:33-36, 49, 65, 67, 95).
  - On a user's courses and quizzes, the ORM cascade contradicts the database's SET NULL (src/models.py:44, 58).
  - The model follows the database's `ON DELETE` rules.
- Column length limits: `String(255)`, `String(100)`, `String(50)`. Strings are unbounded.
- Integer width. Every id, every foreign key and `total_score` is a 32-bit `Integer` column (src/models.py:26-127).
  - The model uses unbounded `nat` and `int`, and the SERIAL counters in `Schema.Serials` are unbounded.
  - Past 2147483647, `nextval` raises an error. The model has no such error, so no INSERT fails because a sequence is exhausted.
- `print`, the `__main__` guard and `session.close`.
- The order of `session.query(Option).all()`. Without ORDER BY it is unspecified; the model uses insertion order.
  - Every property of `Seeding.SeedResponses` holds for any pool of stored options.
  - Only which option a given oracle picks depends on this order.
- Sequence values used by a rolled-back stage.
  - PostgreSQL does not give back values that `nextval` handed out. The model leaves each sequence where it was when a stage fails.
  - This changes only the ids of a later run.
- The link inserts of `seed_quiz_tags` are executed one at a time. The model draws all of them and then writes them.
  - When one fails the run stops, so the oracle calls that would have followed are never observed.
- `main_seeding` always calls the stages with their default sizes. `Pipeline.MainSeeding` takes the sizes as a `Config`, and `Pipeline.Defaults` holds the defaults: 10 users, 5 courses, 5 quizzes, 5 tags and 5 questions per quiz.
- Nullability follows the code.
  - In the code these foreign keys are nullable: questions.quiz_id, options.question_id, results.user_id, results.quiz_id, responses.user_id and responses.question_id.
  - The seeding script never writes NULL into them.
- Pipeline.DefaultsCompleteIffFresh: the exact completion condition is stated only for tags drawn without replacement, the corrected sampling.
  - For the code as written, `Pipeline.DefaultsStopOnlyOnClash` limits where the run can stop.
  - `Seeding.QuizTagsFailOnRepeat` gives the link stage's own condition.
- Pipeline.MainSeedingSizes: the number of quiz-tag links is given as a range (one to three per quiz). The exact number depends on the oracle.

## Findings

| source | as written | input that shows it | evidently intended | confidence | as-written member | corrected member |
|---|---|---|---|---|---|---|
| src/simulate_data.py:74-77 | each of a quiz's one to three tags is drawn with `random_element`, with replacement, although `quiz_tags` has the pair (quiz_id, tag_id) as its primary key | an oracle that returns 1 for every number, with at least one quiz and one tag: the first quiz draws two links, both to the same tag, so the second INSERT violates the primary key and main_seeding stops in seed_quiz_tags | each quiz gets distinct tags, drawn without replacement and capped at the number of tags | not executed | Seeding.RepeatedTagAborts | Seeding.SampledTagsNeverRepeat |

`Draws.Sampling` selects between the two behaviours.

- `Draws.DrawLinks` is the draw as written.
- `Draws.DrawLinksDistinct` is the corrected draw.
- The pipeline theorems are stated for both behaviours where they hold for both, and `Pipeline.DefaultsCompleteIffFresh` uses the corrected one.
