/**
 * The database schema (drizzle/schema.ts) as a store of immutable tables:
 * the four enums with their stored spellings, one row type per table the
 * application uses, the primary keys, the unique e-mail, the foreign keys
 * with their cascading deletes, and the defaults of a new progress row.
 *
 * A table is a map from primary key to row. Statements are functions from a
 * store to a new store; a statement the constraints reject yields `Failure`
 * and leaves nothing changed.
 */
module Schema {
  import opened Wrappers
  import opened Conversation

  // ---------------------------------------------------------------- enums

  /** `course_level`. */
  datatype CourseLevel = A1 | A2 | B1 | B2

  function LevelName(l: CourseLevel): string
  {
    match l
    case A1 => "A1"
    case A2 => "A2"
    case B1 => "B1"
    case B2 => "B2"
  }

  function ParseLevel(s: string): (r: Option<CourseLevel>)
    ensures r.Some? ==> LevelName(r.value) == s
    ensures r.None? <==> s != "A1" && s != "A2" && s != "B1" && s != "B2"
  {
    if s == "A1" then Some(A1)
    else if s == "A2" then Some(A2)
    else if s == "B1" then Some(B1)
    else if s == "B2" then Some(B2)
    else None
  }

  lemma LevelRoundTrip(l: CourseLevel)
    ensures ParseLevel(LevelName(l)) == Some(l)
  {
  }

  /** `debate_difficulty`. */
  datatype Difficulty = Easy | Medium | Hard

  function DifficultyName(d: Difficulty): string
  {
    match d
    case Easy => "easy"
    case Medium => "medium"
    case Hard => "hard"
  }

  function ParseDifficulty(s: string): (r: Option<Difficulty>)
    ensures r.Some? ==> DifficultyName(r.value) == s
    ensures r.None? <==> s != "easy" && s != "medium" && s != "hard"
  {
    if s == "easy" then Some(Easy)
    else if s == "medium" then Some(Medium)
    else if s == "hard" then Some(Hard)
    else None
  }

  lemma DifficultyRoundTrip(d: Difficulty)
    ensures ParseDifficulty(DifficultyName(d)) == Some(d)
  {
  }

  /** `speaker_type`, whose values are the two speakers of a conversation. */
  function SpeakerName(s: Speaker): string
  {
    match s
    case User => "user"
    case Ai => "ai"
  }

  function ParseSpeaker(s: string): (r: Option<Speaker>)
    ensures r.Some? ==> SpeakerName(r.value) == s
    ensures r.None? <==> s != "user" && s != "ai"
  {
    if s == "user" then Some(User) else if s == "ai" then Some(Ai) else None
  }

  lemma SpeakerRoundTrip(s: Speaker)
    ensures ParseSpeaker(SpeakerName(s)) == Some(s)
  {
  }

  /** `user_role`. */
  datatype UserRole = Learner | Admin

  function RoleName(r: UserRole): string
  {
    match r
    case Learner => "user"
    case Admin => "admin"
  }

  function ParseRole(s: string): (r: Option<UserRole>)
    ensures r.Some? ==> RoleName(r.value) == s
    ensures r.None? <==> s != "user" && s != "admin"
  {
    if s == "user" then Some(Learner) else if s == "admin" then Some(Admin) else None
  }

  lemma RoleRoundTrip(r: UserRole)
    ensures ParseRole(RoleName(r)) == Some(r)
  {
  }

  // ---------------------------------------------------------------- rows

  /**
   * A `jsonb` column: SQL NULL, a JSON value of the expected shape, or a JSON
   * string (a value that was stored already serialised, which readers parse).
   */
  datatype Jsonb<T> = JNull | JValue(value: T) | JString(text: string)

  /** The values a Postgres `integer` column accepts: signed 32-bit. */
  predicate InIntegerRange(n: int)
  {
    -0x8000_0000 <= n < 0x8000_0000
  }

  /** A nullable `integer` column accepts NULL and any signed 32-bit value. */
  predicate FitsInteger(n: Option<int>)
  {
    n.None? || InIntegerRange(n.value)
  }

  datatype ConversationRow = ConversationRow(
    id: string, lessonId: Option<string>, title: string,
    description: Option<string>, scenario: Option<string>)

  datatype TurnRow = TurnRow(
    id: string, conversationId: string, role: string, text: string,
    textByLang: Jsonb<LangMap>, romanizationByLang: Jsonb<LangMap>, orderIndex: int)

  /** A debate topic; `rating` is `numeric(3, 1)` held in tenths, timestamps as instants. */
  datatype TopicRow = TopicRow(
    id: string, title: string, description: Option<string>, category: Option<string>,
    level: Option<CourseLevel>,
    proArguments: Jsonb<seq<string>>, conArguments: Jsonb<seq<string>>,
    vocabularyTips: Jsonb<seq<string>>, phrasesSuggested: Jsonb<seq<string>>,
    duration: Option<int>, difficulty: Option<Difficulty>, participants: Option<int>,
    rating: Option<int>, isFeatured: Option<bool>, createdAt: Option<int>)

  datatype SessionRow = SessionRow(
    id: string, topicId: Option<string>, userId: Option<string>,
    score: Option<int>, xpEarned: Option<int>)

  datatype UserRow = UserRow(
    id: string, name: string, email: string, avatar: Option<string>,
    role: Option<UserRole>, password: Option<string>)

  datatype MessageRow = MessageRow(id: string, sessionId: string, speaker: Speaker, content: Option<string>)

  datatype CourseRow = CourseRow(
    id: string, title: string, description: Option<string>, level: Option<CourseLevel>,
    category: Option<string>, thumbnail: Option<string>, duration: Option<int>,
    lessonsCount: Option<int>, instructor: Option<string>, xpReward: Option<int>,
    enrollmentCount: Option<int>, rating: Option<int>, ratingCount: Option<int>,
    isTrending: Option<bool>, createdAt: Option<int>)

  datatype LessonRow = LessonRow(
    id: string, courseId: Option<string>, title: string, description: Option<string>,
    content: Option<string>, duration: Option<int>, videoUrl: Option<string>,
    elementOrder: Option<int>, conversationId: Option<string>)

  datatype ProgressRow = ProgressRow(
    userId: string, totalXp: Option<int>, streak: Option<int>,
    completedCourses: Option<int>, completedDebates: Option<int>, level: Option<CourseLevel>)

  /** Every `integer` column of a course row holds a value Postgres accepts. */
  predicate CourseFits(c: CourseRow)
  {
    FitsInteger(c.duration) && FitsInteger(c.lessonsCount) && FitsInteger(c.xpReward)
    && FitsInteger(c.enrollmentCount) && FitsInteger(c.ratingCount)
  }

  /** Every `integer` column of a lesson row holds a value Postgres accepts. */
  predicate LessonFits(l: LessonRow)
  {
    FitsInteger(l.duration) && FitsInteger(l.elementOrder)
  }

  predicate SessionFits(s: SessionRow)
  {
    FitsInteger(s.score) && FitsInteger(s.xpEarned)
  }

  predicate ProgressFits(p: ProgressRow)
  {
    FitsInteger(p.totalXp) && FitsInteger(p.streak)
    && FitsInteger(p.completedCourses) && FitsInteger(p.completedDebates)
  }

  /** A `user_progress` row inserted with only its key: every counter 0 and level A1. */
  function NewProgress(userId: string): (p: ProgressRow)
    ensures p.userId == userId
    ensures p.totalXp == Some(0) && p.streak == Some(0)
    ensures p.completedCourses == Some(0) && p.completedDebates == Some(0)
    ensures p.level == Some(A1)
  {
    ProgressRow(userId, Some(0), Some(0), Some(0), Some(0), Some(A1))
  }

  // ---------------------------------------------------------------- the store

  datatype Db = Db(
    conversations: map<string, ConversationRow>,
    turns: map<string, TurnRow>,
    topics: map<string, TopicRow>,
    sessions: map<string, SessionRow>,
    users: map<string, UserRow>,
    messages: map<string, MessageRow>,
    courses: map<string, CourseRow>,
    lessons: map<string, LessonRow>,
    progress: map<string, ProgressRow>)

  function EmptyDb(): Db
  {
    Db(map[], map[], map[], map[], map[], map[], map[], map[], map[])
  }

  /** Every row is stored under its own primary key. */
  predicate Keyed(db: Db)
  {
    (forall k :: k in db.conversations ==> db.conversations[k].id == k)
    && (forall k :: k in db.turns ==> db.turns[k].id == k)
    && (forall k :: k in db.topics ==> db.topics[k].id == k)
    && (forall k :: k in db.sessions ==> db.sessions[k].id == k)
    && (forall k :: k in db.users ==> db.users[k].id == k)
    && (forall k :: k in db.messages ==> db.messages[k].id == k)
    && (forall k :: k in db.courses ==> db.courses[k].id == k)
    && (forall k :: k in db.lessons ==> db.lessons[k].id == k)
    && (forall k :: k in db.progress ==> db.progress[k].userId == k)
  }

  /** `fk_turns_conversation`. */
  predicate TurnsReferenced(db: Db)
  {
    forall k :: k in db.turns ==> db.turns[k].conversationId in db.conversations
  }

  /** `fk_lessons_course`: a lesson's course, when set, exists. */
  predicate LessonsReferenced(db: Db)
  {
    forall k :: k in db.lessons ==> db.lessons[k].courseId.None? || db.lessons[k].courseId.value in db.courses
  }

  /** `fk_debate_sessions_topic` and `fk_debate_sessions_user`. */
  predicate SessionsReferenced(db: Db)
  {
    forall k :: k in db.sessions ==>
      (db.sessions[k].topicId.None? || db.sessions[k].topicId.value in db.topics)
      && (db.sessions[k].userId.None? || db.sessions[k].userId.value in db.users)
  }

  /** `fk_messages_session`. */
  predicate MessagesReferenced(db: Db)
  {
    forall k :: k in db.messages ==> db.messages[k].sessionId in db.sessions
  }

  /** `fk_user_progress_user`. */
  predicate ProgressReferenced(db: Db)
  {
    forall k :: k in db.progress ==> k in db.users
  }

  /** `users_email_key`: no two users share an e-mail. */
  predicate UniqueEmails(db: Db)
  {
    forall a, b :: a in db.users && b in db.users && db.users[a].email == db.users[b].email ==> a == b
  }

  /** The constraints every committed state satisfies. */
  predicate Consistent(db: Db)
  {
    Keyed(db) && TurnsReferenced(db) && LessonsReferenced(db) && SessionsReferenced(db)
    && MessagesReferenced(db) && ProgressReferenced(db) && UniqueEmails(db)
  }

  lemma EmptyDbConsistent()
    ensures Consistent(EmptyDb())
  {
  }

  // ---------------------------------------------------------------- inserts

  const DuplicateKey: string := "duplicate key value violates unique constraint"
  const ForeignKeyViolation: string := "insert or update violates foreign key constraint"
  const OutOfRange: string := "integer out of range"

  function InsertConversation(db: Db, row: ConversationRow): (r: Result<Db>)
    ensures r.Failure? <==> row.id in db.conversations
    ensures r.Success? ==> r.value == db.(conversations := db.conversations[row.id := row])
  {
    if row.id in db.conversations then Failure(DuplicateKey)
    else Success(db.(conversations := db.conversations[row.id := row]))
  }

  function InsertTurn(db: Db, row: TurnRow): (r: Result<Db>)
    ensures r.Failure? <==> row.id in db.turns || row.conversationId !in db.conversations
    ensures r.Success? ==> r.value == db.(turns := db.turns[row.id := row])
  {
    if row.id in db.turns then Failure(DuplicateKey)
    else if row.conversationId !in db.conversations then Failure(ForeignKeyViolation)
    else Success(db.(turns := db.turns[row.id := row]))
  }

  function InsertCourse(db: Db, row: CourseRow): (r: Result<Db>)
    ensures r.Failure? <==> row.id in db.courses || !CourseFits(row)
    ensures r.Success? ==> r.value == db.(courses := db.courses[row.id := row])
  {
    if !CourseFits(row) then Failure(OutOfRange)
    else if row.id in db.courses then Failure(DuplicateKey)
    else Success(db.(courses := db.courses[row.id := row]))
  }

  function InsertLesson(db: Db, row: LessonRow): (r: Result<Db>)
    ensures r.Failure? <==>
      row.id in db.lessons || (row.courseId.Some? && row.courseId.value !in db.courses) || !LessonFits(row)
    ensures r.Success? ==> r.value == db.(lessons := db.lessons[row.id := row])
  {
    if !LessonFits(row) then Failure(OutOfRange)
    else if row.id in db.lessons then Failure(DuplicateKey)
    else if row.courseId.Some? && row.courseId.value !in db.courses then Failure(ForeignKeyViolation)
    else Success(db.(lessons := db.lessons[row.id := row]))
  }

  function InsertUser(db: Db, row: UserRow): (r: Result<Db>)
    ensures r.Failure? <==> row.id in db.users || exists k :: k in db.users && db.users[k].email == row.email
    ensures r.Success? ==> r.value == db.(users := db.users[row.id := row])
  {
    if row.id in db.users then Failure(DuplicateKey)
    else if exists k :: k in db.users && db.users[k].email == row.email then Failure(DuplicateKey)
    else Success(db.(users := db.users[row.id := row]))
  }

  function InsertProgress(db: Db, row: ProgressRow): (r: Result<Db>)
    ensures r.Failure? <==> row.userId in db.progress || row.userId !in db.users || !ProgressFits(row)
    ensures r.Success? ==> r.value == db.(progress := db.progress[row.userId := row])
  {
    if !ProgressFits(row) then Failure(OutOfRange)
    else if row.userId in db.progress then Failure(DuplicateKey)
    else if row.userId !in db.users then Failure(ForeignKeyViolation)
    else Success(db.(progress := db.progress[row.userId := row]))
  }

  function InsertSession(db: Db, row: SessionRow): (r: Result<Db>)
    ensures r.Failure? <==> row.id in db.sessions
                            || (row.topicId.Some? && row.topicId.value !in db.topics)
                            || (row.userId.Some? && row.userId.value !in db.users)
                            || !SessionFits(row)
    ensures r.Success? ==> r.value == db.(sessions := db.sessions[row.id := row])
  {
    if !SessionFits(row) then Failure(OutOfRange)
    else if row.id in db.sessions then Failure(DuplicateKey)
    else if row.topicId.Some? && row.topicId.value !in db.topics then Failure(ForeignKeyViolation)
    else if row.userId.Some? && row.userId.value !in db.users then Failure(ForeignKeyViolation)
    else Success(db.(sessions := db.sessions[row.id := row]))
  }

  function InsertMessage(db: Db, row: MessageRow): (r: Result<Db>)
    ensures r.Failure? <==> row.id in db.messages || row.sessionId !in db.sessions
    ensures r.Success? ==> r.value == db.(messages := db.messages[row.id := row])
  {
    if row.id in db.messages then Failure(DuplicateKey)
    else if row.sessionId !in db.sessions then Failure(ForeignKeyViolation)
    else Success(db.(messages := db.messages[row.id := row]))
  }

  lemma InsertUserConsistent(db: Db, row: UserRow)
    requires Consistent(db) && InsertUser(db, row).Success?
    ensures Consistent(InsertUser(db, row).value)
  {
  }

  lemma InsertProgressConsistent(db: Db, row: ProgressRow)
    requires Consistent(db) && InsertProgress(db, row).Success?
    ensures Consistent(InsertProgress(db, row).value)
  {
  }

  lemma InsertTurnConsistent(db: Db, row: TurnRow)
    requires Consistent(db) && InsertTurn(db, row).Success?
    ensures Consistent(InsertTurn(db, row).value)
  {
  }

  lemma InsertLessonConsistent(db: Db, row: LessonRow)
    requires Consistent(db) && InsertLesson(db, row).Success?
    ensures Consistent(InsertLesson(db, row).value)
  {
  }

  lemma InsertSessionConsistent(db: Db, row: SessionRow)
    requires Consistent(db) && InsertSession(db, row).Success?
    ensures Consistent(InsertSession(db, row).value)
  {
  }

  lemma InsertMessageConsistent(db: Db, row: MessageRow)
    requires Consistent(db) && InsertMessage(db, row).Success?
    ensures Consistent(InsertMessage(db, row).value)
  {
  }

  // ---------------------------------------------------------------- updates

  /**
   * `UPDATE courses SET … WHERE id = $id`: replaces the row with that key, if
   * any. The bound values are converted to the column types before any row is
   * looked at, so an out-of-range integer fails even when no row matches.
   */
  function UpdateCourse(db: Db, id: string, row: CourseRow): (r: Result<Db>)
    requires row.id == id
    ensures r.Failure? <==> !CourseFits(row)
    ensures r.Success? && id in db.courses ==> r.value == db.(courses := db.courses[id := row])
    ensures r.Success? && id !in db.courses ==> r.value == db
  {
    if !CourseFits(row) then Failure(OutOfRange)
    else if id in db.courses then Success(db.(courses := db.courses[id := row]))
    else Success(db)
  }

  /**
   * `UPDATE lessons SET … WHERE id = $id`; an out-of-range integer fails
   * whatever the key, and a course that does not exist violates the foreign key.
   */
  function UpdateLesson(db: Db, id: string, row: LessonRow): (r: Result<Db>)
    requires row.id == id
    ensures r.Failure? <==>
      !LessonFits(row) || (id in db.lessons && row.courseId.Some? && row.courseId.value !in db.courses)
    ensures r.Success? && id in db.lessons ==> r.value == db.(lessons := db.lessons[id := row])
    ensures r.Success? && id !in db.lessons ==> r.value == db
  {
    if !LessonFits(row) then Failure(OutOfRange)
    else if id !in db.lessons then Success(db)
    else if row.courseId.Some? && row.courseId.value !in db.courses then Failure(ForeignKeyViolation)
    else Success(db.(lessons := db.lessons[id := row]))
  }

  function UpdateConversation(db: Db, id: string, row: ConversationRow): (db': Db)
    requires row.id == id
    ensures id in db.conversations ==> db'.conversations == db.conversations[id := row]
    ensures id !in db.conversations ==> db' == db
    ensures db'.turns == db.turns && db'.conversations.Keys == db.conversations.Keys
  {
    if id in db.conversations then db.(conversations := db.conversations[id := row]) else db
  }

  /**
   * `SET lessons_count = lessons_count + 1 WHERE id = $id`: SQL arithmetic,
   * so a NULL count stays NULL and a count at the `integer` maximum raises
   * "integer out of range"; no row with that key changes nothing.
   */
  function IncrementLessonsCount(db: Db, courseId: string): (r: Result<Db>)
    ensures r.Failure? <==> courseId in db.courses && CountAtLimit(db.courses[courseId])
    ensures r.Success? ==> r.value == db.(courses := r.value.courses)
    ensures r.Success? && courseId !in db.courses ==> r.value == db
    ensures r.Success? && courseId in db.courses ==>
      r.value.courses == db.courses[courseId := Bump(db.courses[courseId]).value]
  {
    if courseId !in db.courses then Success(db)
    else match Bump(db.courses[courseId])
      case None => Failure(OutOfRange)
      case Some(c) => Success(db.(courses := db.courses[courseId := c]))
  }

  /** One more lesson would take a (non-NULL) count past the `integer` maximum. */
  predicate CountAtLimit(c: CourseRow)
  {
    c.lessonsCount.Some? && !InIntegerRange(c.lessonsCount.value + 1)
  }

  /** One more lesson on a course row; a NULL count stays NULL, and an overflow is an error. */
  function Bump(c: CourseRow): (r: Option<CourseRow>)
    ensures r.None? <==> CountAtLimit(c)
    ensures r.Some? ==> r.value == c.(lessonsCount := r.value.lessonsCount)
    ensures r.Some? ==> (c.lessonsCount.None? <==> r.value.lessonsCount.None?)
    ensures r.Some? && c.lessonsCount.Some? ==> r.value.lessonsCount.value == c.lessonsCount.value + 1
  {
    if c.lessonsCount.None? then Some(c)
    else if !InIntegerRange(c.lessonsCount.value + 1) then None
    else Some(c.(lessonsCount := Some(c.lessonsCount.value + 1)))
  }

  /** Adding or rewriting course rows under their own keys keeps the constraints. */
  lemma CoursesChangedConsistent(db: Db, courses: map<string, CourseRow>)
    requires Consistent(db)
    requires db.courses.Keys <= courses.Keys
    requires forall k :: k in courses ==> courses[k].id == k
    ensures Consistent(db.(courses := courses))
  {
  }

  /** Adding or rewriting lesson rows under their own keys, each pointing at an existing course or none, keeps the constraints. */
  lemma LessonsChangedConsistent(db: Db, lessons: map<string, LessonRow>)
    requires Consistent(db)
    requires forall k :: k in lessons ==> lessons[k].id == k
    requires forall k :: k in lessons ==> lessons[k].courseId.None? || lessons[k].courseId.value in db.courses
    ensures Consistent(db.(lessons := lessons))
  {
  }

  /** Adding or rewriting conversation rows under their own keys keeps the constraints. */
  lemma ConversationsChangedConsistent(db: Db, conversations: map<string, ConversationRow>)
    requires Consistent(db)
    requires db.conversations.Keys <= conversations.Keys
    requires forall k :: k in conversations ==> conversations[k].id == k
    ensures Consistent(db.(conversations := conversations))
  {
  }

  lemma UpdateCourseConsistent(db: Db, id: string, row: CourseRow)
    requires Consistent(db) && row.id == id && UpdateCourse(db, id, row).Success?
    ensures Consistent(UpdateCourse(db, id, row).value)
  {
  }

  lemma UpdateLessonConsistent(db: Db, id: string, row: LessonRow)
    requires Consistent(db) && row.id == id && UpdateLesson(db, id, row).Success?
    ensures Consistent(UpdateLesson(db, id, row).value)
  {
  }

  lemma IncrementLessonsCountConsistent(db: Db, courseId: string)
    requires Consistent(db) && IncrementLessonsCount(db, courseId).Success?
    ensures Consistent(IncrementLessonsCount(db, courseId).value)
  {
  }

  // ---------------------------------------------------------------- deletes and cascades

  /** `DELETE FROM lesson_conversations WHERE id = $id`; its turns go with it. */
  function DeleteConversation(db: Db, id: string): (db': Db)
    ensures db'.conversations == db.conversations - {id}
    ensures db'.turns == map k | k in db.turns && db.turns[k].conversationId != id :: db.turns[k]
    ensures db'.lessons == db.lessons && db'.courses == db.courses && db'.users == db.users
  {
    db.(conversations := db.conversations - {id},
        turns := map k | k in db.turns && db.turns[k].conversationId != id :: db.turns[k])
  }

  /** `DELETE FROM courses WHERE id = $id`; lessons of that course go with it. */
  function DeleteCourse(db: Db, id: string): (db': Db)
    ensures db'.courses == db.courses - {id}
    ensures db'.lessons == map k | k in db.lessons && db.lessons[k].courseId != Some(id) :: db.lessons[k]
    ensures db'.conversations == db.conversations && db'.turns == db.turns
  {
    db.(courses := db.courses - {id},
        lessons := map k | k in db.lessons && db.lessons[k].courseId != Some(id) :: db.lessons[k])
  }

  /** `DELETE FROM lessons WHERE id = $id`: no cascade, no counter. */
  function DeleteLesson(db: Db, id: string): (db': Db)
    ensures db'.lessons == db.lessons - {id}
    ensures db' == db.(lessons := db.lessons - {id})
  {
    db.(lessons := db.lessons - {id})
  }

  /** Removes the sessions with the given keys and, by `fk_messages_session`, their messages. */
  function DeleteSessions(db: Db, doomed: set<string>): (db': Db)
    ensures db'.sessions == db.sessions - doomed
    ensures db'.messages == map k | k in db.messages && db.messages[k].sessionId !in doomed :: db.messages[k]
  {
    db.(sessions := db.sessions - doomed,
        messages := map k | k in db.messages && db.messages[k].sessionId !in doomed :: db.messages[k])
  }

  function SessionsOfTopic(db: Db, topicId: string): set<string>
  {
    set k | k in db.sessions && db.sessions[k].topicId == Some(topicId)
  }

  function SessionsOfUser(db: Db, userId: string): set<string>
  {
    set k | k in db.sessions && db.sessions[k].userId == Some(userId)
  }

  /** `DELETE FROM debate_sessions WHERE id = $id`. */
  function DeleteSession(db: Db, id: string): (db': Db)
  {
    DeleteSessions(db, {id})
  }

  /** `DELETE FROM debate_topics WHERE id = $id`: its sessions and their messages go with it. */
  function DeleteTopic(db: Db, id: string): (db': Db)
  {
    DeleteSessions(db, SessionsOfTopic(db, id)).(topics := db.topics - {id})
  }

  /** `DELETE FROM users WHERE id = $id`: its sessions, their messages and its progress row go with it. */
  function DeleteUser(db: Db, id: string): (db': Db)
  {
    DeleteSessions(db, SessionsOfUser(db, id)).(users := db.users - {id}, progress := db.progress - {id})
  }

  lemma DeleteConversationConsistent(db: Db, id: string)
    requires Consistent(db)
    ensures Consistent(DeleteConversation(db, id))
  {
  }

  /** Deleting a conversation leaves no turn of it, and every other conversation's turns intact. */
  lemma DeleteConversationCascades(db: Db, id: string)
    ensures var db' := DeleteConversation(db, id);
            (forall k :: k in db'.turns ==> db'.turns[k].conversationId != id)
            && (forall k :: k in db.turns && db.turns[k].conversationId != id ==> k in db'.turns && db'.turns[k] == db.turns[k])
  {
  }

  lemma DeleteCourseConsistent(db: Db, id: string)
    requires Consistent(db)
    ensures Consistent(DeleteCourse(db, id))
  {
  }

  /** Deleting a course leaves no lesson of it, and every other lesson intact. */
  lemma DeleteCourseCascades(db: Db, id: string)
    ensures var db' := DeleteCourse(db, id);
            (forall k :: k in db'.lessons ==> db'.lessons[k].courseId != Some(id))
            && (forall k :: k in db.lessons && db.lessons[k].courseId != Some(id) ==> k in db'.lessons && db'.lessons[k] == db.lessons[k])
  {
  }

  lemma DeleteSessionsConsistent(db: Db, doomed: set<string>)
    requires Consistent(db)
    ensures Consistent(DeleteSessions(db, doomed))
  {
  }

  lemma DeleteTopicConsistent(db: Db, id: string)
    requires Consistent(db)
    ensures Consistent(DeleteTopic(db, id))
  {
    DeleteSessionsConsistent(db, SessionsOfTopic(db, id));
    DropTopicConsistent(DeleteSessions(db, SessionsOfTopic(db, id)), id);
  }

  /** Once no session refers to a topic, the topic can go. */
  lemma DropTopicConsistent(db: Db, id: string)
    requires Consistent(db)
    requires forall k :: k in db.sessions ==> db.sessions[k].topicId != Some(id)
    ensures Consistent(db.(topics := db.topics - {id}))
  {
  }

  lemma DeleteUserConsistent(db: Db, id: string)
    requires Consistent(db)
    ensures Consistent(DeleteUser(db, id))
  {
    var d := DeleteSessions(db, SessionsOfUser(db, id));
    DeleteSessionsConsistent(db, SessionsOfUser(db, id));
    DropUserConsistent(d, id);
  }

  /** Once no session refers to a user, the user and its progress row can go. */
  lemma DropUserConsistent(db: Db, id: string)
    requires Consistent(db)
    requires forall k :: k in db.sessions ==> db.sessions[k].userId != Some(id)
    ensures Consistent(db.(users := db.users - {id}, progress := db.progress - {id}))
  {
  }

  /**
   * Deleting a user removes its sessions, every message of those sessions and
   * its progress row; sessions of other users and their messages stay.
   */
  lemma DeleteUserCascades(db: Db, id: string)
    requires Consistent(db)
    ensures var db' := DeleteUser(db, id);
            id !in db'.users && id !in db'.progress
            && (forall k :: k in db'.sessions ==> db'.sessions[k].userId != Some(id))
            && (forall k :: k in db'.messages ==> db'.messages[k].sessionId in db'.sessions)
            && (forall k :: k in db.sessions && db.sessions[k].userId != Some(id) ==> k in db'.sessions)
            && (forall k :: k in db.messages && db.sessions[db.messages[k].sessionId].userId != Some(id) ==> k in db'.messages)
  {
    DeleteUserConsistent(db, id);
  }

  /** Deleting a topic removes its sessions and their messages. */
  lemma DeleteTopicCascades(db: Db, id: string)
    requires Consistent(db)
    ensures var db' := DeleteTopic(db, id);
            id !in db'.topics
            && (forall k :: k in db'.sessions ==> db'.sessions[k].topicId != Some(id))
            && (forall k :: k in db.messages && db.sessions[db.messages[k].sessionId].topicId == Some(id) ==> k !in db'.messages)
  {
  }

  /** A user whose e-mail is taken cannot be inserted, so e-mails stay unique. */
  lemma EmailTakenRejected(db: Db, row: UserRow, other: string)
    requires other in db.users && db.users[other].email == row.email
    ensures InsertUser(db, row).Failure?
  {
  }
}
