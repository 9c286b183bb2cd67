/**
 * The lesson server actions (lib/admin-lesson-actions.ts): `createLesson`,
 * which inserts the lesson and then bumps its course's `lessons_count` as two
 * separate statements, `updateLesson` and `deleteLesson`.
 */
module AdminLessons {
  import opened Wrappers
  import opened Schema
  import opened AdminForms

  /** A validated lesson form, normalised the way the actions store it. */
  datatype LessonFields = LessonFields(
    courseId: string, title: string, description: Option<string>, content: Option<string>,
    duration: nat, videoUrl: Option<string>, elementOrder: nat, conversationId: Option<string>)

  /**
   * `LessonSchema.omit({ id: true }).safeParse(rawData)` and the `|| null` /
   * `|| 0` normalisation: the course and title are required, the duration and
   * element order must be blank or whole numbers.
   */
  function ValidateLesson(form: Form, toNumber: string -> JsNumber): (r: Validated<LessonFields>)
    ensures r.Rejected? ==> r.fields != {} && r.fields <= {"course_id", "title", "duration", "element_order"}
    ensures r.Rejected? ==>
      && ("course_id" in r.fields <==> Get(form, "course_id").None? || form["course_id"] == "")
      && ("title" in r.fields <==> Get(form, "title").None? || form["title"] == "")
      && ("duration" in r.fields <==> WholeNumber(Get(form, "duration"), toNumber).Invalid?)
      && ("element_order" in r.fields <==> WholeNumber(Get(form, "element_order"), toNumber).Invalid?)
    ensures r.Parsed? <==>
      && RequiredText(Get(form, "course_id")).Valid? && RequiredText(Get(form, "title")).Valid?
      && WholeNumber(Get(form, "duration"), toNumber).Valid?
      && WholeNumber(Get(form, "element_order"), toNumber).Valid?
    ensures r.Parsed? ==>
      && r.value.courseId == form["course_id"] && r.value.courseId != ""
      && r.value.title == form["title"] && r.value.title != ""
      && r.value.description == NullIfBlank(Get(form, "description"))
      && r.value.content == NullIfBlank(Get(form, "content"))
      && r.value.videoUrl == NullIfBlank(Get(form, "video_url"))
      && r.value.conversationId == NullIfBlank(Get(form, "conversation_id"))
  {
    var course := RequiredText(Get(form, "course_id"));
    var title := RequiredText(Get(form, "title"));
    var duration := WholeNumber(Get(form, "duration"), toNumber);
    var order := WholeNumber(Get(form, "element_order"), toNumber);
    if course.Valid? && title.Valid? && duration.Valid? && order.Valid? then
      Parsed(LessonFields(
        course.value, title.value, NullIfBlank(Get(form, "description")), NullIfBlank(Get(form, "content")),
        OrZero(duration.value), NullIfBlank(Get(form, "video_url")), OrZero(order.value),
        NullIfBlank(Get(form, "conversation_id"))))
    else
      Rejected(ErrorIf("course_id", course.Invalid?) + ErrorIf("title", title.Invalid?)
               + ErrorIf("duration", duration.Invalid?) + ErrorIf("element_order", order.Invalid?))
  }

  /** The row a validated form stands for, under `id`. */
  function LessonRowOf(id: string, f: LessonFields): (l: LessonRow)
    ensures l.id == id && l.courseId == Some(f.courseId) && l.title == f.title
    ensures l.duration == Some(f.duration) && l.elementOrder == Some(f.elementOrder)
    ensures l.conversationId == f.conversationId
  {
    LessonRow(id, Some(f.courseId), f.title, f.description, f.content,
              Some(f.duration), f.videoUrl, Some(f.elementOrder), f.conversationId)
  }

  /**
   * The form's numbers fit the `integer` columns they are written to; zod
   * bounds them below only.
   */
  predicate LessonFieldsFit(f: LessonFields)
  {
    InIntegerRange(f.duration) && InIntegerRange(f.elementOrder)
  }

  /**
   * `createLesson`: the id is `l` and the timestamp `stamp`. The insert fails
   * on a taken id, an unknown course or a number beyond the `integer` range,
   * or when it throws for a reason outside the model (`insertFails`). The
   * second statement throws when the count is already the `integer` maximum,
   * or for a reason outside the model (`incrementFails`); either leaves the
   * inserted lesson in place.
   */
  function CreateLesson(db: Db, form: Form, stamp: nat, insertFails: bool, incrementFails: bool, toNumber: string -> JsNumber): (a: Acted<Db>)
    ensures a.result.FieldErrors? <==> ValidateLesson(form, toNumber).Rejected?
    ensures a.result.Redirected? ==> a.result.path == "/admin/lessons"
    ensures a.result.Failed? ==> a.result.message == "Database Error: Failed to Create Lesson."
    ensures a.result.FieldErrors? ==> a.db == db
    ensures a.db == db.(lessons := a.db.lessons, courses := a.db.courses)
    ensures !a.result.FieldErrors? ==>
      var f := ValidateLesson(form, toNumber).value;
      var id := StampedId("l", stamp);
      && (a.db == db <==> insertFails || id in db.lessons || f.courseId !in db.courses || !LessonFieldsFit(f))
      && (a.db == db ==> a.result.Failed?)
      && (a.db != db ==>
            a.db.lessons == db.lessons[id := LessonRowOf(id, f)]
            && (a.result.Redirected? <==> !incrementFails && !CountAtLimit(db.courses[f.courseId]))
            && (a.result.Redirected? ==> a.db.courses == db.courses[f.courseId := Bump(db.courses[f.courseId]).value])
            && (a.result.Failed? ==> a.db.courses == db.courses))
  {
    match ValidateLesson(form, toNumber)
    case Rejected(fields) => Acted(FieldErrors(fields, "Missing Fields. Failed to Create Lesson."), db)
    case Parsed(f) =>
      var id := StampedId("l", stamp);
      if insertFails then Acted(Failed("Database Error: Failed to Create Lesson."), db)
      else
      match InsertLesson(db, LessonRowOf(id, f))
      case Failure(_) => Acted(Failed("Database Error: Failed to Create Lesson."), db)
      case Success(db') =>
        assert db' != db by { assert id in db'.lessons; }
        if incrementFails then Acted(Failed("Database Error: Failed to Create Lesson."), db')
        else match IncrementLessonsCount(db', f.courseId)
          case Failure(_) => Acted(Failed("Database Error: Failed to Create Lesson."), db')
          case Success(db'') => Acted(Redirected("/admin/lessons"), db'')
  }

  /** The columns `updateLesson` sets: every column but the key. */
  function PatchLesson(l: LessonRow, f: LessonFields): (l': LessonRow)
    ensures l'.id == l.id && l'.courseId == Some(f.courseId) && l'.title == f.title
    ensures l'.description == f.description && l'.content == f.content && l'.videoUrl == f.videoUrl
    ensures l'.duration == Some(f.duration) && l'.elementOrder == Some(f.elementOrder)
    ensures l'.conversationId == f.conversationId
  {
    LessonRowOf(l.id, f)
  }

  /**
   * `updateLesson`: on a valid form the lesson with key `id` (if any) takes the
   * form's columns; moving it to an unknown course fails, and no course's
   * `lessons_count` changes either way. A number beyond the `integer` range
   * fails whatever the id, and so does a fault; either reports a database
   * error and changes nothing.
   */
  function UpdateLessonAction(db: Db, id: string, form: Form, fault: bool, toNumber: string -> JsNumber): (a: Acted<Db>)
    ensures a.result.FieldErrors? <==> ValidateLesson(form, toNumber).Rejected?
    ensures a.result.Failed? <==>
      ValidateLesson(form, toNumber).Parsed?
      && (fault || !LessonFieldsFit(ValidateLesson(form, toNumber).value)
          || (id in db.lessons && ValidateLesson(form, toNumber).value.courseId !in db.courses))
    ensures a.result.Failed? ==> a.result.message == "Database Error: Failed to Update Lesson."
    ensures a.result.Redirected? ==> a.result.path == "/admin/lessons"
    ensures a.db == db.(lessons := a.db.lessons)
    ensures a.db.lessons.Keys == db.lessons.Keys
    ensures forall k :: k in db.lessons && k != id ==> a.db.lessons[k] == db.lessons[k]
    ensures a.result.Redirected? && id in db.lessons ==>
      a.db.lessons[id] == PatchLesson(db.lessons[id], ValidateLesson(form, toNumber).value)
    ensures !a.result.Redirected? || id !in db.lessons ==> a.db == db
  {
    match ValidateLesson(form, toNumber)
    case Rejected(fields) => Acted(FieldErrors(fields, "Missing Fields. Failed to Update Lesson."), db)
    case Parsed(f) =>
      if fault || !LessonFieldsFit(f) then Acted(Failed("Database Error: Failed to Update Lesson."), db)
      else if id !in db.lessons then Acted(Redirected("/admin/lessons"), db)
      else if f.courseId !in db.courses then Acted(Failed("Database Error: Failed to Update Lesson."), db)
      else Acted(Redirected("/admin/lessons"), db.(lessons := db.lessons[id := PatchLesson(db.lessons[id], f)]))
  }

  /**
   * `deleteLesson`: only that lesson goes; no counter is decremented. A
   * throwing statement (`fault`) reports a database error and changes nothing.
   */
  function DeleteLessonAction(db: Db, id: string, fault: bool): (a: Acted<Db>)
    ensures a.result == if fault then Failed("Database Error: Failed to Delete Lesson.") else Done("Deleted Lesson.")
    ensures fault ==> a.db == db
    ensures a.db.lessons.Keys == if fault then db.lessons.Keys else db.lessons.Keys - {id}
    ensures forall k :: k in a.db.lessons ==> a.db.lessons[k] == db.lessons[k]
    ensures a.db.courses == db.courses
  {
    if fault then Acted(Failed("Database Error: Failed to Delete Lesson."), db)
    else Acted(Done("Deleted Lesson."), DeleteLesson(db, id))
  }

  // ---------------------------------------------------------------- properties

  /** The course's count as the dashboard would read it. */
  function CountOf(db: Db, courseId: string): Option<int>
  {
    if courseId in db.courses then db.courses[courseId].lessonsCount else None
  }

  /**
   * A successful create adds exactly one lesson and raises exactly its
   * course's (non-NULL) count by one; every other course is unchanged.
   */
  lemma CreateLessonCounts(db: Db, form: Form, stamp: nat, toNumber: string -> JsNumber, other: string)
    requires CreateLesson(db, form, stamp, false, false, toNumber).result.Redirected?
    ensures var a := CreateLesson(db, form, stamp, false, false, toNumber);
      var c := ValidateLesson(form, toNumber).value.courseId;
      && |a.db.lessons| == |db.lessons| + 1
      && (CountOf(db, c).Some? ==> CountOf(a.db, c) == Some(CountOf(db, c).value + 1))
      && (other != c ==> CountOf(a.db, other) == CountOf(db, other))
  {
    var a := CreateLesson(db, form, stamp, false, false, toNumber);
    var f := ValidateLesson(form, toNumber).value;
    var id := StampedId("l", stamp);
    assert a.db != db;
    CreatedCounts(db, a.db, id, f, other);
  }

  /** Counting after one new lesson is stored and its course's count bumped. */
  lemma CreatedCounts(db: Db, db': Db, id: string, f: LessonFields, other: string)
    requires id !in db.lessons && f.courseId in db.courses && !CountAtLimit(db.courses[f.courseId])
    requires db'.lessons == db.lessons[id := LessonRowOf(id, f)]
    requires db'.courses == db.courses[f.courseId := Bump(db.courses[f.courseId]).value]
    ensures |db'.lessons| == |db.lessons| + 1
    ensures CountOf(db, f.courseId).Some? ==> CountOf(db', f.courseId) == Some(CountOf(db, f.courseId).value + 1)
    ensures other != f.courseId ==> CountOf(db', other) == CountOf(db, other)
  {
    assert db'.lessons.Keys == db.lessons.Keys + {id};
  }

  /**
   * Not atomic: when the count update throws after the insert, the action
   * reports a database error and the lesson stays, with no count changed.
   */
  lemma CreateLessonHalfDone(db: Db, form: Form, stamp: nat, toNumber: string -> JsNumber)
    requires ValidateLesson(form, toNumber).Parsed? && LessonFieldsFit(ValidateLesson(form, toNumber).value)
    requires StampedId("l", stamp) !in db.lessons
    requires ValidateLesson(form, toNumber).value.courseId in db.courses
    ensures var a := CreateLesson(db, form, stamp, false, true, toNumber);
      && a.result == Failed("Database Error: Failed to Create Lesson.")
      && StampedId("l", stamp) in a.db.lessons
      && a.db.courses == db.courses
  {
  }

  /**
   * The same half-done outcome without any fault: a course whose count is
   * already the `integer` maximum gets the lesson but not the count.
   */
  lemma CreateLessonAtCountLimit(db: Db, form: Form, stamp: nat, toNumber: string -> JsNumber)
    requires ValidateLesson(form, toNumber).Parsed? && LessonFieldsFit(ValidateLesson(form, toNumber).value)
    requires StampedId("l", stamp) !in db.lessons
    requires ValidateLesson(form, toNumber).value.courseId in db.courses
    requires db.courses[ValidateLesson(form, toNumber).value.courseId].lessonsCount == Some(0x7fff_ffff)
    ensures var a := CreateLesson(db, form, stamp, false, false, toNumber);
      && a.result == Failed("Database Error: Failed to Create Lesson.")
      && StampedId("l", stamp) in a.db.lessons
      && a.db.courses == db.courses
  {
  }

  /** Moving a lesson to another course leaves every count as it was. */
  lemma UpdateLessonKeepsCounts(db: Db, id: string, form: Form, fault: bool, toNumber: string -> JsNumber)
    ensures UpdateLessonAction(db, id, form, fault, toNumber).db.courses == db.courses
  {
  }

  lemma CreateLessonConsistent(db: Db, form: Form, stamp: nat, insertFails: bool, incrementFails: bool, toNumber: string -> JsNumber)
    requires Consistent(db)
    ensures Consistent(CreateLesson(db, form, stamp, insertFails, incrementFails, toNumber).db)
  {
    var a := CreateLesson(db, form, stamp, insertFails, incrementFails, toNumber);
    if a.db != db {
      var f := ValidateLesson(form, toNumber).value;
      CreatedConsistent(db, a.db, StampedId("l", stamp), f);
    }
  }

  /** A new lesson under an existing course, with that course's count bumped or not, keeps the constraints. */
  lemma CreatedConsistent(db: Db, db': Db, id: string, f: LessonFields)
    requires Consistent(db) && f.courseId in db.courses
    requires db' == db.(lessons := db'.lessons, courses := db'.courses)
    requires db'.lessons == db.lessons[id := LessonRowOf(id, f)]
    requires db'.courses == db.courses
             || (!CountAtLimit(db.courses[f.courseId])
                 && db'.courses == db.courses[f.courseId := Bump(db.courses[f.courseId]).value])
    ensures Consistent(db')
  {
    var mid := db.(lessons := db'.lessons);
    LessonsChangedConsistent(db, db'.lessons);
    CoursesChangedConsistent(mid, db'.courses);
    assert db' == mid.(courses := db'.courses);
  }

  lemma UpdateLessonConsistent(db: Db, id: string, form: Form, fault: bool, toNumber: string -> JsNumber)
    requires Consistent(db)
    ensures Consistent(UpdateLessonAction(db, id, form, fault, toNumber).db)
  {
    var a := UpdateLessonAction(db, id, form, fault, toNumber);
    if a.db != db {
      LessonsChangedConsistent(db, a.db.lessons);
    }
  }

  lemma DeleteLessonConsistent(db: Db, id: string, fault: bool)
    requires Consistent(db)
    ensures Consistent(DeleteLessonAction(db, id, fault).db)
  {
  }
}
