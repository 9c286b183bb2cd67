/**
 * The course server actions (lib/admin-actions.ts): `createCourse`,
 * `updateCourse` and `deleteCourse`, each validating the form with
 * `CourseSchema` before touching the `courses` table.
 */
module AdminCourses {
  import opened Wrappers
  import opened Schema
  import opened AdminForms

  /** A validated course form, already normalised the way the actions store it. */
  datatype CourseFields = CourseFields(
    title: string, description: Option<string>, level: CourseLevel,
    category: Option<string>, thumbnail: Option<string>,
    duration: nat, lessonsCount: nat, instructor: Option<string>, xpReward: nat)

  /** `formData.get('lessons_count') || 0`: a blank count is 0 before coercion. */
  function LessonsCountField(value: Option<string>, toNumber: string -> JsNumber): (r: Checked<Option<nat>>)
    ensures value.None? || value.value == "" ==> r == Valid(Some(0))
    ensures value.Some? && value.value != "" ==> r == WholeNumber(value, toNumber)
  {
    if value.None? || value.value == "" then Valid(Some(0)) else WholeNumber(value, toNumber)
  }

  /** The level field: one of `A1`, `A2`, `B1`, `B2`. */
  function LevelField(value: Option<string>): (r: Checked<CourseLevel>)
    ensures r.Valid? <==> value.Some? && value.value in {"A1", "A2", "B1", "B2"}
    ensures r.Valid? ==> LevelName(r.value) == value.value
  {
    if value.Some? && ParseLevel(value.value).Some? then Valid(ParseLevel(value.value).value) else Invalid
  }

  /**
   * `CourseSchema.omit({ id: true }).safeParse(rawData)` followed by the
   * `|| null` / `|| 0` normalisation. The text fields other than the title
   * accept anything, so only the title, level and three counts can fail.
   */
  function ValidateCourse(form: Form, toNumber: string -> JsNumber): (r: Validated<CourseFields>)
    ensures r.Rejected? ==> r.fields != {} && r.fields <= {"title", "level", "duration", "lessons_count", "xp_reward"}
    ensures r.Rejected? ==>
      && ("title" in r.fields <==> Get(form, "title").None? || form["title"] == "")
      && ("level" in r.fields <==> LevelField(Get(form, "level")).Invalid?)
      && ("duration" in r.fields <==> WholeNumber(Get(form, "duration"), toNumber).Invalid?)
      && ("lessons_count" in r.fields <==> LessonsCountField(Get(form, "lessons_count"), toNumber).Invalid?)
      && ("xp_reward" in r.fields <==> WholeNumber(Get(form, "xp_reward"), toNumber).Invalid?)
    ensures r.Parsed? <==>
      && RequiredText(Get(form, "title")).Valid?
      && LevelField(Get(form, "level")).Valid?
      && WholeNumber(Get(form, "duration"), toNumber).Valid?
      && LessonsCountField(Get(form, "lessons_count"), toNumber).Valid?
      && WholeNumber(Get(form, "xp_reward"), toNumber).Valid?
    ensures r.Parsed? ==>
      && r.value.title == form["title"] && r.value.title != ""
      && LevelName(r.value.level) == form["level"]
      && r.value.description == NullIfBlank(Get(form, "description"))
      && r.value.category == NullIfBlank(Get(form, "category"))
      && r.value.thumbnail == NullIfBlank(Get(form, "thumbnail"))
      && r.value.instructor == NullIfBlank(Get(form, "instructor"))
  {
    var title := RequiredText(Get(form, "title"));
    var level := LevelField(Get(form, "level"));
    var duration := WholeNumber(Get(form, "duration"), toNumber);
    var count := LessonsCountField(Get(form, "lessons_count"), toNumber);
    var xp := WholeNumber(Get(form, "xp_reward"), toNumber);
    if title.Valid? && level.Valid? && duration.Valid? && count.Valid? && xp.Valid? then
      Parsed(CourseFields(
        title.value, NullIfBlank(Get(form, "description")), level.value,
        NullIfBlank(Get(form, "category")), NullIfBlank(Get(form, "thumbnail")),
        OrZero(duration.value), OrZero(count.value), NullIfBlank(Get(form, "instructor")),
        OrZero(xp.value)))
    else
      Rejected(ErrorIf("title", title.Invalid?) + ErrorIf("level", level.Invalid?)
               + ErrorIf("duration", duration.Invalid?) + ErrorIf("lessons_count", count.Invalid?)
               + ErrorIf("xp_reward", xp.Invalid?))
  }

  /**
   * The form's numbers fit the `integer` columns they are written to; zod
   * bounds them below only, so a larger number passes validation and makes
   * the statement throw.
   */
  predicate CourseFieldsFit(f: CourseFields)
  {
    InIntegerRange(f.duration) && InIntegerRange(f.lessonsCount) && InIntegerRange(f.xpReward)
  }

  /** A row as `createCourse` inserts it: the form's fields plus the table's defaults. */
  function NewCourseRow(id: string, f: CourseFields, now: int): (c: CourseRow)
    ensures c.id == id && c.title == f.title && c.level == Some(f.level)
    ensures c.duration == Some(f.duration) && c.lessonsCount == Some(f.lessonsCount) && c.xpReward == Some(f.xpReward)
    ensures c.enrollmentCount == Some(0) && c.ratingCount == Some(0) && c.rating.None?
    ensures c.isTrending == Some(false) && c.createdAt == Some(now)
  {
    CourseRow(id, f.title, f.description, Some(f.level), f.category, f.thumbnail,
              Some(f.duration), Some(f.lessonsCount), f.instructor, Some(f.xpReward),
              Some(0), None, Some(0), Some(false), Some(now))
  }

  /** The columns `updateCourse` sets; the counters, rating and creation time stay. */
  function PatchCourse(c: CourseRow, f: CourseFields): (c': CourseRow)
    ensures c'.id == c.id && c'.enrollmentCount == c.enrollmentCount && c'.rating == c.rating
    ensures c'.ratingCount == c.ratingCount && c'.isTrending == c.isTrending && c'.createdAt == c.createdAt
    ensures c'.title == f.title && c'.level == Some(f.level) && c'.lessonsCount == Some(f.lessonsCount)
    ensures c'.description == f.description && c'.category == f.category && c'.thumbnail == f.thumbnail
    ensures c'.duration == Some(f.duration) && c'.instructor == f.instructor && c'.xpReward == Some(f.xpReward)
  {
    c.(title := f.title, description := f.description, level := Some(f.level),
       category := f.category, thumbnail := f.thumbnail, duration := Some(f.duration),
       lessonsCount := Some(f.lessonsCount), instructor := f.instructor, xpReward := Some(f.xpReward))
  }

  /**
   * `createCourse`: the form's `lessons_count` is not read (the action
   * validates the literal 0); the id is `c` and the timestamp `stamp`, and
   * `now` is the insert's `CURRENT_TIMESTAMP`. The insert throws on a taken
   * id or a number beyond the `integer` range, and `fault` stands for it
   * throwing for a reason outside the model, such as a lost connection.
   */
  function CreateCourse(db: Db, form: Form, stamp: nat, now: int, fault: bool, toNumber: string -> JsNumber): (a: Acted<Db>)
    ensures a.result.FieldErrors? <==> ValidateCourse(form - {"lessons_count"}, toNumber).Rejected?
    ensures a.result.Failed? <==>
      var v := ValidateCourse(form - {"lessons_count"}, toNumber);
      v.Parsed? && (fault || StampedId("c", stamp) in db.courses || !CourseFieldsFit(v.value))
    ensures a.result.Failed? ==> a.result.message == "Database Error: Failed to Create Course."
    ensures !a.result.Redirected? ==> a.db == db
    ensures a.result.Redirected? ==>
      a.result.path == "/admin/courses"
      && StampedId("c", stamp) !in db.courses
      && a.db == db.(courses := a.db.courses)
      && a.db.courses == db.courses[StampedId("c", stamp) := NewCourseRow(StampedId("c", stamp), ValidateCourse(form - {"lessons_count"}, toNumber).value, now)]
      && a.db.courses[StampedId("c", stamp)].lessonsCount == Some(0)
  {
    match ValidateCourse(form - {"lessons_count"}, toNumber)
    case Rejected(fields) => Acted(FieldErrors(fields, "Missing Fields. Failed to Create Course."), db)
    case Parsed(f) =>
      if fault then Acted(Failed("Database Error: Failed to Create Course."), db)
      else
        match InsertCourse(db, NewCourseRow(StampedId("c", stamp), f, now))
        case Failure(_) => Acted(Failed("Database Error: Failed to Create Course."), db)
        case Success(db') => Acted(Redirected("/admin/courses"), db')
  }

  /**
   * `updateCourse`: on a valid form, the row with key `id` (if any) takes the
   * form's columns; an unknown id changes nothing and still redirects. A
   * number beyond the `integer` range fails the statement whatever the id,
   * and so does a fault; either reports a database error and changes nothing.
   */
  function UpdateCourseAction(db: Db, id: string, form: Form, fault: bool, toNumber: string -> JsNumber): (a: Acted<Db>)
    ensures a.result.FieldErrors? <==> ValidateCourse(form, toNumber).Rejected?
    ensures a.result.Failed? <==>
      ValidateCourse(form, toNumber).Parsed? && (fault || !CourseFieldsFit(ValidateCourse(form, toNumber).value))
    ensures a.result.Failed? ==> a.result.message == "Database Error: Failed to Update Course."
    ensures !a.result.FieldErrors? && !a.result.Failed? ==> a.result == Redirected("/admin/courses")
    ensures a.db == db.(courses := a.db.courses)
    ensures a.db.courses.Keys == db.courses.Keys
    ensures forall k :: k in db.courses && k != id ==> a.db.courses[k] == db.courses[k]
    ensures !a.result.Redirected? || id !in db.courses ==> a.db == db
    ensures a.result.Redirected? && id in db.courses ==>
      a.db.courses[id] == PatchCourse(db.courses[id], ValidateCourse(form, toNumber).value)
  {
    match ValidateCourse(form, toNumber)
    case Rejected(fields) => Acted(FieldErrors(fields, "Missing Fields. Failed to Update Course."), db)
    case Parsed(f) =>
      if fault || !CourseFieldsFit(f) then Acted(Failed("Database Error: Failed to Update Course."), db)
      else if id in db.courses then Acted(Redirected("/admin/courses"), db.(courses := db.courses[id := PatchCourse(db.courses[id], f)]))
      else Acted(Redirected("/admin/courses"), db)
  }

  /**
   * `deleteCourse`: the course goes, and its lessons with it; a throwing
   * statement (`fault`) reports a database error and changes nothing.
   */
  function DeleteCourseAction(db: Db, id: string, fault: bool): (a: Acted<Db>)
    ensures a.result == if fault then Failed("Database Error: Failed to Delete Course.") else Done("Deleted Course.")
    ensures fault ==> a.db == db
    ensures !fault ==>
      && id !in a.db.courses
      && (forall k :: k in db.courses && k != id ==> k in a.db.courses && a.db.courses[k] == db.courses[k])
      && (forall k :: k in a.db.lessons ==> a.db.lessons[k].courseId != Some(id))
      && a.db.conversations == db.conversations && a.db.turns == db.turns
  {
    if fault then Acted(Failed("Database Error: Failed to Delete Course."), db)
    else Acted(Done("Deleted Course."), DeleteCourse(db, id))
  }

  // ---------------------------------------------------------------- properties

  /** Every course action keeps the store's constraints. */
  lemma CreateCourseConsistent(db: Db, form: Form, stamp: nat, now: int, fault: bool, toNumber: string -> JsNumber)
    requires Consistent(db)
    ensures Consistent(CreateCourse(db, form, stamp, now, fault, toNumber).db)
  {
    var a := CreateCourse(db, form, stamp, now, fault, toNumber);
    if a.result.Redirected? {
      CoursesChangedConsistent(db, a.db.courses);
    }
  }

  lemma UpdateCourseConsistent(db: Db, id: string, form: Form, fault: bool, toNumber: string -> JsNumber)
    requires Consistent(db)
    ensures Consistent(UpdateCourseAction(db, id, form, fault, toNumber).db)
  {
    var a := UpdateCourseAction(db, id, form, fault, toNumber);
    if a.result.Redirected? && id in db.courses {
      CoursesChangedConsistent(db, a.db.courses);
    }
  }

  lemma DeleteCourseActionConsistent(db: Db, id: string, fault: bool)
    requires Consistent(db)
    ensures Consistent(DeleteCourseAction(db, id, fault).db)
  {
    if !fault {
      DeleteCourseConsistent(db, id);
    }
  }

  /**
   * A created course stores no empty text (blank optional fields become
   * NULL), a non-empty title, whole-number counters within the `integer`
   * range and a lesson count of 0.
   */
  lemma CreatedCourseNormalised(db: Db, form: Form, stamp: nat, now: int, fault: bool, toNumber: string -> JsNumber)
    requires CreateCourse(db, form, stamp, now, fault, toNumber).result.Redirected?
    ensures var c := CreateCourse(db, form, stamp, now, fault, toNumber).db.courses[StampedId("c", stamp)];
      && c.title != "" && c.description != Some("") && c.category != Some("")
      && c.thumbnail != Some("") && c.instructor != Some("")
      && c.duration.Some? && 0 <= c.duration.value < 0x8000_0000
      && c.xpReward.Some? && 0 <= c.xpReward.value < 0x8000_0000
      && c.lessonsCount == Some(0)
  {
  }

  /** A blank or missing duration is stored as 0, a whole number as itself. */
  lemma CreatedCourseDuration(db: Db, form: Form, stamp: nat, now: int, fault: bool, toNumber: string -> JsNumber)
    requires CreateCourse(db, form, stamp, now, fault, toNumber).result.Redirected?
    ensures var c := CreateCourse(db, form, stamp, now, fault, toNumber).db.courses[StampedId("c", stamp)];
      && ("duration" !in form || form["duration"] == "" ==> c.duration == Some(0))
      && ("duration" in form && form["duration"] != "" ==> toNumber(form["duration"]) == Integer(c.duration.value))
  {
  }
}
