/**
 * The course reads of lib/courses.ts: `getCourses` (filtered, newest first)
 * and `getCourseById` (a course with its lessons in order). A table is read
 * as a sequence of rows in storage order; `None` stands for a query that throws.
 */
module CourseQueries {
  import opened Wrappers
  import opened Text
  import opened Seqs
  import opened Sorting
  import opened Schema
  import opened Sql

  /** `GetCoursesFilters`; an absent or empty filter is not applied (`if (level)`). */
  datatype CourseFilters = CourseFilters(level: Option<string>, category: Option<string>, search: Option<string>)

  /** A filter value that JavaScript treats as set. */
  predicate Given(v: Option<string>) { v.Some? && v.value != "" }

  /** A level filter that is not a `course_level` label: Postgres rejects the comparison, so the query throws. */
  predicate LevelRejected(f: CourseFilters)
  {
    Given(f.level) && ParseLevel(f.level.value).None?
  }

  /** The `WHERE` clause: the conjunction of the filters given. */
  predicate CourseMatches(f: CourseFilters, c: CourseRow)
  {
    (Given(f.level) ==> c.level.Some? && LevelName(c.level.value) == f.level.value)
    && (Given(f.category) ==> ILike(c.category, f.category.value))
    && (Given(f.search) ==>
          ILike(Some(c.title), f.search.value) || ILike(c.description, f.search.value)
          || ILike(c.instructor, f.search.value))
  }

  /** `ORDER BY created_at DESC`. */
  function NewestFirst(c: CourseRow): seq<int> { DescNullsFirst(c.createdAt) }

  /** A course as returned: the nullable rating and counters read as numbers, the trending flag as a boolean. */
  datatype Course = Course(
    id: string, title: string, description: Option<string>, level: Option<CourseLevel>,
    category: Option<string>, thumbnail: Option<string>, duration: Option<int>,
    lessons: Option<int>, instructor: Option<string>, xpReward: Option<int>,
    enrollmentCount: Option<int>, rating: int, ratingCount: int, isTrending: bool, createdAt: int)

  /**
   * The `rows.map(...)` normalisation: `Number(null)` is 0, `Boolean(null)` is
   * false, and `new Date(null)` is the epoch (instant 0).
   */
  function Normalise(c: CourseRow): (r: Course)
    ensures r.id == c.id && r.title == c.title && r.lessons == c.lessonsCount
    ensures r.rating == c.rating.GetOr(0) && r.ratingCount == c.ratingCount.GetOr(0)
    ensures r.isTrending <==> c.isTrending == Some(true)
    ensures r.createdAt == c.createdAt.GetOr(0)
  {
    Course(c.id, c.title, c.description, c.level, c.category, c.thumbnail, c.duration,
           c.lessonsCount, c.instructor, c.xpReward, c.enrollmentCount,
           c.rating.GetOr(0), c.ratingCount.GetOr(0), c.isTrending == Some(true), c.createdAt.GetOr(0))
  }

  /** The rows `getCourses` selects, in the order it returns them. */
  function SelectedCourses(table: seq<CourseRow>, f: CourseFilters): (r: seq<CourseRow>)
    ensures forall c :: c in r <==> c in table && CourseMatches(f, c)
    ensures multiset(r) == multiset(Filter(table, (c: CourseRow) => CourseMatches(f, c)))
    ensures forall i, j :: 0 <= i < j < |r| ==>
      r[i].createdAt.None? || (r[j].createdAt.Some? && r[i].createdAt.value >= r[j].createdAt.value)
  {
    var r := Select(table, (c: CourseRow) => CourseMatches(f, c), NewestFirst);
    forall i, j | 0 <= i < j < |r|
      ensures r[i].createdAt.None? || (r[j].createdAt.Some? && r[i].createdAt.value >= r[j].createdAt.value)
    {
      DescNullsFirstOrder(r[i].createdAt, r[j].createdAt);
    }
    r
  }

  /** `getCourses(filters)`: `[]` when the query throws. */
  function GetCourses(table: Option<seq<CourseRow>>, f: CourseFilters): (r: seq<Course>)
    ensures table.None? || LevelRejected(f) ==> r == []
    ensures table.Some? && !LevelRejected(f) ==>
      |r| == |SelectedCourses(table.value, f)|
      && forall i :: 0 <= i < |r| ==> r[i] == Normalise(SelectedCourses(table.value, f)[i])
  {
    if table.None? || LevelRejected(f) then []
    else
      var rows := SelectedCourses(table.value, f);
      seq(|rows|, i requires 0 <= i < |rows| => Normalise(rows[i]))
  }

  /** With no filter given, every course is returned. */
  lemma NoFiltersSelectAll(table: seq<CourseRow>)
    ensures multiset(SelectedCourses(table, CourseFilters(None, None, None))) == multiset(table)
  {
    var p := (c: CourseRow) => CourseMatches(CourseFilters(None, None, None), c);
    assert Filter(table, p) == table;
  }

  /** A search matches a course exactly when one of the three columns contains it, ignoring case. */
  lemma SearchMatches(c: CourseRow, q: string)
    requires q != ""
    ensures CourseMatches(CourseFilters(None, None, Some(q)), c) <==>
      Contains(ToLower(c.title), ToLower(q))
      || (c.description.Some? && Contains(ToLower(c.description.value), ToLower(q)))
      || (c.instructor.Some? && Contains(ToLower(c.instructor.value), ToLower(q)))
  {
  }

  // ---------------------------------------------------------------- one course

  /** A course with its lessons. */
  datatype CourseWithLessons = CourseWithLessons(course: Course, lessons: seq<LessonRow>)

  /** `ORDER BY element_order` (ascending, NULLs last). */
  function LessonOrder(l: LessonRow): seq<int> { AscNullsLast(l.elementOrder) }

  /** The lessons of course `id`, ordered by their element order, NULLs last. */
  function LessonsOf(lessons: seq<LessonRow>, id: string): (r: seq<LessonRow>)
    ensures forall l :: l in r <==> l in lessons && l.courseId == Some(id)
    ensures multiset(r) == multiset(Filter(lessons, (l: LessonRow) => l.courseId == Some(id)))
    ensures forall i, j :: 0 <= i < j < |r| ==>
      r[j].elementOrder.None? || (r[i].elementOrder.Some? && r[i].elementOrder.value <= r[j].elementOrder.value)
  {
    var r := Select(lessons, (l: LessonRow) => l.courseId == Some(id), LessonOrder);
    forall i, j | 0 <= i < j < |r|
      ensures r[j].elementOrder.None? || (r[i].elementOrder.Some? && r[i].elementOrder.value <= r[j].elementOrder.value)
    {
      AscNullsLastOrder(r[i].elementOrder, r[j].elementOrder);
    }
    r
  }

  /** `getCourseById(id)`: `null` for an unknown id or when either query throws. */
  function GetCourseById(courses: Option<seq<CourseRow>>, lessons: Option<seq<LessonRow>>, id: string): (r: Option<CourseWithLessons>)
    ensures r.Some? <==> courses.Some? && lessons.Some? && exists i :: 0 <= i < |courses.value| && courses.value[i].id == id
    ensures r.Some? ==>
      r.value.course.id == id
      && r.value.course == Normalise(Find(courses.value, (c: CourseRow) => c.id == id).value)
      && r.value.lessons == LessonsOf(lessons.value, id)
  {
    if courses.None? then None
    else
      match Find(courses.value, (c: CourseRow) => c.id == id)
      case None => None
      case Some(c) =>
        if lessons.None? then None
        else Some(CourseWithLessons(Normalise(c), LessonsOf(lessons.value, id)))
  }
}
