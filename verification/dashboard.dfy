/**
 * The numbers the learner dashboard (app/dashboard/page.tsx) derives from a
 * progress record: the XP percentage and its bar, the next-level heading, the
 * level-progression bars and the learning summary.
 */
module Dashboard {
  import opened Wrappers
  import opened Schema
  import Arith

  /** The progress record the page renders (`UserProgress`). */
  datatype Progress = Progress(
    totalXp: nat, streak: nat, completedCourses: nat, completedDebates: nat, level: CourseLevel)

  /**
   * The record a stored `user_progress` row stands for, when every column is
   * present and no counter is negative.
   */
  function ProgressOf(row: ProgressRow): (p: Option<Progress>)
    ensures p.Some? <==> (row.totalXp.Some? && row.streak.Some? && row.completedCourses.Some?
      && row.completedDebates.Some? && row.level.Some?
      && row.totalXp.value >= 0 && row.streak.value >= 0
      && row.completedCourses.value >= 0 && row.completedDebates.value >= 0)
    ensures p.Some? ==>
      p.value.totalXp == row.totalXp.value && p.value.level == row.level.value
      && p.value.completedCourses == row.completedCourses.value
      && p.value.completedDebates == row.completedDebates.value
  {
    if row.totalXp.Some? && row.streak.Some? && row.completedCourses.Some?
      && row.completedDebates.Some? && row.level.Some?
      && row.totalXp.value >= 0 && row.streak.value >= 0
      && row.completedCourses.value >= 0 && row.completedDebates.value >= 0
    then Some(Progress(row.totalXp.value, row.streak.value, row.completedCourses.value,
                       row.completedDebates.value, row.level.value))
    else None
  }

  // ---------------------------------------------------------------- XP

  /** `nextLevelXp`. */
  const NextLevelXp: nat := 3000

  /** `progressPercent`: the share of `nextLevelXp` reached, in percent. */
  function XpPercent(totalXp: nat): (r: real)
    ensures r >= 0.0
    ensures r * (NextLevelXp as real) == (totalXp as real) * 100.0
  {
    (totalXp as real) / (NextLevelXp as real) * 100.0
  }

  /** The `…% to next level` label, `Math.floor(progressPercent)`; it is not capped. */
  function PercentLabel(totalXp: nat): (r: int)
    ensures r as real <= XpPercent(totalXp) < r as real + 1.0
  {
    XpPercent(totalXp).Floor
  }

  /** The width of the XP bar, `Math.min(progressPercent, 100)`. */
  function BarWidth(totalXp: nat): (w: real)
    ensures 0.0 <= w <= 100.0
    ensures w == 100.0 <==> totalXp >= NextLevelXp
    ensures totalXp < NextLevelXp ==> w == XpPercent(totalXp)
  {
    var p := XpPercent(totalXp);
    if p < 100.0 then p else 100.0
  }

  /** The label is the whole number of thirtieths of an XP point, i.e. one per 30 XP. */
  lemma PercentLabelIsThirtieths(totalXp: nat)
    ensures PercentLabel(totalXp) == totalXp / 30
  {
    var q := totalXp / 30;
    var p := XpPercent(totalXp);
    assert p == (totalXp as real) / 30.0;
    assert q * 30 <= totalXp < q * 30 + 30;
    assert (q as real) * 30.0 <= totalXp as real < (q as real) * 30.0 + 30.0;
    assert q as real <= p < q as real + 1.0;
  }

  /** More XP never shortens the bar. */
  lemma BarWidthMonotone(x: nat, y: nat)
    requires x <= y
    ensures BarWidth(x) <= BarWidth(y)
  {
    assert XpPercent(x) <= XpPercent(y);
  }

  /** Past 3030 XP the label reads over 100 while the bar stays full. */
  lemma LabelOutrunsBar(totalXp: nat)
    requires totalXp >= NextLevelXp + 30
    ensures PercentLabel(totalXp) > 100 && BarWidth(totalXp) == 100.0
  {
    PercentLabelIsThirtieths(totalXp);
  }

  // ---------------------------------------------------------------- levels

  /**
   * The heading `Progress to Level …`: `Expert` at B2, otherwise the character
   * after the level's first letter.
   */
  function NextLevelLabel(level: CourseLevel): (r: string)
  {
    if level == B2 then "Expert"
    else [((LevelName(level)[0] as int) + 1) as char]
  }

  /** A1 and A2 both lead to `B`, B1 to `C`: the heading names the next letter band. */
  lemma NextLevelLabels()
    ensures NextLevelLabel(A1) == "B" && NextLevelLabel(A2) == "B"
    ensures NextLevelLabel(B1) == "C" && NextLevelLabel(B2) == "Expert"
  {
  }

  /** JavaScript's `<` on strings: lexicographic by character code. */
  predicate StringLess(a: string, b: string)
    decreases |a|
  {
    if |a| == 0 then |b| > 0
    else if |b| == 0 then false
    else if a[0] != b[0] then a[0] < b[0]
    else StringLess(a[1..], b[1..])
  }

  /** The position of a level in the CEFR order. */
  function Rank(level: CourseLevel): (r: nat)
    ensures r < 4
  {
    match level
    case A1 => 0
    case A2 => 1
    case B1 => 2
    case B2 => 3
  }

  /** The levels the progression card lists, in the order it lists them. */
  function ListedLevels(): (ls: seq<CourseLevel>)
    ensures |ls| == 4
    ensures forall i :: 0 <= i < 4 ==> Rank(ls[i]) == i
  {
    [A1, A2, B1, B2]
  }

  /** The width of one progression bar: 50 at the current level, 100 below it, 0 above. */
  function StepWidth(level: CourseLevel, current: CourseLevel): (w: nat)
  {
    if LevelName(level) == LevelName(current) then 50
    else if StringLess(LevelName(level), LevelName(current)) then 100
    else 0
  }

  /** On the four level names string order is the CEFR order. */
  lemma StringOrderIsCefrOrder(a: CourseLevel, b: CourseLevel)
    ensures StringLess(LevelName(a), LevelName(b)) <==> Rank(a) < Rank(b)
  {
    StringLessPair(LevelName(a), LevelName(b));
  }

  /** On two-character strings `<` compares the first characters, then the second. */
  lemma StringLessPair(x: string, y: string)
    requires |x| == 2 && |y| == 2
    ensures StringLess(x, y) <==> x[0] < y[0] || (x[0] == y[0] && x[1] < y[1])
  {
    assert StringLess(x[1..][1..], y[1..][1..]) == false;
  }

  /** The progression card: full bars below the current level, half at it, empty above. */
  function ProgressionWidths(current: CourseLevel): (ws: seq<nat>)
    ensures |ws| == 4
    ensures forall i :: 0 <= i < 4 ==>
      (ws[i] == 100 <==> i < Rank(current)) && (ws[i] == 50 <==> i == Rank(current))
      && (ws[i] == 0 <==> i > Rank(current))
  {
    var ls := ListedLevels();
    var ws := seq(4, i requires 0 <= i < 4 => StepWidth(ls[i], current));
    assert forall i :: 0 <= i < 4 ==>
      (ws[i] == 100 <==> i < Rank(current)) && (ws[i] == 50 <==> i == Rank(current))
      && (ws[i] == 0 <==> i > Rank(current)) by {
      forall i | 0 <= i < 4
        ensures (ws[i] == 100 <==> i < Rank(current)) && (ws[i] == 50 <==> i == Rank(current))
          && (ws[i] == 0 <==> i > Rank(current))
      {
        StringOrderIsCefrOrder(ls[i], current);
        assert LevelName(ls[i]) == LevelName(current) <==> ls[i] == current;
      }
    }
    ws
  }

  // ---------------------------------------------------------------- summary

  /** Minutes credited per completed course and per completed debate. */
  const MinutesPerCourse: nat := 45
  const MinutesPerDebate: nat := 12

  /** `Time Spent Learning`. */
  function TimeSpent(courses: nat, debates: nat): (m: nat)
    ensures MinutesPerDebate * (courses + debates) <= m <= MinutesPerCourse * (courses + debates)
  {
    courses * MinutesPerCourse + debates * MinutesPerDebate
  }

  /** What the average-session field shows: a whole number of minutes, or `NaN`. */
  datatype Shown = Minutes(n: nat) | NaN

  /**
   * `Average Session Duration` as written: `Math.floor(timeSpent / sessions)`
   * with no guard, so with no sessions it is `0 / 0`, which is `NaN`.
   */
  function AverageSessionAsWritten(courses: nat, debates: nat): (s: Shown)
    ensures s == NaN <==> courses + debates == 0
  {
    if courses + debates == 0 then NaN
    else Minutes(TimeSpent(courses, debates) / (courses + debates))
  }

  /** A new progress row makes the page show `NaN min`. */
  lemma NewUserSeesNaN(userId: string)
    ensures var p := ProgressOf(NewProgress(userId));
      p.Some? && AverageSessionAsWritten(p.value.completedCourses, p.value.completedDebates) == NaN
  {
  }

  /** The average session, reading 0 when there are no sessions. */
  function AverageSession(courses: nat, debates: nat): (m: nat)
    ensures courses + debates == 0 ==> m == 0
    ensures courses + debates > 0 ==> MinutesPerDebate <= m <= MinutesPerCourse
  {
    var n := courses + debates;
    if n == 0 then 0
    else
      var t := TimeSpent(courses, debates);
      assert MinutesPerDebate <= t / n <= MinutesPerCourse by {
        BetweenBounds(t, n, MinutesPerDebate, MinutesPerCourse);
      }
      t / n
  }

  /** Dividing a total that lies between lo·n and hi·n by n lands between lo and hi. */
  lemma BetweenBounds(t: nat, n: nat, lo: nat, hi: nat)
    requires n > 0 && lo * n <= t <= hi * n
    ensures lo <= t / n <= hi
  {
    var q := t / n;
    assert q * n <= t < q * n + n;
    assert (q + 1) * n == q * n + n;
    assert (hi + 1) * n == hi * n + n;
    Arith.MulCancel(lo, q + 1, n);
    Arith.MulCancel(q, hi + 1, n);
  }

  /** Wherever the page shows a number, the guarded average shows the same one. */
  lemma AverageSessionAgrees(courses: nat, debates: nat)
    ensures AverageSessionAsWritten(courses, debates) == NaN
      || AverageSessionAsWritten(courses, debates) == Minutes(AverageSession(courses, debates))
  {
  }

  /** The avatar shown, falling back to the placeholder when missing or empty. */
  function AvatarSource(avatar: Option<string>): (src: string)
    ensures src != ""
    ensures avatar.Some? && avatar.value != "" ==> src == avatar.value
  {
    if avatar.Some? && avatar.value != "" then avatar.value else "/placeholder.svg"
  }
}
