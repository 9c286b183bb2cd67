/**
 * The link of a course card (components/course-card.tsx, line 22): the base
 * path, `/courses/` and the id, with a leading run of slashes collapsed to one.
 */
module CourseCard {
  import opened Text

  /** The length of the leading run of `/` in `s`. */
  function LeadingSlashes(s: string): (n: nat)
    ensures n <= |s|
    ensures forall i :: 0 <= i < n ==> s[i] == '/'
    ensures n < |s| ==> s[n] != '/'
    decreases |s|
  {
    if |s| > 0 && s[0] == '/' then 1 + LeadingSlashes(s[1..]) else 0
  }

  /** The run stops at the first character that is not a slash. */
  lemma {:induction false} RunEndsAt(s: string, k: nat)
    requires k < |s| && s[k] != '/'
    ensures LeadingSlashes(s) <= k
    decreases k
  {
    if k > 0 && s[0] == '/' {
      RunEndsAt(s[1..], k - 1);
    }
  }

  /** The run covers every leading slash. */
  lemma {:induction false} RunReaches(s: string, k: nat)
    requires k <= |s|
    requires forall i :: 0 <= i < k ==> s[i] == '/'
    ensures LeadingSlashes(s) >= k
    decreases k
  {
    if k > 0 {
      RunReaches(s[1..], k - 1);
    }
  }

  /** `s.replace(/^\/+/, '/')`. */
  function CollapseLeadingSlashes(s: string): (r: string)
    ensures LeadingSlashes(s) == 0 ==> r == s
    ensures LeadingSlashes(s) > 0 ==> r == "/" + s[LeadingSlashes(s)..]
  {
    var n := LeadingSlashes(s);
    if n == 0 then s else "/" + s[n..]
  }

  /** The `href` of the card, with the `|| '/courses/' + id` fallback. */
  function CourseHref(basePath: string, id: string): (href: string)
  {
    var r := CollapseLeadingSlashes(basePath + CoursesSegment + id);
    if r == "" then CoursesSegment + id else r
  }

  /** No leading double slash remains, and collapsing again changes nothing. */
  lemma CollapseIdempotent(s: string)
    ensures var r := CollapseLeadingSlashes(s);
      CollapseLeadingSlashes(r) == r && !(|r| >= 2 && r[0] == '/' && r[1] == '/')
  {
    var n := LeadingSlashes(s);
    if n > 0 {
      var r := "/" + s[n..];
      assert r[1..] == s[n..];
      assert LeadingSlashes(r) == 1;
    }
  }

  /** The path segment before the id. */
  const CoursesSegment: string := "/courses/"

  /**
   * Collapsing `a + t`, where `t` starts with exactly one slash, keeps `t`
   * whole at the end and never yields the empty string; when `a` is all
   * slashes (or empty) the result is `t` itself.
   */
  lemma {:induction false} CollapseKeepsTail(a: string, t: string)
    requires |t| >= 2 && t[0] == '/' && t[1] != '/'
    ensures var r := CollapseLeadingSlashes(a + t);
      r != "" && |r| >= |t| && r[|r| - |t|..] == t
    ensures (forall i :: 0 <= i < |a| ==> a[i] == '/') ==> CollapseLeadingSlashes(a + t) == t
  {
    var s := a + t;
    var n := LeadingSlashes(s);
    assert s[|a|] == '/' && s[|a| + 1] != '/';
    RunEndsAt(s, |a| + 1);
    if (forall i :: 0 <= i < |a| ==> a[i] == '/') {
      RunReaches(s, |a| + 1);
    }
    if n == 0 {
      assert s[|s| - |t|..] == t;
    } else {
      var r := "/" + s[n..];
      if n == |a| + 1 {
        assert s[n..] == t[1..];
        assert r == t;
      } else {
        assert s[n..] == a[n..] + t;
        assert r == ("/" + a[n..]) + t;
        assert r[|r| - |t|..] == t;
      }
    }
  }

  /** An empty base path gives `/courses/` and the id. */
  lemma EmptyBasePath(id: string)
    ensures CourseHref("", id) == CoursesSegment + id
  {
    CollapseKeepsTail("", CoursesSegment + id);
    assert "" + CoursesSegment + id == "" + (CoursesSegment + id);
  }

  /**
   * Whatever the base path, the link ends with `/courses/` and the id, and it
   * is never empty, so the fallback is never taken.
   */
  lemma HrefEndsWithCourse(basePath: string, id: string)
    ensures var href := CourseHref(basePath, id);
      |href| >= |CoursesSegment + id| && href[|href| - |CoursesSegment + id|..] == CoursesSegment + id
    ensures CollapseLeadingSlashes(basePath + CoursesSegment + id) != ""
  {
    var t := CoursesSegment + id;
    assert basePath + CoursesSegment + id == basePath + t;
    CollapseKeepsTail(basePath, t);
  }
}
