/**
 * The course grid (components/course-grid.tsx): the liked-courses toggle,
 * the colour scheme each card gets, and the SWR key of the course fetch.
 */
module CourseGrid {
  import opened Wrappers
  import opened Seqs

  /** `toggleLike(id)`: a liked id is filtered out, any other id is appended. */
  function ToggleLike(liked: seq<string>, id: string): (r: seq<string>)
    ensures id in r <==> id !in liked
    ensures forall other :: other != id ==> (other in r <==> other in liked)
    ensures id !in liked ==> r == liked + [id]
  {
    if id in liked then Filter(liked, (x: string) => x != id) else liked + [id]
  }

  /** Toggling twice restores every id's membership. */
  lemma ToggleLikeTwice(liked: seq<string>, id: string)
    ensures forall x :: x in ToggleLike(ToggleLike(liked, id), id) <==> x in liked
  {
  }

  /** Starting from no repeats, toggling never creates one. */
  lemma ToggleLikeDistinct(liked: seq<string>, id: string)
    requires Distinct(liked)
    ensures Distinct(ToggleLike(liked, id))
  {
    if id in liked {
      FilterDistinct(liked, (x: string) => x != id);
    }
  }

  /** A filter of a sequence without repeats has none. */
  lemma {:induction false} FilterDistinct(xs: seq<string>, p: string -> bool)
    requires Distinct(xs)
    ensures Distinct(Filter(xs, p))
    decreases |xs|
  {
    if |xs| > 0 {
      FilterDistinct(xs[1..], p);
      var t := Filter(xs[1..], p);
      if p(xs[0]) {
        assert xs[0] !in xs[1..];
        assert xs[0] !in t;
        assert Filter(xs, p) == [xs[0]] + t;
      }
    }
  }

  /** The number of colour schemes in the palette. */
  const PaletteSize: nat := 12

  /** `colors[index % colors.length]`: always a valid palette index. */
  function ColourIndex(index: nat): (c: nat)
    ensures c < PaletteSize
    ensures (index - c) % PaletteSize == 0
  {
    index % PaletteSize
  }

  /** Colours repeat every twelve cards. */
  lemma ColourCycles(index: nat)
    ensures ColourIndex(index + PaletteSize) == ColourIndex(index)
  {
  }

  /**
   * The SWR key `/api/courses?level=${level}`: only the level is sent, so the
   * category and search the browse page passes have no effect on the fetch;
   * an undefined level is spelled out as `undefined`.
   */
  function FetchKey(level: Option<string>): (k: string)
    ensures level.Some? ==> k == "/api/courses?level=" + level.value
    ensures level.None? ==> k == "/api/courses?level=undefined"
  {
    "/api/courses?level=" + level.GetOr("undefined")
  }

  /** The key tells selected levels apart. */
  lemma FetchKeyInjective(a: string, b: string)
    requires FetchKey(Some(a)) == FetchKey(Some(b))
    ensures a == b
  {
    var p := "/api/courses?level=";
    assert FetchKey(Some(a))[|p|..] == a;
    assert FetchKey(Some(b))[|p|..] == b;
  }
}
