/**
 * The pieces of SQL the query helpers (lib/courses.ts, lib/debates.ts) rely
 * on: `ILIKE` against a nullable column and the placement of NULLs by
 * `ORDER BY … ASC` and `… DESC` in Postgres.
 */
module Sql {
  import opened Wrappers
  import opened Text
  import opened Seqs
  import opened Sorting

  /**
   * `column ILIKE '%q%'`: a case-insensitive substring test that a NULL
   * column never satisfies.
   */
  predicate ILike(column: Option<string>, q: string)
  {
    column.Some? && Contains(ToLower(column.value), ToLower(q))
  }

  /** The sort key of a nullable integer under `DESC`: NULLs first, then larger values first. */
  function DescNullsFirst(v: Option<int>): (k: seq<int>)
    ensures |k| == 2
  {
    if v.None? then [0, 0] else [1, -v.value]
  }

  /** The sort key of a nullable integer under `ASC`: smaller values first, NULLs last. */
  function AscNullsLast(v: Option<int>): (k: seq<int>)
    ensures |k| == 2
  {
    if v.None? then [1, 0] else [0, v.value]
  }

  /** Pairs compare on the first component, then the second. */
  lemma LexLePair(a0: int, a1: int, b0: int, b1: int)
    ensures LexLe([a0, a1], [b0, b1]) <==> a0 < b0 || (a0 == b0 && a1 <= b1)
  {
    assert [a0, a1][1..] == [a1];
    assert [b0, b1][1..] == [b1];
    assert [a1][1..] == [];
    assert [b1][1..] == [];
    assert LexLe([a1], [b1]) <==> a1 <= b1 by {
      assert LexLe([], []);
    }
  }

  lemma DescNullsFirstOrder(a: Option<int>, b: Option<int>)
    ensures LexLe(DescNullsFirst(a), DescNullsFirst(b)) <==> a.None? || (b.Some? && a.value >= b.value)
  {
    var x, y := DescNullsFirst(a), DescNullsFirst(b);
    LexLePair(x[0], x[1], y[0], y[1]);
    assert x == [x[0], x[1]] && y == [y[0], y[1]];
  }

  lemma AscNullsLastOrder(a: Option<int>, b: Option<int>)
    ensures LexLe(AscNullsLast(a), AscNullsLast(b)) <==> b.None? || (a.Some? && a.value <= b.value)
  {
    var x, y := AscNullsLast(a), AscNullsLast(b);
    LexLePair(x[0], x[1], y[0], y[1]);
    assert x == [x[0], x[1]] && y == [y[0], y[1]];
  }

  /** Two keys of length two compared one after the other: `ORDER BY x, y`. */
  lemma ThenBy(a: seq<int>, b: seq<int>, c: seq<int>, d: seq<int>)
    requires |a| == 2 && |b| == 2
    ensures LexLe(a + c, b + d) <==> (a != b && LexLe(a, b)) || (a == b && LexLe(c, d))
  {
    assert (a + c)[1..] == a[1..] + c;
    assert (b + d)[1..] == b[1..] + d;
    assert (a[1..] + c)[1..] == c;
    assert (b[1..] + d)[1..] == d;
  }

  /** `SELECT … WHERE p ORDER BY key`: the rows satisfying `p`, sorted. */
  function Select<T(!new)>(table: seq<T>, p: T -> bool, key: T -> seq<int>): (r: seq<T>)
    ensures SortedBy(r, key)
    ensures multiset(r) == multiset(Filter(table, p))
    ensures forall x :: x in r <==> x in table && p(x)
  {
    var f := Filter(table, p);
    var r := SortBy(f, key);
    assert forall x :: x in r <==> x in multiset(f);
    r
  }
}
