/**
 * Ordering of query results. SQL `ORDER BY` and `Array.prototype.sort` are
 * modelled as a stable insertion sort on an integer sort key compared
 * lexicographically; each caller builds the key that encodes its column
 * directions and NULL placement.
 */
module Sorting {

  /** Lexicographic order on integer keys; a proper prefix sorts first. */
  predicate LexLe(a: seq<int>, b: seq<int>)
    decreases |a|
  {
    |a| == 0 || (|b| > 0 && (a[0] < b[0] || (a[0] == b[0] && LexLe(a[1..], b[1..]))))
  }

  lemma {:induction false} LexLeRefl(a: seq<int>)
    ensures LexLe(a, a)
    decreases |a|
  {
    if |a| > 0 {
      LexLeRefl(a[1..]);
    }
  }

  lemma {:induction false} LexLeTrans(a: seq<int>, b: seq<int>, c: seq<int>)
    requires LexLe(a, b) && LexLe(b, c)
    ensures LexLe(a, c)
    decreases |a|
  {
    if |a| > 0 && a[0] == b[0] && b[0] == c[0] {
      LexLeTrans(a[1..], b[1..], c[1..]);
    }
  }

  lemma {:induction false} LexLeTotal(a: seq<int>, b: seq<int>)
    ensures LexLe(a, b) || LexLe(b, a)
    decreases |a|
  {
    if |a| > 0 && |b| > 0 && a[0] == b[0] {
      LexLeTotal(a[1..], b[1..]);
    }
  }

  lemma {:induction false} LexLeAntisym(a: seq<int>, b: seq<int>)
    requires LexLe(a, b) && LexLe(b, a)
    ensures a == b
    decreases |a|
  {
    if |a| > 0 {
      LexLeAntisym(a[1..], b[1..]);
      assert a == [a[0]] + a[1..];
      assert b == [b[0]] + b[1..];
    }
  }

  predicate SortedBy<T>(xs: seq<T>, key: T -> seq<int>)
  {
    forall i, j :: 0 <= i < j < |xs| ==> LexLe(key(xs[i]), key(xs[j]))
  }

  /** Every element of `xs` has a key at least `lo`. */
  predicate AllAbove<T>(lo: seq<int>, xs: seq<T>, key: T -> seq<int>)
  {
    forall j :: 0 <= j < |xs| ==> LexLe(lo, key(xs[j]))
  }

  lemma AboveHead<T>(lo: seq<int>, xs: seq<T>, key: T -> seq<int>)
    requires SortedBy(xs, key) && |xs| > 0 && LexLe(lo, key(xs[0]))
    ensures AllAbove(lo, xs, key)
  {
    forall j | 0 < j < |xs|
      ensures LexLe(lo, key(xs[j]))
    {
      LexLeTrans(lo, key(xs[0]), key(xs[j]));
    }
  }

  lemma AbovePermutation<T>(lo: seq<int>, xs: seq<T>, ys: seq<T>, key: T -> seq<int>)
    requires multiset(xs) == multiset(ys) && AllAbove(lo, ys, key)
    ensures AllAbove(lo, xs, key)
  {
    forall j | 0 <= j < |xs|
      ensures LexLe(lo, key(xs[j]))
    {
      assert xs[j] in multiset(ys);
      var k :| 0 <= k < |ys| && ys[k] == xs[j];
    }
  }

  lemma ConsSorted<T>(h: T, t: seq<T>, key: T -> seq<int>)
    requires SortedBy(t, key) && AllAbove(key(h), t, key)
    ensures SortedBy([h] + t, key)
  {
  }

  /** Insert `x` before the first element whose key is not smaller. */
  function Insert<T>(x: T, xs: seq<T>, key: T -> seq<int>): (r: seq<T>)
    requires SortedBy(xs, key)
    ensures SortedBy(r, key)
    ensures multiset(r) == multiset(xs) + multiset{x}
    decreases |xs|
  {
    if |xs| == 0 then [x]
    else if LexLe(key(x), key(xs[0])) then
      AboveHead(key(x), xs, key);
      ConsSorted(x, xs, key);
      [x] + xs
    else
      LexLeTotal(key(x), key(xs[0]));
      var rest := Insert(x, xs[1..], key);
      assert xs == [xs[0]] + xs[1..];
      assert AllAbove(key(xs[0]), xs[1..] + [x], key);
      AbovePermutation(key(xs[0]), rest, xs[1..] + [x], key);
      ConsSorted(xs[0], rest, key);
      [xs[0]] + rest
  }

  /** Stable insertion sort by `key`. */
  function SortBy<T>(xs: seq<T>, key: T -> seq<int>): (r: seq<T>)
    ensures SortedBy(r, key)
    ensures multiset(r) == multiset(xs)
    decreases |xs|
  {
    if |xs| == 0 then []
    else
      assert xs == [xs[0]] + xs[1..];
      Insert(xs[0], SortBy(xs[1..], key), key)
  }

  /** Sorting by a key that tells all distinct elements apart leaves no ties. */
  lemma SortedDistinctIsStrict<T>(xs: seq<T>, key: T -> seq<int>)
    requires SortedBy(xs, key)
    requires forall i, j :: 0 <= i < j < |xs| ==> key(xs[i]) != key(xs[j])
    ensures forall i, j :: 0 <= i < j < |xs| ==> LexLe(key(xs[i]), key(xs[j])) && !LexLe(key(xs[j]), key(xs[i]))
  {
    forall i, j | 0 <= i < j < |xs|
      ensures !LexLe(key(xs[j]), key(xs[i]))
    {
      if LexLe(key(xs[j]), key(xs[i])) {
        LexLeAntisym(key(xs[i]), key(xs[j]));
      }
    }
  }
}
