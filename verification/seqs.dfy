/**
 * `Array.prototype.filter`, `find`, `findIndex`, `includes` and
 * `Array.from(new Set(xs))` over Dafny sequences.
 */
module Seqs {
  import opened Wrappers

  /** `xs.filter(p)`: the order-preserving subsequence of the elements satisfying `p`. */
  function Filter<T>(xs: seq<T>, p: T -> bool): (r: seq<T>)
    ensures |r| <= |xs|
    ensures forall i :: 0 <= i < |r| ==> r[i] in xs && p(r[i])
    ensures forall i :: 0 <= i < |xs| && p(xs[i]) ==> xs[i] in r
    ensures (forall i :: 0 <= i < |xs| ==> p(xs[i])) ==> r == xs
    decreases |xs|
  {
    if |xs| == 0 then []
    else (if p(xs[0]) then [xs[0]] else []) + Filter(xs[1..], p)
  }

  /** Filtering distributes over concatenation, so it keeps the relative order. */
  lemma {:induction false} FilterAppend<T>(a: seq<T>, b: seq<T>, p: T -> bool)
    ensures Filter(a + b, p) == Filter(a, p) + Filter(b, p)
    decreases |a|
  {
    if |a| == 0 {
      assert a + b == b;
    } else {
      assert (a + b)[0] == a[0];
      assert (a + b)[1..] == a[1..] + b;
      FilterAppend(a[1..], b, p);
    }
  }

  /** `xs.findIndex(p)`, with `|xs|` in place of -1. */
  function FirstIndex<T>(xs: seq<T>, p: T -> bool): (k: nat)
    ensures k <= |xs|
    ensures k < |xs| ==> p(xs[k])
    ensures forall j :: 0 <= j < k ==> !p(xs[j])
    decreases |xs|
  {
    if |xs| == 0 || p(xs[0]) then 0 else 1 + FirstIndex(xs[1..], p)
  }

  /** `xs.find(p)`: the first element satisfying `p`, if any. */
  function Find<T>(xs: seq<T>, p: T -> bool): (r: Option<T>)
    ensures r.None? <==> forall i :: 0 <= i < |xs| ==> !p(xs[i])
    ensures r.Some? ==> var k := FirstIndex(xs, p); k < |xs| && r.value == xs[k]
    ensures r.Some? ==> r.value in xs && p(r.value)
    decreases |xs|
  {
    if |xs| == 0 then None
    else if p(xs[0]) then Some(xs[0])
    else Find(xs[1..], p)
  }

  /** The first element of a filter is what `find` returns. */
  lemma {:induction false} FilterHeadIsFind<T>(xs: seq<T>, p: T -> bool)
    ensures |Filter(xs, p)| > 0 <==> Find(xs, p).Some?
    ensures |Filter(xs, p)| > 0 ==> Filter(xs, p)[0] == Find(xs, p).value
    decreases |xs|
  {
    if |xs| > 0 && !p(xs[0]) {
      FilterHeadIsFind(xs[1..], p);
    }
  }

  /** Searching a filtered sequence is searching the original for both conditions. */
  lemma {:induction false} FindInFilter<T>(xs: seq<T>, p: T -> bool, q: T -> bool, pq: T -> bool)
    requires forall x :: pq(x) == (p(x) && q(x))
    ensures Find(Filter(xs, p), q) == Find(xs, pq)
    decreases |xs|
  {
    if |xs| > 0 {
      var t := Filter(xs[1..], p);
      FindInFilter(xs[1..], p, q, pq);
      if p(xs[0]) {
        assert Filter(xs, p) == [xs[0]] + t;
        assert ([xs[0]] + t)[1..] == t;
      } else {
        assert Filter(xs, p) == t;
      }
    }
  }

  predicate Distinct<T(==)>(xs: seq<T>)
  {
    forall i, j :: 0 <= i < j < |xs| ==> xs[i] != xs[j]
  }

  /** `Array.from(new Set(xs))`: the first occurrence of every element, in order. */
  function Dedupe<T(==)>(xs: seq<T>): (r: seq<T>)
    ensures Distinct(r)
    ensures forall i :: 0 <= i < |r| ==> r[i] in xs
    ensures forall i :: 0 <= i < |xs| ==> xs[i] in r
    decreases |xs|
  {
    if |xs| == 0 then []
    else
      var r := Dedupe(xs[..|xs| - 1]);
      assert xs == xs[..|xs| - 1] + [xs[|xs| - 1]];
      if xs[|xs| - 1] in r then r else r + [xs[|xs| - 1]]
  }

  /** A map whose keys are listed, each once, by `keys` has `|keys|` entries. */
  lemma {:induction false} MapSizeOfKeys<K, V>(m: map<K, V>, keys: seq<K>)
    requires Distinct(keys)
    requires forall k :: k in m <==> k in keys
    ensures |m| == |keys|
    decreases |keys|
  {
    if |keys| == 0 {
      assert m == map[];
    } else {
      var k := keys[0];
      var rest := m - {k};
      forall x
        ensures x in rest <==> x in keys[1..]
      {
        if x in keys[1..] {
          var j :| 0 <= j < |keys[1..]| && keys[1..][j] == x;
          assert keys[j + 1] == x;
        }
      }
      MapSizeOfKeys(rest, keys[1..]);
      assert m.Keys == rest.Keys + {k};
    }
  }

  /**
   * Listing a map's values key by key (each key once) and permuting the list
   * yields a list as long as the map, of the map's values, holding each of them.
   */
  lemma PermutedEnumeration<K, V>(m: map<K, V>, keys: seq<K>, xs: seq<V>, ys: seq<V>)
    requires Distinct(keys) && forall k :: k in m <==> k in keys
    requires |xs| == |keys| && forall i :: 0 <= i < |keys| ==> xs[i] == m[keys[i]]
    requires multiset(ys) == multiset(xs)
    ensures |ys| == |m|
    ensures forall i :: 0 <= i < |ys| ==> ys[i] in m.Values
    ensures forall k :: k in m ==> m[k] in ys
  {
    MapSizeOfKeys(m, keys);
    assert |ys| == |multiset(ys)| == |multiset(xs)| == |xs|;
    forall i | 0 <= i < |ys|
      ensures ys[i] in m.Values
    {
      assert ys[i] in multiset(xs);
      var j :| 0 <= j < |xs| && xs[j] == ys[i];
      assert keys[j] in m;
    }
    forall k | k in m
      ensures m[k] in ys
    {
      var j :| 0 <= j < |keys| && keys[j] == k;
      assert xs[j] in multiset(ys);
      var i :| 0 <= i < |ys| && ys[i] == xs[j];
    }
  }

  /** Each element of a sequence without repeats occurs once. */
  lemma {:induction false} DistinctCounts<T>(xs: seq<T>)
    requires Distinct(xs)
    ensures forall x :: multiset(xs)[x] <= 1
    decreases |xs|
  {
    if |xs| > 0 {
      assert xs == [xs[0]] + xs[1..];
      DistinctCounts(xs[1..]);
      assert xs[0] !in xs[1..];
    }
  }

  /** A sequence in which every element occurs at most once has no repeats. */
  lemma {:induction false} CountsDistinct<T>(xs: seq<T>)
    requires forall x :: multiset(xs)[x] <= 1
    ensures Distinct(xs)
    decreases |xs|
  {
    if |xs| > 0 {
      assert xs == [xs[0]] + xs[1..];
      assert forall x :: multiset(xs[1..])[x] <= multiset(xs)[x];
      CountsDistinct(xs[1..]);
      if xs[0] in xs[1..] {
        assert multiset(xs)[xs[0]] == 1 + multiset(xs[1..])[xs[0]];
      }
    }
  }

  /** Reordering keeps a sequence free of repeats. */
  lemma DistinctPermutation<T>(xs: seq<T>, ys: seq<T>)
    requires Distinct(xs) && multiset(ys) == multiset(xs)
    ensures Distinct(ys)
  {
    DistinctCounts(xs);
    CountsDistinct(ys);
  }

  /** Filtering by `p` and then by `q` is filtering once by both. */
  lemma {:induction false} FilterFilter<T>(xs: seq<T>, p: T -> bool, q: T -> bool, pq: T -> bool)
    requires forall x :: pq(x) == (p(x) && q(x))
    ensures Filter(Filter(xs, p), q) == Filter(xs, pq)
    decreases |xs|
  {
    if |xs| > 0 {
      FilterFilter(xs[1..], p, q, pq);
      var t := Filter(xs[1..], p);
      if p(xs[0]) {
        assert Filter(xs, p) == [xs[0]] + t;
        assert ([xs[0]] + t)[1..] == t;
      } else {
        assert Filter(xs, p) == t;
      }
    }
  }
}
