/**
 * `GET /api/courses/categories` (app/api/courses/categories/route.ts): the
 * distinct, trimmed, non-empty course categories, sorted.
 */
module Categories {
  import opened Wrappers
  import opened Text
  import opened Seqs
  import opened Sorting

  /** The sort key: the string's code points. */
  function CodePoints(s: string): (r: seq<int>)
    ensures |r| == |s| && forall i :: 0 <= i < |s| ==> r[i] == s[i] as int
  {
    seq(|s|, i requires 0 <= i < |s| => s[i] as int)
  }

  /** Different strings have different keys, so the order has no ties. */
  lemma CodePointsInjective(a: string, b: string)
    requires CodePoints(a) == CodePoints(b)
    ensures a == b
  {
    assert |a| == |b|;
    forall i | 0 <= i < |a|
      ensures a[i] == b[i]
    {
      assert CodePoints(a)[i] == CodePoints(b)[i];
    }
  }

  /** `rows.map((r) => (r.category ?? '').trim())`. */
  function Cleaned(categories: seq<Option<string>>): (r: seq<string>)
    ensures |r| == |categories|
    ensures forall i :: 0 <= i < |r| ==> r[i] == Trim(categories[i].GetOr(""))
  {
    seq(|categories|, i requires 0 <= i < |categories| => Trim(categories[i].GetOr("")))
  }

  predicate NotBlank(s: string) { s != "" }

  /** The category list: the non-empty cleaned categories, deduplicated, then ordered by code point. */
  function CategoryList(categories: seq<Option<string>>): (r: seq<string>)
    ensures forall c :: c in r <==> c != "" && c in Cleaned(categories)
    ensures Distinct(r)
    ensures SortedBy(r, CodePoints)
  {
    var cleaned := Cleaned(categories);
    var f := Filter(cleaned, NotBlank);
    assert forall c :: c in f <==> c != "" && c in cleaned by {
      assert forall i :: 0 <= i < |f| ==> f[i] in cleaned && NotBlank(f[i]);
    }
    var d := Dedupe(f);
    var r := SortBy(d, CodePoints);
    assert forall c :: c in r <==> c in multiset(d);
    DistinctPermutation(d, r);
    r
  }

  /** Every listed category is trimmed and not empty. */
  lemma CategoryListTrimmed(categories: seq<Option<string>>)
    ensures forall c :: c in CategoryList(categories) ==> c != "" && Trim(c) == c
  {
    forall c | c in CategoryList(categories)
      ensures Trim(c) == c
    {
      var cleaned := Cleaned(categories);
      var i :| 0 <= i < |cleaned| && cleaned[i] == c;
      TrimIdempotent(categories[i].GetOr(""));
    }
  }

  /** Sorted and without repeats, the list is strictly increasing. */
  lemma CategoryListStrict(categories: seq<Option<string>>)
    ensures var r := CategoryList(categories);
      forall i, j :: 0 <= i < j < |r| ==> !LexLe(CodePoints(r[j]), CodePoints(r[i]))
  {
    var r := CategoryList(categories);
    forall i, j | 0 <= i < j < |r|
      ensures CodePoints(r[i]) != CodePoints(r[j])
    {
      if CodePoints(r[i]) == CodePoints(r[j]) {
        CodePointsInjective(r[i], r[j]);
      }
    }
    SortedDistinctIsStrict(r, CodePoints);
  }

  /** The JSON body and status of the response. */
  datatype Response = Response(success: bool, data: seq<string>, status: int)

  /** The route: `categories` is the column as read, `None` when the query throws. */
  function GetCategories(categories: Option<seq<Option<string>>>): (r: Response)
    ensures r.success <==> categories.Some?
    ensures r.success ==> r.status == 200 && r.data == CategoryList(categories.value)
    ensures !r.success ==> r.status == 500 && r.data == []
  {
    match categories
    case None => Response(false, [], 500)
    case Some(cs) => Response(true, CategoryList(cs), 200)
  }
}
