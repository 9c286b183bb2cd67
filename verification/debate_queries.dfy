/**
 * The debate-topic reads of lib/debates.ts: `getDebateTopics` (filtered,
 * best rated first) and `getDebateTopicById`. A table is read as a sequence
 * of rows in storage order; `None` stands for a query that throws.
 */
module DebateQueries {
  import opened Wrappers
  import opened Seqs
  import opened Sorting
  import opened Schema
  import opened Sql

  /** `GetDebatesFilters`: level, category and the featured switch. */
  datatype TopicFilters = TopicFilters(level: Option<string>, category: Option<string>, featured: bool)

  predicate Given(v: Option<string>) { v.Some? && v.value != "" }

  /** A level filter that is not a `course_level` label makes Postgres throw. */
  predicate LevelRejected(f: TopicFilters)
  {
    Given(f.level) && ParseLevel(f.level.value).None?
  }

  /** The `WHERE` clause. */
  predicate TopicMatches(f: TopicFilters, t: TopicRow)
  {
    (Given(f.level) ==> t.level.Some? && LevelName(t.level.value) == f.level.value)
    && (Given(f.category) ==> ILike(t.category, f.category.value))
    && (f.featured ==> t.isFeatured == Some(true))
  }

  /** `ORDER BY rating DESC, participants DESC`. */
  function Rank(t: TopicRow): (k: seq<int>)
    ensures |k| == 4
  {
    DescNullsFirst(t.rating) + DescNullsFirst(t.participants)
  }

  /** `x` comes no later than `y` under `DESC` (NULLs first). */
  predicate DescBefore(x: Option<int>, y: Option<int>)
  {
    x.None? || (y.Some? && x.value >= y.value)
  }

  /** What the rank order means: rating first, participants on a tie. */
  lemma RankOrder(a: TopicRow, b: TopicRow)
    ensures LexLe(Rank(a), Rank(b)) <==>
      (a.rating != b.rating && DescBefore(a.rating, b.rating))
      || (a.rating == b.rating && DescBefore(a.participants, b.participants))
  {
    ThenBy(DescNullsFirst(a.rating), DescNullsFirst(b.rating), DescNullsFirst(a.participants), DescNullsFirst(b.participants));
    DescNullsFirstOrder(a.rating, b.rating);
    DescNullsFirstOrder(a.participants, b.participants);
    assert DescNullsFirst(a.rating) == DescNullsFirst(b.rating) ==> a.rating == b.rating;
  }

  /** The rows `getDebateTopics` selects, in the order it returns them. */
  function SelectedTopics(table: seq<TopicRow>, f: TopicFilters): (r: seq<TopicRow>)
    ensures forall t :: t in r <==> t in table && TopicMatches(f, t)
    ensures multiset(r) == multiset(Filter(table, (t: TopicRow) => TopicMatches(f, t)))
    ensures forall i, j :: 0 <= i < j < |r| ==>
      (r[i].rating != r[j].rating && DescBefore(r[i].rating, r[j].rating))
      || (r[i].rating == r[j].rating && DescBefore(r[i].participants, r[j].participants))
  {
    var r := Select(table, (t: TopicRow) => TopicMatches(f, t), Rank);
    forall i, j | 0 <= i < j < |r|
      ensures (r[i].rating != r[j].rating && DescBefore(r[i].rating, r[j].rating))
              || (r[i].rating == r[j].rating && DescBefore(r[i].participants, r[j].participants))
    {
      RankOrder(r[i], r[j]);
    }
    r
  }

  /** A topic as returned. */
  datatype Topic = Topic(
    id: string, title: string, description: Option<string>, category: Option<string>,
    level: Option<CourseLevel>,
    proArguments: Option<seq<string>>, conArguments: Option<seq<string>>,
    vocabularyTips: Option<seq<string>>, phrasesSuggested: Option<seq<string>>,
    duration: Option<int>, difficulty: Option<Difficulty>, participants: Option<int>,
    rating: int, isFeatured: bool, createdAt: int)

  /**
   * `typeof v === 'string' ? JSON.parse(v) : v` on a list column: a stored
   * string is parsed (`parse` returns `None` where `JSON.parse` throws), any
   * other value passes through, NULL stays NULL.
   */
  function DecodeList(j: Jsonb<seq<string>>, parse: string -> Option<seq<string>>): (r: Result<Option<seq<string>>>)
    ensures r.Failure? <==> j.JString? && parse(j.text).None?
    ensures r == Success(None) <==> j.JNull?
    ensures j.JValue? ==> r == Success(Some(j.value))
    ensures j.JString? && parse(j.text).Some? ==> r == Success(parse(j.text))
  {
    match j
    case JNull => Success(None)
    case JValue(v) => Success(Some(v))
    case JString(t) =>
      match parse(t)
      case None => Failure("Unexpected token in JSON")
      case Some(v) => Success(Some(v))
  }

  /** Every list column of the row decodes. */
  predicate Decodes(t: TopicRow, parse: string -> Option<seq<string>>)
  {
    DecodeList(t.proArguments, parse).Success? && DecodeList(t.conArguments, parse).Success?
    && DecodeList(t.vocabularyTips, parse).Success? && DecodeList(t.phrasesSuggested, parse).Success?
  }

  /** One row's normalisation: lists decoded, `Number(rating)`, `Boolean(isFeatured)`, `new Date(createdAt)`. */
  function NormaliseTopic(t: TopicRow, parse: string -> Option<seq<string>>): (r: Result<Topic>)
    ensures r.Success? <==> Decodes(t, parse)
    ensures r.Success? ==>
      r.value.id == t.id && r.value.title == t.title && r.value.participants == t.participants
      && Success(r.value.proArguments) == DecodeList(t.proArguments, parse)
      && Success(r.value.conArguments) == DecodeList(t.conArguments, parse)
      && Success(r.value.vocabularyTips) == DecodeList(t.vocabularyTips, parse)
      && Success(r.value.phrasesSuggested) == DecodeList(t.phrasesSuggested, parse)
      && r.value.rating == t.rating.GetOr(0)
      && (r.value.isFeatured <==> t.isFeatured == Some(true))
      && r.value.createdAt == t.createdAt.GetOr(0)
  {
    if !Decodes(t, parse) then Failure("Unexpected token in JSON")
    else
      Success(Topic(t.id, t.title, t.description, t.category, t.level,
        DecodeList(t.proArguments, parse).value, DecodeList(t.conArguments, parse).value,
        DecodeList(t.vocabularyTips, parse).value, DecodeList(t.phrasesSuggested, parse).value,
        t.duration, t.difficulty, t.participants, t.rating.GetOr(0), t.isFeatured == Some(true),
        t.createdAt.GetOr(0)))
  }

  /** `rows.map(...)`: one row that fails to parse makes the whole map throw. */
  function NormaliseAll(rows: seq<TopicRow>, parse: string -> Option<seq<string>>): (r: Result<seq<Topic>>)
    ensures r.Success? <==> forall i :: 0 <= i < |rows| ==> Decodes(rows[i], parse)
    ensures r.Success? ==>
      |r.value| == |rows| && forall i :: 0 <= i < |rows| ==> Success(r.value[i]) == NormaliseTopic(rows[i], parse)
    decreases |rows|
  {
    if |rows| == 0 then Success([])
    else
      match NormaliseTopic(rows[0], parse)
      case Failure(e) => Failure(e)
      case Success(t) =>
        match NormaliseAll(rows[1..], parse)
        case Failure(e) => Failure(e)
        case Success(ts) => Success([t] + ts)
  }

  /** `getDebateTopics(filters)`: `[]` whenever anything inside the `try` throws. */
  function GetDebateTopics(table: Option<seq<TopicRow>>, f: TopicFilters, parse: string -> Option<seq<string>>): (r: seq<Topic>)
    ensures table.None? || LevelRejected(f) ==> r == []
    ensures table.Some? && !LevelRejected(f) ==>
      var rows := SelectedTopics(table.value, f);
      && ((exists i :: 0 <= i < |rows| && !Decodes(rows[i], parse)) ==> r == [])
      && ((forall i :: 0 <= i < |rows| ==> Decodes(rows[i], parse)) ==>
            |r| == |rows| && forall i :: 0 <= i < |r| ==> Success(r[i]) == NormaliseTopic(rows[i], parse))
  {
    if table.None? || LevelRejected(f) then []
    else
      match NormaliseAll(SelectedTopics(table.value, f), parse)
      case Failure(_) => []
      case Success(ts) => ts
  }

  /** Every topic returned under the featured switch is featured. */
  lemma FeaturedOnly(table: seq<TopicRow>, level: Option<string>, category: Option<string>, parse: string -> Option<seq<string>>)
    ensures forall t :: t in SelectedTopics(table, TopicFilters(level, category, true)) ==> t.isFeatured == Some(true)
    ensures forall i :: 0 <= i < |GetDebateTopics(Some(table), TopicFilters(level, category, true), parse)| ==>
      GetDebateTopics(Some(table), TopicFilters(level, category, true), parse)[i].isFeatured
  {
    var f := TopicFilters(level, category, true);
    var r := GetDebateTopics(Some(table), f, parse);
    if !LevelRejected(f) {
      var rows := SelectedTopics(table, f);
      forall i | 0 <= i < |r|
        ensures r[i].isFeatured
      {
        assert rows[i] in rows;
      }
    }
  }

  /** `getDebateTopicById(id)`: `null` for an unknown id, an unparsable list or a failing query. */
  function GetDebateTopicById(table: Option<seq<TopicRow>>, id: string, parse: string -> Option<seq<string>>): (r: Option<Topic>)
    ensures r.Some? ==> table.Some? && r.value.id == id
    ensures table.Some? && (forall i :: 0 <= i < |table.value| ==> table.value[i].id != id) ==> r.None?
    ensures r.Some? ==> Success(r.value) == NormaliseTopic(Find(table.value, (t: TopicRow) => t.id == id).value, parse)
    ensures table.Some? && Find(table.value, (t: TopicRow) => t.id == id).Some? ==>
      (r.Some? <==> Decodes(Find(table.value, (t: TopicRow) => t.id == id).value, parse))
  {
    if table.None? then None
    else
      match Find(table.value, (t: TopicRow) => t.id == id)
      case None => None
      case Some(t) =>
        match NormaliseTopic(t, parse)
        case Failure(_) => None
        case Success(topic) => Some(topic)
  }
}
