/**
 * The debates listing page (app/debates/page.tsx): the level and difficulty
 * toggle buttons, the query key sent for the level, and the client-side
 * difficulty and search filter over the topics the API returned.
 */
module DebatesPage {
  import opened Wrappers
  import opened Text
  import opened Seqs
  import opened Schema
  import opened DebateQueries

  /** A toggle button: clicking the selected value clears it, clicking another selects it. */
  function Toggle<T(==)>(selected: Option<T>, clicked: T): (r: Option<T>)
    ensures selected == Some(clicked) ==> r.None?
    ensures selected != Some(clicked) ==> r == Some(clicked)
  {
    if selected == Some(clicked) then None else Some(clicked)
  }

  /** Clicking the same button twice from nothing selected gets back to nothing selected. */
  lemma ToggleTwice<T>(clicked: T)
    ensures Toggle(Toggle(None, clicked), clicked) == None
  {
  }

  /** The query string of the SWR key: only the level is sent, and only when one is selected. */
  function QueryString(level: Option<string>): (q: string)
    ensures level.None? || level.value == "" ==> q == ""
    ensures level.Some? && level.value != "" ==> q == "level=" + level.value
  {
    if level.Some? && level.value != "" then "level=" + level.value else ""
  }

  /** Different selected levels give different query strings, and none collides with no selection. */
  lemma QueryStringInjective(a: string, b: string)
    requires a != "" && QueryString(Some(a)) == QueryString(Some(b))
    ensures a == b
    ensures QueryString(Some(a)) != QueryString(None)
  {
    var p := "level=";
    assert QueryString(Some(a))[|p|..] == a;
    if b != "" {
      assert QueryString(Some(b))[|p|..] == b;
    }
  }

  /** `!selectedDifficulty || topic.difficulty === selectedDifficulty`. */
  predicate MatchesDifficulty(t: Topic, difficulty: Option<string>)
  {
    difficulty.None? || difficulty.value == ""
    || (t.difficulty.Some? && DifficultyName(t.difficulty.value) == difficulty.value)
  }

  /**
   * The search test with a NULL description read as not matching: the query
   * (lower-cased) occurs in the lower-cased title or description.
   */
  predicate MatchesSearch(t: Topic, q: string)
  {
    q == "" || Contains(ToLower(t.title), ToLower(q))
    || (t.description.Some? && Contains(ToLower(t.description.value), ToLower(q)))
  }

  predicate Shown(t: Topic, difficulty: Option<string>, q: string)
  {
    MatchesDifficulty(t, difficulty) && MatchesSearch(t, q)
  }

  /** The topics the grid shows: those passing both filters, in the order received. */
  function VisibleTopics(topics: seq<Topic>, difficulty: Option<string>, q: string): (r: seq<Topic>)
    ensures forall i :: 0 <= i < |r| ==> r[i] in topics && Shown(r[i], difficulty, q)
    ensures forall i :: 0 <= i < |topics| && Shown(topics[i], difficulty, q) ==> topics[i] in r
    ensures (forall i :: 0 <= i < |topics| ==> Shown(topics[i], difficulty, q)) ==> r == topics
  {
    Filter(topics, (t: Topic) => Shown(t, difficulty, q))
  }

  /** The two filters are independent: applying one after the other gives the same list. */
  lemma FiltersCompose(topics: seq<Topic>, difficulty: Option<string>, q: string)
    ensures VisibleTopics(topics, difficulty, q)
            == Filter(Filter(topics, (t: Topic) => MatchesDifficulty(t, difficulty)), (t: Topic) => MatchesSearch(t, q))
  {
    FilterFilter(topics, (t: Topic) => MatchesDifficulty(t, difficulty), (t: Topic) => MatchesSearch(t, q),
                 (t: Topic) => Shown(t, difficulty, q));
  }

  /** Filtering keeps the received order: visible topics of a concatenation are the concatenation. */
  lemma VisibleKeepsOrder(a: seq<Topic>, b: seq<Topic>, difficulty: Option<string>, q: string)
    ensures VisibleTopics(a + b, difficulty, q) == VisibleTopics(a, difficulty, q) + VisibleTopics(b, difficulty, q)
  {
    FilterAppend(a, b, (t: Topic) => Shown(t, difficulty, q));
  }

  // ---------------------------------------------------------------- as written

  const NullDescriptionError: string := "TypeError: Cannot read properties of null (reading 'toLowerCase')"

  /**
   * The search test as the page evaluates it: when the title does not match,
   * `topic.description.toLowerCase()` is called even when the API returned a
   * NULL description, and throws.
   */
  function MatchesSearchAsWritten(t: Topic, q: string): (r: Result<bool>)
    ensures r.Failure? <==> q != "" && !Contains(ToLower(t.title), ToLower(q)) && t.description.None?
    ensures r.Success? ==> r.value == MatchesSearch(t, q)
  {
    if q == "" || Contains(ToLower(t.title), ToLower(q)) then Success(true)
    else if t.description.None? then Failure(NullDescriptionError)
    else Success(Contains(ToLower(t.description.value), ToLower(q)))
  }

  /** `topics.filter(...)` as written: the first throwing topic aborts the render. */
  function VisibleTopicsAsWritten(topics: seq<Topic>, difficulty: Option<string>, q: string): (r: Result<seq<Topic>>)
    ensures r.Failure? <==> exists i :: 0 <= i < |topics| && MatchesSearchAsWritten(topics[i], q).Failure?
    ensures r.Success? ==> r.value == VisibleTopics(topics, difficulty, q)
    decreases |topics|
  {
    if |topics| == 0 then Success([])
    else
      var t := topics[0];
      match MatchesSearchAsWritten(t, q)
      case Failure(e) => Failure(e)
      case Success(s) =>
        match VisibleTopicsAsWritten(topics[1..], difficulty, q)
        case Failure(e) =>
          assert exists i :: 0 <= i < |topics[1..]| && MatchesSearchAsWritten(topics[1..][i], q).Failure?;
          var i :| 0 <= i < |topics[1..]| && MatchesSearchAsWritten(topics[1..][i], q).Failure?;
          assert topics[i + 1] == topics[1..][i];
          Failure(e)
        case Success(rest) =>
          assert forall i :: 1 <= i < |topics| ==> topics[i] == topics[1..][i - 1];
          Success((if MatchesDifficulty(t, difficulty) && s then [t] else []) + rest)
  }

  /** A topic with an empty title and no description, searched for "x": the page throws instead of hiding it. */
  lemma NullDescriptionCrashes()
    ensures var t := Topic("d1", "", None, None, None, None, None, None, None, None, None, None, 0, false, 0);
      VisibleTopicsAsWritten([t], None, "x").Failure?
      && VisibleTopics([t], None, "x") == []
  {
    var t := Topic("d1", "", None, None, None, None, None, None, None, None, None, None, 0, false, 0);
    assert ToLower("x") == "x";
    assert !Contains(ToLower(""), "x");
    assert MatchesSearchAsWritten(t, "x").Failure?;
    assert [t][0] == t;
  }
}
