/**
 * The bulk upload of conversation turns (app/api/admin/upload/turns/route.ts):
 * an admin posts a spreadsheet; every existing turn of the conversation is
 * deleted, then each usable row becomes one turn, with its language columns
 * gathered into `text_by_lang` and `romanization_by_lang`.
 */
module UploadTurns {
  import opened Wrappers
  import opened Text
  import opened Conversation
  import opened Schema
  import LessonConversations

  // ---------------------------------------------------------------- sheet rows

  /** A cell as `sheet_to_json` yields it: text or a number. Empty cells are absent. */
  datatype Cell = TextCell(s: string) | NumberCell(n: int)

  /** One column of a row: its header and its cell. */
  datatype Field = Field(key: string, cell: Cell)

  /** A row object, its keys in column order. */
  type Row = seq<Field>

  /** `row[key]`: `None` stands for `undefined`. */
  function Get(row: Row, key: string): (r: Option<Cell>)
    ensures r.None? <==> forall i :: 0 <= i < |row| ==> row[i].key != key
    ensures r.Some? ==> exists i :: 0 <= i < |row| && row[i] == Field(key, r.value)
    decreases |row|
  {
    if |row| == 0 then None
    else if row[0].key == key then Some(row[0].cell)
    else Get(row[1..], key)
  }

  /** `a ?? b`. */
  function Coalesce(a: Option<Cell>, b: Option<Cell>): (r: Option<Cell>)
    ensures a.Some? ==> r == a
    ensures a.None? ==> r == b
  {
    if a.Some? then a else b
  }

  /** JavaScript truthiness of a cell value: not `undefined`, `""` or `0`. */
  predicate Truthy(c: Option<Cell>)
  {
    match c
    case None => false
    case Some(TextCell(s)) => s != ""
    case Some(NumberCell(n)) => n != 0
  }

  /** `String(n)` for an integer. */
  function IntToString(n: int): (r: string)
    ensures |r| >= 1
    ensures n >= 0 ==> r == NatToString(n)
    ensures n < 0 ==> r == "-" + NatToString(-n)
  {
    if n >= 0 then NatToString(n) else "-" + NatToString(-n)
  }

  /** The text a cell contributes to a text column or a language map. */
  function CellText(c: Cell): string
  {
    match c
    case TextCell(s) => s
    case NumberCell(n) => IntToString(n)
  }

  // ---------------------------------------------------------------- language columns

  /** What a column header means. */
  datatype Kind = Reserved | Romanization(lang: string) | Language(lang: string) | Dropped

  /**
   * Headers equal to order, role or text in any letter case are reserved;
   * `Romanization:X` feeds the romanization map under `X`, trimmed (the text
   * between the first and the second colon); any other header with a hyphen
   * is a language code; the rest are dropped.
   */
  function KindOf(key: string): (k: Kind)
    ensures k.Reserved? <==> ToLower(key) == "order" || ToLower(key) == "role" || ToLower(key) == "text"
    ensures k.Romanization? <==> !k.Reserved? && StartsWith(key, "Romanization:")
    ensures k.Romanization? ==> k.lang == Trim(Before(After(key, ':'), ':'))
    ensures k.Language? <==> !k.Reserved? && !StartsWith(key, "Romanization:") && '-' in key
    ensures k.Language? ==> k.lang == key
  {
    var lower := ToLower(key);
    if lower == "order" || lower == "role" || lower == "text" then Reserved
    else if StartsWith(key, "Romanization:") then Romanization(Trim(Before(After(key, ':'), ':')))
    else if '-' in key then Language(key)
    else Dropped
  }

  /** The two maps a row fills. */
  datatype Target = TextTarget | RomanizationTarget

  /** The key under which a column lands in the `target` map, if it does. */
  function LangKey(target: Target, key: string): Option<string>
  {
    match (target, KindOf(key))
    case (TextTarget, Language(l)) => Some(l)
    case (RomanizationTarget, Romanization(l)) => Some(l)
    case _ => None
  }

  /** `LangKey` for one target, as the function the row's columns are folded with. */
  function Landing(target: Target): string -> Option<string>
  {
    (key: string) => LangKey(target, key)
  }

  /**
   * `record[k] = v` on a plain object: an existing key keeps its place and
   * takes the new value, a new key goes last.
   */
  function Put(m: LangMap, k: string, v: string): (r: LangMap)
    ensures Lookup(r, k) == Some(v)
    ensures forall other :: other != k ==> Lookup(r, other) == Lookup(m, other)
    ensures |r| == if Lookup(m, k).Some? then |m| else |m| + 1
    decreases |m|
  {
    if |m| == 0 then [Entry(k, v)]
    else if m[0].key == k then [Entry(k, v)] + m[1..]
    else [m[0]] + Put(m[1..], k, v)
  }

  /** Putting into a map with distinct keys keeps them distinct. */
  lemma {:induction false} PutDistinct(m: LangMap, k: string, v: string)
    requires DistinctKeys(m)
    ensures DistinctKeys(Put(m, k, v))
    decreases |m|
  {
    if |m| > 0 && m[0].key != k {
      var rest := Put(m[1..], k, v);
      PutDistinct(m[1..], k, v);
      forall i | 0 <= i < |rest|
        ensures rest[i].key != m[0].key
      {
        if rest[i].key != k {
          assert Lookup(rest, rest[i].key).Some?;
          assert Lookup(m[1..], rest[i].key).Some?;
        }
      }
    }
  }

  /** The map a row fills: every column in order, each landing under `land(key)` if anywhere, a later column overwriting an earlier one. */
  function Collect(fields: Row, land: string -> Option<string>): (m: LangMap)
    decreases |fields|
  {
    if |fields| == 0 then []
    else
      var m := Collect(fields[..|fields| - 1], land);
      var f := fields[|fields| - 1];
      match land(f.key)
      case Some(l) => Put(m, l, CellText(f.cell))
      case None => m
  }

  /** The collected map is a plain object: no key twice. */
  lemma {:induction false} CollectDistinct(fields: Row, land: string -> Option<string>)
    ensures DistinctKeys(Collect(fields, land))
    decreases |fields|
  {
    if |fields| > 0 {
      var m := Collect(fields[..|fields| - 1], land);
      CollectDistinct(fields[..|fields| - 1], land);
      var f := fields[|fields| - 1];
      if land(f.key).Some? {
        PutDistinct(m, land(f.key).value, CellText(f.cell));
      }
    }
  }

  /** Reference reading: the value of the last column that lands under `lang`. */
  function LastFor(fields: Row, land: string -> Option<string>, lang: string): Option<string>
    decreases |fields|
  {
    if |fields| == 0 then None
    else
      var f := fields[|fields| - 1];
      if land(f.key) == Some(lang) then Some(CellText(f.cell))
      else LastFor(fields[..|fields| - 1], land, lang)
  }

  /** The collected map holds, under each language, the value of the last column for it. */
  lemma {:induction false} CollectLookup(fields: Row, land: string -> Option<string>, lang: string)
    ensures Lookup(Collect(fields, land), lang) == LastFor(fields, land, lang)
    decreases |fields|
  {
    if |fields| > 0 {
      CollectLookup(fields[..|fields| - 1], land, lang);
    }
  }

  /** The map is empty exactly when no column lands in it. */
  lemma {:induction false} CollectEmpty(fields: Row, land: string -> Option<string>)
    ensures |Collect(fields, land)| == 0 <==> forall i :: 0 <= i < |fields| ==> land(fields[i].key).None?
    decreases |fields|
  {
    if |fields| > 0 {
      var init := fields[..|fields| - 1];
      CollectEmpty(init, land);
      assert forall i :: 0 <= i < |init| ==> init[i] == fields[i];
    }
  }

  // ---------------------------------------------------------------- one row

  /** `row['Order'] ?? row['order']`, and likewise for the role and the text. */
  function OrderCellOf(row: Row): Option<Cell> { Coalesce(Get(row, "Order"), Get(row, "order")) }
  function RoleCellOf(row: Row): Option<Cell> { Coalesce(Get(row, "Role"), Get(row, "role")) }
  function TextCellOf(row: Row): Option<Cell> { Coalesce(Get(row, "Text"), Get(row, "text")) }

  /** A row is skipped when its order is missing or its role or text is falsy; order 0 is kept. */
  predicate Kept(row: Row)
  {
    OrderCellOf(row).Some? && Truthy(RoleCellOf(row)) && Truthy(TextCellOf(row))
  }

  /** The `order_index` stored: a text order through `parseInt(order, 10)` (`None` is `NaN`), a number as is. */
  function OrderIndex(c: Cell): (r: Option<int>)
    ensures c.NumberCell? ==> r == Some(c.n)
    ensures c.TextCell? ==> r == ParseInt(c.s)
  {
    match c
    case TextCell(s) => ParseInt(s)
    case NumberCell(n) => Some(n)
  }

  /** A language map as written: `JSON.stringify(map)` when it has keys, SQL NULL otherwise. */
  function EncodeColumn(m: LangMap, codec: Codec): (j: Jsonb<LangMap>)
    ensures j.JNull? <==> |m| == 0
    ensures j.JString? ==> j.text == codec.stringify(m)
  {
    if |m| > 0 then JString(codec.stringify(m)) else JNull
  }

  /**
   * A row whose order the `integer` column accepts: `parseInt` reads a number
   * (`NaN` is refused) and it lies within the column's 32-bit range.
   */
  predicate OrderAccepted(row: Row)
  {
    OrderCellOf(row).Some? && OrderIndex(OrderCellOf(row).value).Some?
    && InIntegerRange(OrderIndex(OrderCellOf(row).value).value)
  }

  /**
   * The turn row inserted for a kept row, under `id`; `None` when the row is
   * skipped or the `integer` column refuses its order.
   */
  function RowTurn(cid: string, row: Row, id: string, codec: Codec): (r: Option<TurnRow>)
    ensures r.Some? <==> Kept(row) && OrderAccepted(row)
    ensures r.Some? ==>
      r.value.id == id && r.value.conversationId == cid
      && r.value.role == CellText(RoleCellOf(row).value) && r.value.text == CellText(TextCellOf(row).value)
      && r.value.orderIndex == OrderIndex(OrderCellOf(row).value).value
      && r.value.textByLang == EncodeColumn(Collect(row, Landing(TextTarget)), codec)
      && r.value.romanizationByLang == EncodeColumn(Collect(row, Landing(RomanizationTarget)), codec)
  {
    if !Kept(row) || !OrderAccepted(row) then None
    else
      Some(TurnRow(id, cid, CellText(RoleCellOf(row).value), CellText(TextCellOf(row).value),
                   EncodeColumn(Collect(row, Landing(TextTarget)), codec),
                   EncodeColumn(Collect(row, Landing(RomanizationTarget)), codec),
                   OrderIndex(OrderCellOf(row).value).value))
  }

  /** Read back through the lesson page, a stored map is the map that was written. */
  lemma EncodeColumnReadsBack(m: LangMap, codec: Codec)
    requires codec.parse(codec.stringify(m)) == Some(m)
    ensures LessonConversations.DecodeColumn(EncodeColumn(m, codec), codec)
            == Success(if |m| == 0 then None else Some(m))
  {
  }

  /** What the loop does with one row: skip it, insert its turn, or attempt an insert the column rejects. */
  datatype Step = Skip | Reject | Insert(turn: TurnRow)

  function RowStep(cid: string, row: Row, id: string, codec: Codec): (s: Step)
    ensures s.Skip? <==> !Kept(row)
    ensures s.Reject? <==> Kept(row) && !OrderAccepted(row)
    ensures s.Insert? ==> RowTurn(cid, row, id, codec) == Some(s.turn)
  {
    if !Kept(row) then Skip
    else
      match RowTurn(cid, row, id, codec)
      case None => Reject
      case Some(t) => Insert(t)
  }

  /** A usable row whose number order lies past the 32-bit range is an insert the column refuses. */
  lemma OrderBeyondIntegerRejected(cid: string, row: Row, id: string, codec: Codec)
    requires Kept(row) && OrderCellOf(row).value.NumberCell? && !InIntegerRange(OrderCellOf(row).value.n)
    ensures RowStep(cid, row, id, codec) == Reject
  {
  }

  /** The steps of a sheet, row `i`'s turn under the id `idOf(i)`. */
  function Steps(cid: string, rows: seq<Row>, idOf: nat -> string, codec: Codec): (steps: seq<Step>)
    ensures |steps| == |rows|
    ensures forall i :: 0 <= i < |rows| ==> steps[i] == RowStep(cid, rows[i], idOf(i), codec)
  {
    seq(|rows|, i requires 0 <= i < |rows| => RowStep(cid, rows[i], idOf(i), codec))
  }

  // ---------------------------------------------------------------- the insert loop

  /** The turns table after the loop, and whether every insert succeeded. */
  datatype Outcome = Outcome(turns: map<string, TurnRow>, ok: bool)

  /**
   * `for (const row of rows)` from step `from` on, against the turns table
   * and the ids of the existing conversations: skip, or insert; an insert
   * fails on a taken id or a missing conversation (as `Schema.InsertTurn`
   * does, see `StepInsertIsInsertTurn`), and the first failure ends the loop,
   * keeping what was inserted before it.
   */
  function InsertSteps(turns: map<string, TurnRow>, conversations: set<string>, steps: seq<Step>, from: nat): (out: Outcome)
    requires from <= |steps|
    ensures forall k :: k in turns ==> k in out.turns && out.turns[k] == turns[k]
    ensures forall k :: k in out.turns && k !in turns ==>
              exists i :: from <= i < |steps| && steps[i] == Insert(out.turns[k]) && k == steps[i].turn.id
    ensures out.ok ==> forall i :: from <= i < |steps| ==> !steps[i].Reject?
    ensures out.ok ==> forall i :: from <= i < |steps| && steps[i].Insert? ==>
              steps[i].turn.id in out.turns && out.turns[steps[i].turn.id] == steps[i].turn
    decreases |steps| - from
  {
    if from == |steps| then Outcome(turns, true)
    else
      match steps[from]
      case Skip => InsertSteps(turns, conversations, steps, from + 1)
      case Reject => Outcome(turns, false)
      case Insert(t) =>
        if t.id in turns || t.conversationId !in conversations then Outcome(turns, false)
        else InsertSteps(turns[t.id := t], conversations, steps, from + 1)
  }

  /** One insert of the loop is the schema's insert of a turn. */
  lemma StepInsertIsInsertTurn(db: Db, t: TurnRow)
    ensures InsertTurn(db, t).Success? <==> !(t.id in db.turns || t.conversationId !in db.conversations.Keys)
    ensures InsertTurn(db, t).Success? ==> InsertTurn(db, t).value == db.(turns := db.turns[t.id := t])
  {
  }

  /** The steps from `from` on that a run of the loop can take without a constraint failing. */
  predicate Insertable(turns: map<string, TurnRow>, conversations: set<string>, steps: seq<Step>, from: nat)
  {
    (forall i :: from <= i < |steps| ==> !steps[i].Reject?)
    && (forall i :: from <= i < |steps| && steps[i].Insert? ==>
          steps[i].turn.id !in turns && steps[i].turn.conversationId in conversations)
    && (forall i, j :: from <= i < j < |steps| && steps[i].Insert? && steps[j].Insert? ==>
          steps[i].turn.id != steps[j].turn.id)
  }

  /** After inserting step `from`'s turn, the rest of the loop faces one more taken id. */
  lemma InsertableStep(turns: map<string, TurnRow>, conversations: set<string>, steps: seq<Step>, from: nat)
    requires from < |steps| && steps[from].Insert?
    requires steps[from].turn.id !in turns && steps[from].turn.conversationId in conversations
    ensures var t := steps[from].turn;
      Insertable(turns, conversations, steps, from) <==> Insertable(turns[t.id := t], conversations, steps, from + 1)
  {
    var t := steps[from].turn;
    var turns' := turns[t.id := t];
    if Insertable(turns', conversations, steps, from + 1) {
      forall i, j | from <= i < j < |steps| && steps[i].Insert? && steps[j].Insert?
        ensures steps[i].turn.id != steps[j].turn.id
      {
        if i == from {
          assert steps[j].turn.id !in turns';
        }
      }
    }
    if Insertable(turns, conversations, steps, from) {
      forall i | from + 1 <= i < |steps| && steps[i].Insert?
        ensures steps[i].turn.id !in turns'
      {
        assert t.id != steps[i].turn.id;
      }
    }
  }

  /**
   * The loop runs to the end exactly when no step is rejected, and the turns
   * to insert have fresh, pairwise distinct ids and existing conversations.
   */
  lemma {:induction false} InsertStepsOk(turns: map<string, TurnRow>, conversations: set<string>, steps: seq<Step>, from: nat)
    requires from <= |steps|
    ensures InsertSteps(turns, conversations, steps, from).ok <==> Insertable(turns, conversations, steps, from)
    decreases |steps| - from
  {
    if from < |steps| {
      InsertableHead(turns, conversations, steps, from);
      match steps[from]
      case Skip =>
        InsertStepsOk(turns, conversations, steps, from + 1);
      case Reject =>
      case Insert(t) =>
        if !(t.id in turns || t.conversationId !in conversations) {
          InsertStepsOk(turns[t.id := t], conversations, steps, from + 1);
          InsertableStep(turns, conversations, steps, from);
        }
    }
  }

  /** Step `from` alone: a skip leaves the rest to decide, a reject or a failing insert rules the run out. */
  lemma InsertableHead(turns: map<string, TurnRow>, conversations: set<string>, steps: seq<Step>, from: nat)
    requires from < |steps|
    ensures steps[from].Skip? ==>
      (Insertable(turns, conversations, steps, from) <==> Insertable(turns, conversations, steps, from + 1))
    ensures steps[from].Reject? ==> !Insertable(turns, conversations, steps, from)
    ensures steps[from].Insert? && (steps[from].turn.id in turns || steps[from].turn.conversationId !in conversations) ==>
      !Insertable(turns, conversations, steps, from)
  {
    if steps[from].Skip? && Insertable(turns, conversations, steps, from + 1) {
      forall i, j | from <= i < j < |steps| && steps[i].Insert? && steps[j].Insert?
        ensures steps[i].turn.id != steps[j].turn.id
      {
        assert i != from;
      }
    }
  }

  /**
   * How a sheet's steps relate to its rows, for a row filter `kept` and an
   * order test `numeric`: skipped, rejected, or the row's turn under its id.
   */
  predicate StepsFollowRows(cid: string, rows: seq<Row>, idOf: nat -> string, kept: Row -> bool, numeric: Row -> bool, steps: seq<Step>)
  {
    |steps| == |rows|
    && forall i :: 0 <= i < |rows| ==>
      (steps[i].Skip? <==> !kept(rows[i]))
      && (steps[i].Reject? <==> kept(rows[i]) && !numeric(rows[i]))
      && (steps[i].Insert? ==> steps[i].turn.id == idOf(i) && steps[i].turn.conversationId == cid)
  }

  /**
   * On a sheet: the steps can all be taken exactly when every kept row has a
   * numeric order, the kept rows' ids are fresh and pairwise distinct, and
   * the conversation exists if any row is kept.
   */
  lemma StepsInsertable(turns: map<string, TurnRow>, conversations: set<string>, cid: string, rows: seq<Row>, idOf: nat -> string, codec: Codec)
    ensures Insertable(turns, conversations, Steps(cid, rows, idOf, codec), 0) <==>
      (forall i :: 0 <= i < |rows| && Kept(rows[i]) ==> OrderAccepted(rows[i]) && idOf(i) !in turns)
      && (forall i, j :: 0 <= i < j < |rows| && Kept(rows[i]) && Kept(rows[j]) ==> idOf(i) != idOf(j))
      && ((exists i :: 0 <= i < |rows| && Kept(rows[i])) ==> cid in conversations)
  {
    StepsOfSheet(cid, rows, idOf, codec);
    InsertableRows(turns, conversations, cid, rows, idOf, Kept, OrderAccepted, Steps(cid, rows, idOf, codec));
  }

  /** `StepsInsertable` for any steps that follow the rows. */
  lemma InsertableRows(turns: map<string, TurnRow>, conversations: set<string>, cid: string, rows: seq<Row>, idOf: nat -> string,
                       kept: Row -> bool, numeric: Row -> bool, steps: seq<Step>)
    requires StepsFollowRows(cid, rows, idOf, kept, numeric, steps)
    ensures Insertable(turns, conversations, steps, 0) <==>
      (forall i :: 0 <= i < |rows| && kept(rows[i]) ==> numeric(rows[i]) && idOf(i) !in turns)
      && (forall i, j :: 0 <= i < j < |rows| && kept(rows[i]) && kept(rows[j]) ==> idOf(i) != idOf(j))
      && ((exists i :: 0 <= i < |rows| && kept(rows[i])) ==> cid in conversations)
  {
    if Insertable(turns, conversations, steps, 0) {
      forall i | 0 <= i < |rows| && kept(rows[i])
        ensures numeric(rows[i]) && idOf(i) !in turns
      {
        assert steps[i].Insert?;
      }
      forall i, j | 0 <= i < j < |rows| && kept(rows[i]) && kept(rows[j])
        ensures idOf(i) != idOf(j)
      {
        assert steps[i].Insert? && steps[j].Insert?;
      }
      if (exists i :: 0 <= i < |rows| && kept(rows[i])) {
        var i :| 0 <= i < |rows| && kept(rows[i]);
        assert steps[i].Insert?;
      }
    }
  }

  // ---------------------------------------------------------------- the route

  /** What `sheet_to_json` made of the first sheet: its rows, or a throw. */
  datatype Sheet = Unreadable | Rows(rows: seq<Row>)

  /** The multipart form: `file` and `conversationId`, each possibly absent. */
  datatype Form = Form(file: Option<Sheet>, conversationId: Option<string>)

  /** The route's error responses, each shown as its `ProblemText`. */
  datatype Problem = Unauthorized | ProcessingFailed | MissingInput | EmptyFile | DatabaseError

  function ProblemText(p: Problem): string
  {
    match p
    case Unauthorized => "Unauthorized"
    case ProcessingFailed => "Failed to process file"
    case MissingInput => "Missing file or conversationId"
    case EmptyFile => "Empty file"
    case DatabaseError => "Database error"
  }

  datatype Body = Uploaded(count: nat) | Error(problem: Problem)
  datatype Response = Response(status: int, body: Body)

  /** The response and the database after the request. */
  datatype Handled = Handled(response: Response, db: Db)

  /** `DELETE FROM conversation_turns WHERE conversation_id = $cid`. */
  function DeleteTurnsOf(db: Db, cid: string): (db': Db)
    ensures db' == db.(turns := db'.turns)
    ensures forall k :: k in db'.turns <==> k in db.turns && db.turns[k].conversationId != cid
    ensures forall k :: k in db'.turns ==> db'.turns[k] == db.turns[k]
  {
    db.(turns := map k | k in db.turns && db.turns[k].conversationId != cid :: db.turns[k])
  }

  /**
   * `POST /api/admin/upload/turns`. `role` is the session's role (`None`: no
   * session); `form` is `None` when the body is not a form. `deleteFails`
   * stands for the DELETE throwing for a reason outside the model, such as a
   * lost connection. The turn of row `i` gets the id `idOf(i)`.
   */
  function Upload(db: Db, role: Option<UserRole>, form: Option<Form>, deleteFails: bool, idOf: nat -> string, codec: Codec): (h: Handled)
    ensures h.response.status == 401 <==> role != Some(Admin)
    ensures h.response.status in {200, 400, 401, 500}
    ensures h.response.status != 200 && h.response.body != Error(DatabaseError) ==> h.db == db
    ensures deleteFails ==> h.db == db
    ensures h.response.status == 200 ==>
      form.Some? && form.value.file.Some? && form.value.file.value.Rows?
      && h.response.body == Uploaded(|form.value.file.value.rows|)
  {
    if role != Some(Admin) then Handled(Response(401, Error(Unauthorized)), db)
    else if form.None? then Handled(Response(500, Error(ProcessingFailed)), db)
    else if form.value.file.None? || form.value.conversationId.None? || form.value.conversationId.value == "" then
      Handled(Response(400, Error(MissingInput)), db)
    else
      match form.value.file.value
      case Unreadable => Handled(Response(500, Error(ProcessingFailed)), db)
      case Rows(rows) =>
        if |rows| == 0 then Handled(Response(400, Error(EmptyFile)), db)
        else if deleteFails then Handled(Response(500, Error(DatabaseError)), db)
        else
          var cid := form.value.conversationId.value;
          var cleared := DeleteTurnsOf(db, cid);
          var out := InsertSteps(cleared.turns, db.conversations.Keys, Steps(cid, rows, idOf, codec), 0);
          if out.ok then Handled(Response(200, Uploaded(|rows|)), cleared.(turns := out.turns))
          else Handled(Response(500, Error(DatabaseError)), cleared.(turns := out.turns))
  }

  /** A well-formed upload: an admin, a readable non-empty sheet and a non-empty conversation id. */
  predicate Accepted(role: Option<UserRole>, form: Option<Form>)
  {
    role == Some(Admin) && form.Some? && form.value.file.Some? && form.value.file.value.Rows?
    && |form.value.file.value.rows| > 0
    && form.value.conversationId.Some? && form.value.conversationId.value != ""
  }

  /**
   * The upload succeeds exactly when it is well formed, the DELETE runs, and
   * the sheet's kept rows can all be inserted once the conversation's turns
   * are gone.
   */
  lemma UploadSucceeds(db: Db, role: Option<UserRole>, form: Option<Form>, deleteFails: bool, idOf: nat -> string, codec: Codec)
    ensures Upload(db, role, form, deleteFails, idOf, codec).response.status == 200 <==>
      Accepted(role, form) && !deleteFails
      && var cid := form.value.conversationId.value;
         Insertable(DeleteTurnsOf(db, cid).turns, db.conversations.Keys, Steps(cid, form.value.file.value.rows, idOf, codec), 0)
  {
    if Accepted(role, form) && !deleteFails {
      var cid := form.value.conversationId.value;
      InsertStepsOk(DeleteTurnsOf(db, cid).turns, db.conversations.Keys, Steps(cid, form.value.file.value.rows, idOf, codec), 0);
    }
  }

  /**
   * Replace semantics: once the delete has run (on success, and also after a
   * failing insert), the conversation's turns are only turns built from sheet
   * rows, every other turn is as before, and nothing outside the turns table
   * changed. A DELETE that throws leaves the store as it was.
   */
  lemma UploadReplaces(db: Db, role: Option<UserRole>, form: Option<Form>, deleteFails: bool, idOf: nat -> string, codec: Codec)
    requires Accepted(role, form)
    ensures deleteFails ==> Upload(db, role, form, deleteFails, idOf, codec) == Handled(Response(500, Error(DatabaseError)), db)
    ensures var h := Upload(db, role, form, deleteFails, idOf, codec);
      var cid := form.value.conversationId.value;
      var rows := form.value.file.value.rows;
      !deleteFails ==>
      && h.db == db.(turns := h.db.turns)
      && (forall k :: k in db.turns && db.turns[k].conversationId != cid ==> k in h.db.turns && h.db.turns[k] == db.turns[k])
      && (forall k :: k in h.db.turns && h.db.turns[k].conversationId == cid ==>
            exists i :: 0 <= i < |rows| && k == idOf(i) && RowTurn(cid, rows[i], idOf(i), codec) == Some(h.db.turns[k]))
      && (forall k :: k in h.db.turns && h.db.turns[k].conversationId != cid ==> k in db.turns && h.db.turns[k] == db.turns[k])
  {
    if !deleteFails {
      var cid := form.value.conversationId.value;
      var rows := form.value.file.value.rows;
      var steps := Steps(cid, rows, idOf, codec);
      var cleared := DeleteTurnsOf(db, cid);
      var out := InsertSteps(cleared.turns, db.conversations.Keys, steps, 0);
      assert Upload(db, role, form, deleteFails, idOf, codec).db == cleared.(turns := out.turns);
      StepsOfSheet(cid, rows, idOf, codec);
      ReplaceSteps(db.turns, db.conversations.Keys, cid, steps);
      forall k | k in out.turns && out.turns[k].conversationId == cid
        ensures exists i :: 0 <= i < |rows| && k == idOf(i) && RowTurn(cid, rows[i], idOf(i), codec) == Some(out.turns[k])
      {
        var i :| 0 <= i < |steps| && steps[i] == Insert(out.turns[k]) && k == steps[i].turn.id;
        assert k == idOf(i) && RowTurn(cid, rows[i], idOf(i), codec) == Some(out.turns[k]);
      }
    }
  }

  /** The turn a sheet's step inserts is its row's turn, under the row's id, in the conversation. */
  lemma StepsOfSheet(cid: string, rows: seq<Row>, idOf: nat -> string, codec: Codec)
    ensures StepsFollowRows(cid, rows, idOf, Kept, OrderAccepted, Steps(cid, rows, idOf, codec))
    ensures var steps := Steps(cid, rows, idOf, codec);
      forall i :: 0 <= i < |steps| && steps[i].Insert? ==>
        steps[i].turn.conversationId == cid && steps[i].turn.id == idOf(i)
        && RowTurn(cid, rows[i], idOf(i), codec) == Some(steps[i].turn)
  {
  }

  /**
   * Clearing a conversation's turns and running the loop over steps that all
   * belong to it: every other turn is kept as it was, its turns are exactly
   * the ones the steps inserted, and no other table changes.
   */
  lemma ReplaceSteps(turns: map<string, TurnRow>, conversations: set<string>, cid: string, steps: seq<Step>)
    requires forall i :: 0 <= i < |steps| && steps[i].Insert? ==> steps[i].turn.conversationId == cid
    ensures var cleared := map k | k in turns && turns[k].conversationId != cid :: turns[k];
      var out := InsertSteps(cleared, conversations, steps, 0);
      && (forall k :: k in turns && turns[k].conversationId != cid ==> k in out.turns && out.turns[k] == turns[k])
      && (forall k :: k in out.turns && out.turns[k].conversationId == cid ==>
            exists i :: 0 <= i < |steps| && steps[i] == Insert(out.turns[k]) && k == steps[i].turn.id)
      && (forall k :: k in out.turns && out.turns[k].conversationId != cid ==> k in turns && out.turns[k] == turns[k])
  {
    var cleared := map k | k in turns && turns[k].conversationId != cid :: turns[k];
    var out := InsertSteps(cleared, conversations, steps, 0);
    forall k | k in out.turns && k !in cleared
      ensures out.turns[k].conversationId == cid
    {
      var i :| 0 <= i < |steps| && steps[i] == Insert(out.turns[k]) && k == steps[i].turn.id;
    }
  }

  /** On success every kept row of the sheet is stored under its id, as its turn. */
  lemma UploadStoresKept(db: Db, role: Option<UserRole>, form: Option<Form>, deleteFails: bool, idOf: nat -> string, codec: Codec)
    requires Upload(db, role, form, deleteFails, idOf, codec).response.status == 200
    ensures var h := Upload(db, role, form, deleteFails, idOf, codec);
      var cid := form.value.conversationId.value;
      var rows := form.value.file.value.rows;
      forall i :: 0 <= i < |rows| && Kept(rows[i]) ==>
        idOf(i) in h.db.turns && RowTurn(cid, rows[i], idOf(i), codec) == Some(h.db.turns[idOf(i)])
  {
    var cid := form.value.conversationId.value;
    var rows := form.value.file.value.rows;
    var steps := Steps(cid, rows, idOf, codec);
    var cleared := DeleteTurnsOf(db, cid);
    var out := InsertSteps(cleared.turns, db.conversations.Keys, steps, 0);
    assert Upload(db, role, form, deleteFails, idOf, codec).db == cleared.(turns := out.turns) && out.ok;
    StepsOfSheet(cid, rows, idOf, codec);
    forall i | 0 <= i < |rows| && Kept(rows[i])
      ensures steps[i].Insert? && steps[i].turn.id == idOf(i)
    {
      assert !steps[i].Reject?;
    }
  }

  /** A language map without entries reads back as absent. */
  function NonEmpty(m: LangMap): (r: Option<LangMap>)
    ensures r.None? <==> |m| == 0
    ensures r.Some? ==> r.value == m
  {
    if |m| == 0 then None else Some(m)
  }

  /**
   * An uploaded turn, read back by the lesson page through a codec that
   * round-trips, has the row's role, text and order, and the collected maps
   * (absent when no column landed in them).
   */
  lemma RowReadsBack(cid: string, row: Row, id: string, codec: Codec)
    requires RowTurn(cid, row, id, codec).Some?
    requires codec.parse(codec.stringify(Collect(row, Landing(TextTarget)))) == Some(Collect(row, Landing(TextTarget)))
    requires codec.parse(codec.stringify(Collect(row, Landing(RomanizationTarget)))) == Some(Collect(row, Landing(RomanizationTarget)))
    ensures LessonConversations.TurnOf(RowTurn(cid, row, id, codec).value, codec)
            == Success(Turn(id, CellText(RoleCellOf(row).value), CellText(TextCellOf(row).value),
                            NonEmpty(Collect(row, Landing(TextTarget))), NonEmpty(Collect(row, Landing(RomanizationTarget))),
                            OrderIndex(OrderCellOf(row).value).value))
  {
    EncodeColumnReadsBack(Collect(row, Landing(TextTarget)), codec);
    EncodeColumnReadsBack(Collect(row, Landing(RomanizationTarget)), codec);
  }
}
