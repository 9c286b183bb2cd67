/**
 * The conversation server actions (lib/admin-conversation-actions.ts):
 * `createConversation`, `updateConversation` and `deleteConversation`.
 */
module AdminConversations {
  import opened Wrappers
  import opened Schema
  import opened AdminForms

  /** A validated conversation form, normalised the way the actions store it. */
  datatype ConversationFields = ConversationFields(
    lessonId: Option<string>, title: string, description: Option<string>, scenario: Option<string>)

  /** The lesson picker's value: `'none'` means no lesson and becomes `null` before validation. */
  function LessonChoice(value: Option<string>): (r: Option<string>)
    ensures value == Some("none") ==> r.None?
    ensures value != Some("none") ==> r == value
  {
    if value == Some("none") then None else value
  }

  /**
   * `ConversationSchema.omit({ id: true }).safeParse(rawData)` and the
   * `|| null` normalisation: only an empty or missing title is rejected.
   */
  function ValidateConversation(form: Form): (r: Validated<ConversationFields>)
    ensures r.Rejected? <==> Get(form, "title").None? || form["title"] == ""
    ensures r.Rejected? ==> r.fields == {"title"}
    ensures r.Parsed? ==>
      && r.value.title == form["title"]
      && r.value.lessonId == NullIfBlank(LessonChoice(Get(form, "lesson_id")))
      && r.value.description == NullIfBlank(Get(form, "description"))
      && r.value.scenario == NullIfBlank(Get(form, "scenario"))
  {
    match RequiredText(Get(form, "title"))
    case Invalid => Rejected({"title"})
    case Valid(title) =>
      Parsed(ConversationFields(
        NullIfBlank(LessonChoice(Get(form, "lesson_id"))), title,
        NullIfBlank(Get(form, "description")), NullIfBlank(Get(form, "scenario"))))
  }

  function ConversationRowOf(id: string, f: ConversationFields): (c: ConversationRow)
    ensures c.id == id && c.lessonId == f.lessonId && c.title == f.title
    ensures c.description == f.description && c.scenario == f.scenario
  {
    ConversationRow(id, f.lessonId, f.title, f.description, f.scenario)
  }

  /**
   * `createConversation`: the id is `conv` and the timestamp `stamp`; a taken
   * id fails, and so does an insert that throws for a reason outside the
   * model (`fault`).
   */
  function CreateConversation(db: Db, form: Form, stamp: nat, fault: bool): (a: Acted<Db>)
    ensures a.result.FieldErrors? <==> ValidateConversation(form).Rejected?
    ensures a.result.Failed? <==> ValidateConversation(form).Parsed? && (fault || StampedId("conv", stamp) in db.conversations)
    ensures a.result.Failed? ==> a.result.message == "Database Error: Failed to Create Conversation."
    ensures !a.result.Redirected? ==> a.db == db
    ensures a.result.Redirected? ==>
      a.result.path == "/admin/conversations"
      && a.db == db.(conversations := a.db.conversations)
      && a.db.conversations == db.conversations[StampedId("conv", stamp) :=
           ConversationRowOf(StampedId("conv", stamp), ValidateConversation(form).value)]
  {
    match ValidateConversation(form)
    case Rejected(fields) => Acted(FieldErrors(fields, "Missing Fields. Failed to Create Conversation."), db)
    case Parsed(f) =>
      if fault then Acted(Failed("Database Error: Failed to Create Conversation."), db)
      else
      match InsertConversation(db, ConversationRowOf(StampedId("conv", stamp), f))
      case Failure(_) => Acted(Failed("Database Error: Failed to Create Conversation."), db)
      case Success(db') => Acted(Redirected("/admin/conversations"), db')
  }

  /**
   * `updateConversation`: only the row with key `id`, if any, takes the
   * form's columns; a throwing statement (`fault`) reports a database error
   * and changes nothing.
   */
  function UpdateConversationAction(db: Db, id: string, form: Form, fault: bool): (a: Acted<Db>)
    ensures a.result.FieldErrors? <==> ValidateConversation(form).Rejected?
    ensures a.result.Failed? <==> ValidateConversation(form).Parsed? && fault
    ensures a.result.Failed? ==> a.result.message == "Database Error: Failed to Update Conversation."
    ensures !a.result.FieldErrors? && !a.result.Failed? ==> a.result == Redirected("/admin/conversations")
    ensures a.db == db.(conversations := a.db.conversations)
    ensures a.db.conversations.Keys == db.conversations.Keys
    ensures forall k :: k in db.conversations && k != id ==> a.db.conversations[k] == db.conversations[k]
    ensures a.result.Redirected? && id in db.conversations ==>
      a.db.conversations[id] == ConversationRowOf(db.conversations[id].id, ValidateConversation(form).value)
    ensures !a.result.Redirected? || id !in db.conversations ==> a.db == db
  {
    match ValidateConversation(form)
    case Rejected(fields) => Acted(FieldErrors(fields, "Missing Fields. Failed to Update Conversation."), db)
    case Parsed(f) =>
      if fault then Acted(Failed("Database Error: Failed to Update Conversation."), db)
      else if id in db.conversations then
        Acted(Redirected("/admin/conversations"),
              db.(conversations := db.conversations[id := ConversationRowOf(db.conversations[id].id, f)]))
      else Acted(Redirected("/admin/conversations"), db)
  }

  /**
   * `deleteConversation`: the conversation goes, and its turns with it;
   * lessons pointing at it keep the dangling id. A throwing statement
   * (`fault`) reports a database error and changes nothing.
   */
  function DeleteConversationAction(db: Db, id: string, fault: bool): (a: Acted<Db>)
    ensures a.result == if fault then Failed("Database Error: Failed to Delete Conversation.") else Done("Deleted Conversation.")
    ensures fault ==> a.db == db
    ensures !fault ==>
      && a.db.conversations.Keys == db.conversations.Keys - {id}
      && (forall k :: k in a.db.turns ==> a.db.turns[k].conversationId != id)
      && (forall k :: k in db.turns && db.turns[k].conversationId != id ==> k in a.db.turns)
    ensures a.db.lessons == db.lessons
  {
    if fault then Acted(Failed("Database Error: Failed to Delete Conversation."), db)
    else Acted(Done("Deleted Conversation."), DeleteConversation(db, id))
  }

  // ---------------------------------------------------------------- properties

  /** Choosing "none" for the lesson stores no lesson, in create and in update alike. */
  lemma NoneMeansNoLesson(db: Db, id: string, form: Form, stamp: nat, fault: bool)
    requires Get(form, "lesson_id") == Some("none")
    ensures var a := CreateConversation(db, form, stamp, fault);
      a.result.Redirected? ==> a.db.conversations[StampedId("conv", stamp)].lessonId.None?
    ensures var a := UpdateConversationAction(db, id, form, fault);
      a.result.Redirected? && id in db.conversations ==> a.db.conversations[id].lessonId.None?
  {
  }

  lemma CreateConversationConsistent(db: Db, form: Form, stamp: nat, fault: bool)
    requires Consistent(db)
    ensures Consistent(CreateConversation(db, form, stamp, fault).db)
  {
    var a := CreateConversation(db, form, stamp, fault);
    if a.result.Redirected? {
      ConversationsChangedConsistent(db, a.db.conversations);
    }
  }

  lemma UpdateConversationConsistent(db: Db, id: string, form: Form, fault: bool)
    requires Consistent(db)
    ensures Consistent(UpdateConversationAction(db, id, form, fault).db)
  {
    var a := UpdateConversationAction(db, id, form, fault);
    if a.db != db {
      ConversationsChangedConsistent(db, a.db.conversations);
    }
  }

  lemma DeleteConversationActionConsistent(db: Db, id: string, fault: bool)
    requires Consistent(db)
    ensures Consistent(DeleteConversationAction(db, id, fault).db)
  {
    if !fault {
      DeleteConversationConsistent(db, id);
    }
  }
}
