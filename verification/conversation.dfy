/**
 * The shapes of a scripted lesson conversation (lib/types.ts): turns with
 * optional per-language texts, the conversation, and the messages the lesson
 * interface records.
 */
module Conversation {
  import opened Wrappers

  datatype Entry = Entry(key: string, value: string)

  /** A `Record<string, string>` as its entries in key order, the order `Object.keys` lists them. */
  type LangMap = seq<Entry>

  /** `byLang[key]`: the value stored under `key`, if any. */
  function Lookup(m: LangMap, key: string): (r: Option<string>)
    ensures r.None? <==> forall i :: 0 <= i < |m| ==> m[i].key != key
    ensures r.Some? ==> exists i :: 0 <= i < |m| && m[i] == Entry(key, r.value)
    decreases |m|
  {
    if |m| == 0 then None
    else if m[0].key == key then Some(m[0].value)
    else Lookup(m[1..], key)
  }

  datatype Turn = Turn(
    id: string, role: string, text: string,
    textByLang: Option<LangMap>, romanizationByLang: Option<LangMap>,
    order: int)

  datatype LessonConversation = LessonConversation(
    id: string, lessonId: Option<string>, title: string,
    description: Option<string>, scenario: Option<string>,
    turns: seq<Turn>)

  /** The `speaker_type` of a message. */
  datatype Speaker = User | Ai

  datatype Message = Message(role: string, content: string, speaker: Speaker, audioUrl: Option<string>, turnOrder: int)

  /**
   * `JSON.stringify` and `JSON.parse` restricted to a language map. The text
   * format itself is not modelled; `parse` answers `None` where `JSON.parse`
   * throws.
   */
  datatype Codec = Codec(stringify: LangMap -> string, parse: string -> Option<LangMap>)

  /** Keys of a plain object are distinct. */
  predicate DistinctKeys(m: LangMap)
  {
    forall i, j :: 0 <= i < j < |m| ==> m[i].key != m[j].key
  }
}
