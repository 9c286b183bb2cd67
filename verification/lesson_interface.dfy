/**
 * The scripted-lesson screen (components/audio-lesson-interface.tsx): the
 * per-language text of a turn, the user/AI classification of roles, the
 * detection of an AI opening turn, and the turn-index state machine driven by
 * recording and speech playback. Timers are collapsed: a transition yields the
 * state after its scheduled callbacks have run.
 */
module LessonInterface {
  import opened Wrappers
  import opened Text
  import opened Seqs
  import opened Conversation
  import VoiceConfig

  // ---------------------------------------------------------------- localized turn text

  function KeyStartsWith(prefix: string): Entry -> bool
  {
    (e: Entry) => StartsWith(ToLower(e.key), prefix)
  }

  /** A usable entry: present and not the empty string. */
  predicate Usable(v: Option<string>)
  {
    v.Some? && v.value != ""
  }

  /**
   * The localized text of a turn's language map: the exact entry for `lang`
   * when usable, else the value under the first key (in key order) starting
   * with the lower-cased primary subtag when that value is usable.
   */
  function Localized(byLang: LangMap, lang: string): (r: Option<string>)
    ensures r.Some? ==> r.value != ""
    ensures Usable(Lookup(byLang, lang)) ==> r == Lookup(byLang, lang)
    ensures !Usable(Lookup(byLang, lang)) && r.Some? ==>
              var k := FirstIndex(byLang, KeyStartsWith(VoiceConfig.PrimarySubtag(lang)));
              VoiceConfig.PrimarySubtag(lang) != "" && k < |byLang| && r.value == byLang[k].value
    ensures !Usable(Lookup(byLang, lang)) && VoiceConfig.PrimarySubtag(lang) != "" ==>
              var k := FirstIndex(byLang, KeyStartsWith(VoiceConfig.PrimarySubtag(lang)));
              k < |byLang| && byLang[k].value != "" ==> r == Some(byLang[k].value)
  {
    var exact := Lookup(byLang, lang);
    if Usable(exact) then exact
    else
      var prefix := VoiceConfig.PrimarySubtag(lang);
      if prefix == "" then None
      else
        match Find(byLang, KeyStartsWith(prefix))
        case None => None
        case Some(variant) =>
          // the first entry whose key starts with the prefix is also the first with that key
          assert Lookup(byLang, variant.key) == Some(variant.value) by {
            LookupOfFirstVariant(byLang, prefix, variant);
          }
          if variant.key != "" && variant.value != "" then Some(variant.value) else None
  }

  /** `byLang[variant]` for the entry `find` returned reads that entry's own value. */
  lemma {:induction false} LookupOfFirstVariant(m: LangMap, prefix: string, e: Entry)
    requires Find(m, KeyStartsWith(prefix)) == Some(e)
    ensures Lookup(m, e.key) == Some(e.value)
    decreases |m|
  {
    if m[0] != e {
      assert !KeyStartsWith(prefix)(m[0]) && KeyStartsWith(prefix)(e);
      assert m[0].key != e.key;
      LookupOfFirstVariant(m[1..], prefix, e);
    }
  }

  /** `getTurnText`: '' without a turn, the default text without translations, else the localized text or the default. */
  function GetTurnText(turn: Option<Turn>, lang: string): (r: string)
    ensures turn.None? ==> r == ""
    ensures turn.Some? && turn.value.textByLang.None? ==> r == turn.value.text
    ensures turn.Some? && turn.value.textByLang.Some? ==>
              r == turn.value.text || exists i :: 0 <= i < |turn.value.textByLang.value| && r == turn.value.textByLang.value[i].value != ""
  {
    match turn
    case None => ""
    case Some(t) =>
      match t.textByLang
      case None => t.text
      case Some(byLang) => Localized(byLang, lang).GetOr(t.text)
  }

  /** `getRomanization`: the same rule over the romanizations, with '' as the default. */
  function GetRomanization(turn: Option<Turn>, lang: string): (r: string)
    ensures turn.None? || turn.value.romanizationByLang.None? ==> r == ""
  {
    match turn
    case None => ""
    case Some(t) =>
      match t.romanizationByLang
      case None => ""
      case Some(byLang) => Localized(byLang, lang).GetOr("")
  }

  /** Romanization follows exactly the text rule, applied to a turn whose texts are the romanizations and whose default is ''. */
  lemma RomanizationIsTurnTextRule(t: Turn, lang: string)
    requires t.romanizationByLang.Some?
    ensures GetRomanization(Some(t), lang) == GetTurnText(Some(t.(text := "", textByLang := t.romanizationByLang)), lang)
  {
  }

  /** A usable exact entry always wins over prefix variants and the default text. */
  lemma ExactEntryWins(t: Turn, lang: string)
    requires t.textByLang.Some? && Usable(Lookup(t.textByLang.value, lang))
    ensures GetTurnText(Some(t), lang) == Lookup(t.textByLang.value, lang).value
  {
  }

  /**
   * Only the first key with the primary-subtag prefix is consulted: when its
   * value is empty the default text is used, whatever later variants hold.
   */
  lemma OnlyFirstVariantConsulted(t: Turn, lang: string)
    requires t.textByLang.Some? && !Usable(Lookup(t.textByLang.value, lang))
    requires var m := t.textByLang.value;
             var k := FirstIndex(m, KeyStartsWith(VoiceConfig.PrimarySubtag(lang)));
             k < |m| && m[k].value == ""
    ensures GetTurnText(Some(t), lang) == t.text
  {
  }

  // ---------------------------------------------------------------- role classification

  /** The role as compared: trimmed, then lower-cased. */
  function NormalizeRole(role: string): (r: string)
    ensures NoUpper(r)
  {
    ToLowerNoUpper(Trim(role));
    ToLower(Trim(role))
  }

  /** The alias lists the record button consults, as written: two entries are capitalised. */
  const UserRoleAliasesAsWritten: seq<string> := ["passenger", "user", "you", "student", "customer", "learner", "Friend"]
  const AiRoleAliasesAsWritten: seq<string> := ["officer", "ai", "agent", "system", "teacher", "assistant", "Me"]

  /** The alias lists of the opening-turn check, all lower case. */
  const UserRoleAliases: seq<string> := ["passenger", "user", "you", "student", "customer", "learner", "friend"]
  const AiRoleAliases: seq<string> := ["officer", "ai", "agent", "system", "teacher", "assistant", "me"]

  /** `isUserTurn` as written: a user alias, or not an AI alias at an odd index. */
  predicate IsUserTurnAsWritten(role: string, index: nat)
  {
    var r := NormalizeRole(role);
    r in UserRoleAliasesAsWritten || (r !in AiRoleAliasesAsWritten && index % 2 == 1)
  }

  /** A normalised role never equals a capitalised alias. */
  lemma CapitalisedAliasesNeverMatch(role: string)
    ensures NormalizeRole(role) != "Friend" && NormalizeRole(role) != "Me"
  {
    var r := NormalizeRole(role);
    if |r| > 0 {
      assert !IsUpper(r[0]);
    }
  }

  /** A role with no surrounding white space is only lower-cased. */
  lemma NormalizeTrimmedRole(role: string)
    requires |role| > 0 && !IsSpace(role[0]) && !IsSpace(role[|role| - 1])
    ensures NormalizeRole(role) == ToLower(role)
  {
    TrimOfTrimmed(role);
  }

  /** So "Friend" at an even index is classified as the AI's turn. */
  lemma FriendAtEvenIndexIsNotUser(role: string)
    requires role == "Friend"
    ensures !IsUserTurnAsWritten(role, 0)
    ensures IsUserTurn(role, 0)
  {
    NormalizeTrimmedRole(role);
    var r := NormalizeRole(role);
    assert r == "friend";
    LowerFNotWrittenUserAlias(r);
    assert r == UserRoleAliases[6];
  }

  /** Only "Friend" among the written user aliases has six letters, and it starts upper case. */
  lemma LowerFNotWrittenUserAlias(r: string)
    requires |r| == 6 && r[0] == 'f'
    ensures r !in UserRoleAliasesAsWritten
  {
  }

  /** `isUserTurn` with the aliases lower-cased, as the opening-turn check spells them. */
  predicate IsUserTurn(role: string, index: nat)
  {
    var r := NormalizeRole(role);
    r in UserRoleAliases || (r !in AiRoleAliases && index % 2 == 1)
  }

  /** The two agree on every role except those normalising to "friend" or "me". */
  lemma IsUserTurnAgrees(role: string, index: nat)
    ensures NormalizeRole(role) != "friend" && NormalizeRole(role) != "me" ==>
              (IsUserTurn(role, index) <==> IsUserTurnAsWritten(role, index))
    ensures NormalizeRole(role) == "friend" ==> IsUserTurn(role, index)
    ensures NormalizeRole(role) == "me" ==> !IsUserTurn(role, index)
  {
    CapitalisedAliasesNeverMatch(role);
  }

  // ---------------------------------------------------------------- opening turn

  /**
   * The roles the opening-turn check derives: when the first two turns have
   * different normalised roles, the first is taken as the AI's role and the
   * second as the user's.
   */
  function DerivedRoles(turns: seq<Turn>): (r: (Option<string>, Option<string>))
    ensures r.0.Some? <==> r.1.Some?
    ensures r.0.Some? <==> |turns| >= 2 && NormalizeRole(turns[0].role) != NormalizeRole(turns[1].role)
    ensures r.0.Some? ==> r.0.value == NormalizeRole(turns[0].role) && r.1.value == NormalizeRole(turns[1].role)
  {
    if |turns| >= 2 && NormalizeRole(turns[0].role) != NormalizeRole(turns[1].role) then
      (Some(NormalizeRole(turns[0].role)), Some(NormalizeRole(turns[1].role)))
    else (None, None)
  }

  /**
   * `firstIsAI` as written: the derived AI role is tested for truthiness, so
   * a first role that normalises to '' counts as absent.
   */
  predicate FirstIsAiAsWritten(turns: seq<Turn>)
    requires |turns| > 0
  {
    var (aiRole, userRole) := DerivedRoles(turns);
    var first := NormalizeRole(turns[0].role);
    (Usable(aiRole) && first == aiRole.value) || (!Usable(userRole) && first in AiRoleAliases)
  }

  /** A blank first role followed by "Passenger": the roles differ, yet the opening turn is not played. */
  lemma BlankFirstRoleIsNotAi(turns: seq<Turn>)
    requires |turns| >= 2 && turns[0].role == "" && turns[1].role == "Passenger"
    ensures NormalizeRole(turns[0].role) != NormalizeRole(turns[1].role)
    ensures !FirstIsAiAsWritten(turns)
    ensures FirstIsAi(turns)
  {
    assert NormalizeRole(turns[0].role) == "";
    NormalizeTrimmedRole(turns[1].role);
    assert NormalizeRole(turns[1].role) == "passenger";
  }

  /** `firstIsAI` with the derived roles tested for presence rather than truthiness. */
  predicate FirstIsAi(turns: seq<Turn>)
    requires |turns| > 0
  {
    var (aiRole, userRole) := DerivedRoles(turns);
    var first := NormalizeRole(turns[0].role);
    (aiRole.Some? && first == aiRole.value) || (userRole.None? && first in AiRoleAliases)
  }

  /**
   * The opening turn is the AI's exactly when the first two roles differ, or,
   * failing that, when the first role is an AI alias.
   */
  lemma FirstIsAiIff(turns: seq<Turn>)
    requires |turns| > 0
    ensures FirstIsAi(turns) <==>
              (|turns| >= 2 && NormalizeRole(turns[0].role) != NormalizeRole(turns[1].role))
              || NormalizeRole(turns[0].role) in AiRoleAliases
  {
  }

  /** The corrected check differs from the written one only for a blank first role. */
  lemma FirstIsAiAgrees(turns: seq<Turn>)
    requires |turns| > 0 && NormalizeRole(turns[0].role) != ""
    ensures FirstIsAi(turns) <==> FirstIsAiAsWritten(turns)
  {
    var (aiRole, userRole) := DerivedRoles(turns);
    if userRole.Some? && userRole.value == "" {
      assert aiRole.Some? && aiRole.value != "";
    }
  }

  // ---------------------------------------------------------------- turn-index state machine

  /** The interface state the conversation flow reads and writes. */
  datatype LessonState = LessonState(
    turnIndex: nat,
    messages: seq<Message>,
    listening: bool,
    recording: bool,
    processing: bool,
    ended: bool,
    liveTranscript: string,
    recorderStarted: bool)

  /** Append the AI message for turn `index` and start speaking it. */
  function PlayAiMessage(st: LessonState, message: string, role: string, index: nat): (st': LessonState)
    ensures st'.messages == st.messages + [Message(role, message, Ai, None, index)]
    ensures st'.listening && st'.turnIndex == st.turnIndex
  {
    st.(listening := true, messages := st.messages + [Message(role, message, Ai, None, index)])
  }

  /** The speech-end callback of an AI message: listening stops and the index moves past that turn. */
  function SpeechEnded(st: LessonState): (st': LessonState)
    ensures !st'.listening && st'.turnIndex == st.turnIndex + 1 && st'.messages == st.messages
  {
    st.(listening := false, turnIndex := st.turnIndex + 1)
  }

  /**
   * The state after mounting: the opening turn is played when the check as
   * written finds it the AI's, so a blank first role plays nothing.
   */
  function Initial(turns: seq<Turn>, lang: string): (st: LessonState)
    ensures st.turnIndex == 0 && !st.ended
    ensures |turns| > 0 && FirstIsAiAsWritten(turns) ==>
              st.messages == [Message(turns[0].role, GetTurnText(Some(turns[0]), lang), Ai, None, 0)] && st.listening
    ensures !(|turns| > 0 && FirstIsAiAsWritten(turns)) ==> st.messages == [] && !st.listening
  {
    var st := LessonState(0, [], false, false, false, false, "", false);
    if |turns| > 0 && FirstIsAiAsWritten(turns) then PlayAiMessage(st, GetTurnText(Some(turns[0]), lang), turns[0].role, 0)
    else st
  }

  /** The mount effect with the corrected opening-turn check. */
  function InitialCorrected(turns: seq<Turn>, lang: string): (st: LessonState)
    ensures st.turnIndex == 0 && !st.ended
    ensures |turns| > 0 && FirstIsAi(turns) ==>
              st.messages == [Message(turns[0].role, GetTurnText(Some(turns[0]), lang), Ai, None, 0)] && st.listening
    ensures !(|turns| > 0 && FirstIsAi(turns)) ==> st.messages == [] && !st.listening
  {
    var st := LessonState(0, [], false, false, false, false, "", false);
    if |turns| > 0 && FirstIsAi(turns) then PlayAiMessage(st, GetTurnText(Some(turns[0]), lang), turns[0].role, 0)
    else st
  }

  /** Both mount effects give the same state unless the first role is blank. */
  lemma InitialAgrees(turns: seq<Turn>, lang: string)
    requires |turns| == 0 || NormalizeRole(turns[0].role) != ""
    ensures Initial(turns, lang) == InitialCorrected(turns, lang)
  {
    if |turns| > 0 {
      FirstIsAiAgrees(turns);
    }
  }

  /** A blank first role followed by "Passenger": the screen as written stays silent, the corrected one speaks turn 0. */
  lemma BlankFirstRoleStaysSilent(turns: seq<Turn>, lang: string)
    requires |turns| >= 2 && turns[0].role == "" && turns[1].role == "Passenger"
    ensures Initial(turns, lang).messages == [] && !Initial(turns, lang).listening
    ensures |InitialCorrected(turns, lang).messages| == 1 && InitialCorrected(turns, lang).listening
  {
    BlankFirstRoleIsNotAi(turns);
  }

  /** `startRecording`: the microphone either grants access or the recording flag drops again. */
  function StartRecording(st: LessonState, micGranted: bool): (st': LessonState)
    ensures st'.recording == micGranted && st'.recorderStarted == (micGranted || st.recorderStarted)
    ensures st'.liveTranscript == "" && !st'.processing
    ensures st'.turnIndex == st.turnIndex && st'.messages == st.messages
  {
    var st1 := st.(recording := true, processing := false, liveTranscript := "");
    if micGranted then st1.(recorderStarted := true) else st1.(recording := false)
  }

  function TranscriptUpdated(st: LessonState, transcript: string): (st': LessonState)
    ensures st'.liveTranscript == transcript && st'.messages == st.messages && st'.turnIndex == st.turnIndex
  {
    st.(liveTranscript := transcript)
  }

  /** The content recorded for the user: the trimmed live transcript, or the turn's script when that is empty. */
  function UserText(liveTranscript: string, turn: Turn): (r: string)
    ensures Trim(liveTranscript) != "" ==> r == Trim(liveTranscript)
    ensures Trim(liveTranscript) == "" ==> r == turn.text
  {
    if Trim(liveTranscript) != "" then Trim(liveTranscript) else turn.text
  }

  /**
   * `stopRecording`: stop the recorder, record the user's message for the
   * current turn, then either end the conversation on the last turn or move
   * to the next turn and play it. A recorder that was never started, or an
   * index past the script, ends in the error handler.
   */
  function StopRecording(st: LessonState, turns: seq<Turn>, lang: string, audioUrl: string): (st': LessonState)
    ensures !st'.processing && !st'.recorderStarted && st'.recording == (st.recording && !st.recorderStarted)
    ensures !st.recorderStarted ==> st' == st.(processing := false)
    ensures st.recorderStarted && st.turnIndex >= |turns| ==>
              st' == st.(recorderStarted := false, recording := false, processing := false)
    ensures st.recorderStarted && st.turnIndex < |turns| ==>
              st' == RecordTurn(st.(recorderStarted := false, recording := false), turns, lang, audioUrl)
  {
    if !st.recorderStarted then st.(processing := false)
    else if st.turnIndex >= |turns| then st.(recorderStarted := false, recording := false, processing := false)
    else RecordTurn(st.(recorderStarted := false, recording := false), turns, lang, audioUrl)
  }

  /** The successful path of `stopRecording`, from the recorded user message on. */
  function RecordTurn(st: LessonState, turns: seq<Turn>, lang: string, audioUrl: string): (st': LessonState)
    requires st.turnIndex < |turns|
    ensures var i := st.turnIndex;
            |st'.messages| >= |st.messages| + 1
            && st'.messages[..|st.messages| + 1] == st.messages + [Message(turns[i].role, UserText(st.liveTranscript, turns[i]), User, Some(audioUrl), i)]
            && st'.recording == st.recording && !st'.processing && st'.recorderStarted == st.recorderStarted
    ensures st.turnIndex + 1 >= |turns| ==>
              st'.ended && st'.turnIndex == st.turnIndex && |st'.messages| == |st.messages| + 1
    ensures st.turnIndex + 1 < |turns| ==>
              var next := st.turnIndex + 1;
              st'.ended == st.ended && st'.turnIndex == next && st'.listening && |st'.messages| == |st.messages| + 2
              && st'.messages[|st.messages| + 1] == Message(turns[next].role, GetTurnText(Some(turns[next]), lang), Ai, None, next)
  {
    var i := st.turnIndex;
    var userMessage := Message(turns[i].role, UserText(st.liveTranscript, turns[i]), User, Some(audioUrl), i);
    var st1 := st.(messages := st.messages + [userMessage], processing := false);
    if i >= |turns| - 1 then st1.(ended := true)
    else
      var next := i + 1;
      var aiMessage := Message(turns[next].role, GetTurnText(Some(turns[next]), lang), Ai, None, next);
      assert (st1.messages + [aiMessage])[..|st.messages| + 1] == st1.messages;
      PlayAiMessage(st1.(turnIndex := next), aiMessage.content, aiMessage.role, next)
  }

  /** Messages in turn order, none belonging to a turn after `bound`. */
  predicate InTurnOrder(msgs: seq<Message>, bound: int)
  {
    (forall k :: 0 <= k < |msgs| ==> 0 <= msgs[k].turnOrder <= bound)
    && (forall k, l :: 0 <= k < l < |msgs| ==> msgs[k].turnOrder <= msgs[l].turnOrder)
  }

  lemma AppendInTurnOrder(msgs: seq<Message>, bound: int, m: Message)
    requires InTurnOrder(msgs, bound) && bound <= m.turnOrder && 0 <= m.turnOrder
    ensures InTurnOrder(msgs + [m], m.turnOrder)
  {
  }

  predicate AllBelow(msgs: seq<Message>, n: int)
  {
    forall k :: 0 <= k < |msgs| ==> msgs[k].turnOrder < n
  }

  /**
   * The flow's invariant: the index never passes the end of the script and
   * points at a real turn while a message is being spoken, and every message
   * belongs to a turn of the script no later than the current one, in turn order.
   */
  predicate Valid(st: LessonState, turns: seq<Turn>)
  {
    st.turnIndex <= |turns|
    && (st.listening ==> st.turnIndex < |turns|)
    && InTurnOrder(st.messages, st.turnIndex)
    && AllBelow(st.messages, |turns|)
  }

  lemma InitialValid(turns: seq<Turn>, lang: string)
    ensures Valid(Initial(turns, lang), turns)
  {
  }

  lemma InitialCorrectedValid(turns: seq<Turn>, lang: string)
    ensures Valid(InitialCorrected(turns, lang), turns)
  {
  }

  lemma SpeechEndedValid(st: LessonState, turns: seq<Turn>)
    requires Valid(st, turns) && st.listening
    ensures Valid(SpeechEnded(st), turns)
  {
  }

  lemma StartRecordingValid(st: LessonState, turns: seq<Turn>, micGranted: bool)
    requires Valid(st, turns)
    ensures Valid(StartRecording(st, micGranted), turns)
  {
  }

  lemma RecordTurnValid(st: LessonState, turns: seq<Turn>, lang: string, audioUrl: string)
    requires Valid(st, turns) && st.turnIndex < |turns|
    ensures Valid(RecordTurn(st, turns, lang, audioUrl), turns)
  {
    var st' := RecordTurn(st, turns, lang, audioUrl);
    var i := st.turnIndex;
    var n := |st.messages|;
    var withUser := st'.messages[..n + 1];
    AppendInTurnOrder(st.messages, i, withUser[n]);
    if i + 1 < |turns| {
      assert st'.messages == withUser + [st'.messages[n + 1]];
      AppendInTurnOrder(withUser, i, st'.messages[n + 1]);
    } else {
      assert st'.messages == withUser;
    }
  }

  lemma StopRecordingValid(st: LessonState, turns: seq<Turn>, lang: string, audioUrl: string)
    requires Valid(st, turns)
    ensures Valid(StopRecording(st, turns, lang, audioUrl), turns)
  {
    if st.recorderStarted && st.turnIndex < |turns| {
      RecordTurnValid(st.(recorderStarted := false, recording := false), turns, lang, audioUrl);
    }
  }
}
