/**
 * Language tags, the voice-agent presets and the resolution of a preset or a
 * language to one of the browser's speech-synthesis voices (lib/voice-config.ts).
 */
module VoiceConfig {
  import opened Wrappers
  import opened Text
  import opened Seqs

  /** An accent preset: a language tag and an optional hint matched against voice names. */
  datatype VoiceAgent = VoiceAgent(id: string, name: string, lang: string, accentLabel: string, voiceNameHint: Option<string>)

  datatype LanguageOption = LanguageOption(code: string, name: string, nativeName: string)

  /** A browser speech-synthesis voice, reduced to the two fields the resolution reads. */
  datatype Voice = Voice(name: string, lang: string)

  // The two tables are stored column by column; row i of a table is the i-th
  // entry of each of its columns.

  const LanguageCodes: seq<string> := [
    "en-US", "en-GB", "es-ES", "es-MX", "fr-FR", "de-DE",
    "it-IT", "pt-BR", "pt-PT", "ja-JP", "ko-KR", "zh-CN",
    "zh-TW", "ar-SA", "hi-IN", "nl-NL", "ru-RU", "pl-PL",
    "tr-TR"
  ]

  const LanguageNames: seq<string> := [
    "English (US)", "English (UK)", "Spanish (Spain)",
    "Spanish (Mexico)", "French (France)", "German",
    "Italian", "Portuguese (Brazil)", "Portuguese (Portugal)",
    "Japanese", "Korean", "Chinese (Simplified)",
    "Chinese (Traditional)", "Arabic", "Hindi",
    "Dutch", "Russian", "Polish",
    "Turkish"
  ]

  const LanguageNativeNames: seq<string> := [
    "English", "English", "Español", "Español", "Français", "Deutsch",
    "Italiano", "Português", "Português", "日本語", "한국어", "中文",
    "中文", "العربية", "हिन्दी", "Nederlands", "Русский", "Polski",
    "Türkçe"
  ]

  /** SUPPORTED_LANGUAGES: the languages a lesson or debate can be practised in. */
  function SupportedLanguages(): (r: seq<LanguageOption>)
    ensures |r| == |LanguageCodes|
    ensures forall i :: 0 <= i < |r| ==> r[i].code == LanguageCodes[i]
  {
    seq(19, i requires 0 <= i < 19 => LanguageOption(LanguageCodes[i], LanguageNames[i], LanguageNativeNames[i]))
  }

  const AgentIds: seq<string> := [
    "en-us-1", "en-us-2", "en-gb-1", "en-gb-2", "en-au-1", "en-in-1",
    "es-es-1", "es-mx-1", "fr-fr-1", "fr-ca-1", "de-de-1", "it-it-1",
    "pt-br-1", "pt-pt-1", "ja-jp-1", "ko-kr-1", "zh-cn-1", "zh-tw-1",
    "ar-sa-1", "hi-in-1", "nl-nl-1", "ru-ru-1", "pl-pl-1", "tr-tr-1"
  ]

  const AgentNames: seq<string> := [
    "en-US-1", "en-US-2", "en-GB-1", "en-GB-2", "en-AU-1", "en-IN-1",
    "es-ES-1", "es-MX-1", "fr-FR-1", "fr-CA-1", "de-DE-1", "it-IT-1",
    "pt-BR-1", "pt-PT-1", "ja-JP-1", "ko-KR-1", "zh-CN-1", "zh-TW-1",
    "ar-SA-1", "hi-IN-1", "nl-NL-1", "ru-RU-1", "pl-PL-1", "tr-TR-1"
  ]

  const AgentLangs: seq<string> := [
    "en-US", "en-US", "en-GB", "en-GB", "en-AU", "en-IN", "es-ES", "es-MX",
    "fr-FR", "fr-CA", "de-DE", "it-IT", "pt-BR", "pt-PT", "ja-JP", "ko-KR",
    "zh-CN", "zh-TW", "ar-SA", "hi-IN", "nl-NL", "ru-RU", "pl-PL", "tr-TR"
  ]

  const AgentAccentLabels: seq<string> := [
    "American English", "American English (Alternate)", "British English",
    "British English (Alternate)", "Australian English", "Indian English",
    "Spanish (Spain)", "Spanish (Mexico)", "French (France)",
    "French (Canada)", "German", "Italian",
    "Portuguese (Brazil)", "Portuguese (Portugal)", "Japanese",
    "Korean", "Chinese (Mandarin)", "Chinese (Taiwan)",
    "Arabic", "Hindi", "Dutch",
    "Russian", "Polish", "Turkish"
  ]

  const AgentHints: seq<string> := [
    "US English", "Samantha", "British", "Daniel", "Australian", "India",
    "Spain", "Mexico", "French", "Canadian", "German", "Italian",
    "Brazil", "Portugal", "Japanese", "Korean", "Chinese", "Taiwan",
    "Arabic", "Hindi", "Dutch", "Russian", "Polish", "Turkish"
  ]

  /** VOICE_AGENTS: the accent presets; every preset carries a non-empty voice-name hint. */
  function VoiceAgents(): (r: seq<VoiceAgent>)
    ensures |r| == |AgentLangs|
    ensures forall i :: 0 <= i < |r| ==> r[i].id == AgentIds[i] && r[i].lang == AgentLangs[i]
  {
    seq(24, i requires 0 <= i < 24 => VoiceAgent(AgentIds[i], AgentNames[i], AgentLangs[i], AgentAccentLabels[i], Some(AgentHints[i])))
  }

  // ---------------------------------------------------------------- language tags

  /** The lower-cased primary language subtag (section 2.2.1 of RFC 5646): the text before the first '-'. */
  function PrimarySubtag(code: string): (r: string)
    ensures '-' !in r && NoUpper(r)
  {
    ToLowerNoUpper(Before(code, '-'));
    assert forall i :: 0 <= i < |Before(code, '-')| ==> ToLower(Before(code, '-'))[i] != '-';
    ToLower(Before(code, '-'))
  }

  predicate IsEnglishLanguage(code: string)
  {
    PrimarySubtag(code) == "en"
  }

  /** English is the tag "en", case-insensitively, alone or followed by '-' and more subtags. */
  lemma IsEnglishLanguageIff(code: string)
    ensures IsEnglishLanguage(code) <==>
      |code| >= 2 && ToLower(code[..2]) == "en" && (|code| == 2 || code[2] == '-')
  {
    var b := Before(code, '-');
    if |code| >= 2 && ToLower(code[..2]) == "en" && (|code| == 2 || code[2] == '-') {
      var p := code[..2];
      assert LowerChar(p[0]) == 'e' && LowerChar(p[1]) == 'n';
      assert '-' !in p;
      if |code| == 2 {
        assert code == p;
        BeforeOfSepFree(code, '-');
      } else {
        assert p + ['-'] <= code;
        BeforeOfPrefix(code, p, '-');
      }
    }
    if IsEnglishLanguage(code) {
      assert |b| == 2;
      assert b == code[..2];
    }
  }

  // ---------------------------------------------------------------- agent tables
  //
  // The table functions take the preset table as their first argument, so
  // their contracts hold for any table; the application passes VoiceAgents().

  function AgentInLanguage(code: string): VoiceAgent -> bool
  {
    (a: VoiceAgent) => StartsWith(ToLower(a.lang), PrimarySubtag(code))
  }

  /** The agents whose lower-cased tag starts with the requested primary subtag, in table order. */
  function GetVoiceAgentsForLanguage(agents: seq<VoiceAgent>, code: string): (r: seq<VoiceAgent>)
    ensures forall i :: 0 <= i < |r| ==> r[i] in agents && StartsWith(ToLower(r[i].lang), PrimarySubtag(code))
    ensures forall i :: 0 <= i < |agents| && StartsWith(ToLower(agents[i].lang), PrimarySubtag(code)) ==> agents[i] in r
  {
    Filter(agents, AgentInLanguage(code))
  }

  /** Selecting agents by language commutes with splitting the table: the order is kept. */
  lemma GetVoiceAgentsForLanguageAppend(a: seq<VoiceAgent>, b: seq<VoiceAgent>, code: string)
    ensures GetVoiceAgentsForLanguage(a + b, code) == GetVoiceAgentsForLanguage(a, code) + GetVoiceAgentsForLanguage(b, code)
  {
    FilterAppend(a, b, AgentInLanguage(code));
  }

  /** A tag with an empty primary subtag selects every agent, since every string starts with "". */
  lemma EmptySubtagSelectsAll(agents: seq<VoiceAgent>, code: string)
    requires |code| == 0 || code[0] == '-'
    ensures GetVoiceAgentsForLanguage(agents, code) == agents
  {
  }

  /** English shows every agent, so any accent may read English; other languages show their own. */
  function GetVoiceAgentsForAccentDropdown(agents: seq<VoiceAgent>, code: string): (r: seq<VoiceAgent>)
    ensures IsEnglishLanguage(code) ==> r == agents
    ensures !IsEnglishLanguage(code) ==> r == GetVoiceAgentsForLanguage(agents, code)
  {
    if IsEnglishLanguage(code) then agents else GetVoiceAgentsForLanguage(agents, code)
  }

  function AgentWithExactLang(code: string): VoiceAgent -> bool
  {
    (a: VoiceAgent) => ToLower(a.lang) == ToLower(Trim(code))
  }

  /** The agents whose tag equals the trimmed request, case-insensitively. */
  function GetVoiceAgentsForExactLang(agents: seq<VoiceAgent>, code: string): (r: seq<VoiceAgent>)
    ensures forall i :: 0 <= i < |r| ==> r[i] in agents && ToLower(r[i].lang) == ToLower(Trim(code))
    ensures forall i :: 0 <= i < |agents| && ToLower(agents[i].lang) == ToLower(Trim(code)) ==> agents[i] in r
  {
    Filter(agents, AgentWithExactLang(code))
  }

  /** An exact match is also a language match whenever the tags have a primary subtag. */
  lemma ExactLangAgentsAreLanguageAgents(agents: seq<VoiceAgent>, code: string, i: int)
    requires 0 <= i < |GetVoiceAgentsForExactLang(agents, code)|
    ensures GetVoiceAgentsForExactLang(agents, code)[i] in GetVoiceAgentsForLanguage(agents, Trim(code))
  {
    var a := GetVoiceAgentsForExactLang(agents, code)[i];
    var t := Trim(code);
    BeforeToLower(t, '-');
    assert PrimarySubtag(t) == Before(ToLower(a.lang), '-');
    var k :| 0 <= k < |agents| && agents[k] == a;
    assert StartsWith(ToLower(agents[k].lang), PrimarySubtag(t));
  }

  /** The first agent of the language, if there is one. */
  function GetDefaultVoiceAgentForLang(agents: seq<VoiceAgent>, code: string): (r: Option<VoiceAgent>)
    ensures r.None? <==> GetVoiceAgentsForLanguage(agents, code) == []
    ensures r.None? <==> forall i :: 0 <= i < |agents| ==> !StartsWith(ToLower(agents[i].lang), PrimarySubtag(code))
    ensures r.Some? ==> var k := FirstIndex(agents, AgentInLanguage(code));
              k < |agents| && r.value == agents[k] && StartsWith(ToLower(r.value.lang), PrimarySubtag(code))
              && forall j :: 0 <= j < k ==> !StartsWith(ToLower(agents[j].lang), PrimarySubtag(code))
  {
    var forLang := GetVoiceAgentsForLanguage(agents, code);
    FilterHeadIsFind(agents, AgentInLanguage(code));
    if |forLang| > 0 then Some(forLang[0]) else None
  }

  /** A tag of the form "xy-..." with a lower-case primary subtag "xy". */
  predicate TwoLetterTag(code: string)
  {
    |code| >= 3 && code[2] == '-' && 'a' <= code[0] <= 'z' && 'a' <= code[1] <= 'z'
  }

  lemma PrimarySubtagOfTwoLetterTag(code: string)
    requires TwoLetterTag(code)
    ensures PrimarySubtag(code) == code[..2]
  {
    assert code[..2] + ['-'] <= code;
    BeforeOfPrefix(code, code[..2], '-');
  }

  /** A language is served as soon as one agent's tag begins with the same two letters. */
  lemma ServedBy(agents: seq<VoiceAgent>, code: string, a: nat)
    requires TwoLetterTag(code)
    requires a < |agents| && |agents[a].lang| >= 2 && agents[a].lang[0] == code[0] && agents[a].lang[1] == code[1]
    ensures GetDefaultVoiceAgentForLang(agents, code).Some?
  {
    var lang := agents[a].lang;
    PrimarySubtagOfTwoLetterTag(code);
    assert lang[..2] == code[..2];
    ToLowerSlice(lang, 0, 2);
    assert ToLower(code[..2]) == code[..2];
    assert AgentInLanguage(code)(agents[a]);
  }

  /** For the i-th supported language, a preset with the same two-letter primary subtag. */
  lemma AgentOfSupportedLanguage(i: nat) returns (a: nat)
    requires i < |LanguageCodes|
    ensures TwoLetterTag(LanguageCodes[i])
    ensures a < |AgentLangs| && |AgentLangs[a]| >= 2
    ensures AgentLangs[a][0] == LanguageCodes[i][0] && AgentLangs[a][1] == LanguageCodes[i][1]
  {
    if i < 10 {
      a := [0, 2, 6, 7, 8, 10, 11, 12, 13, 14][i];
      FirstLanguagesServed(i, a);
    } else {
      a := i + 5;
      LastLanguagesServed(i, a);
    }
  }

  lemma FirstLanguagesServed(i: nat, a: nat)
    requires i < 10 && a == [0, 2, 6, 7, 8, 10, 11, 12, 13, 14][i]
    ensures TwoLetterTag(LanguageCodes[i])
    ensures a < |AgentLangs| && |AgentLangs[a]| >= 2
    ensures AgentLangs[a][0] == LanguageCodes[i][0] && AgentLangs[a][1] == LanguageCodes[i][1]
  {
  }

  lemma LastLanguagesServed(i: nat, a: nat)
    requires 10 <= i < |LanguageCodes| && a == i + 5
    ensures TwoLetterTag(LanguageCodes[i])
    ensures a < |AgentLangs| && |AgentLangs[a]| >= 2
    ensures AgentLangs[a][0] == LanguageCodes[i][0] && AgentLangs[a][1] == LanguageCodes[i][1]
  {
  }

  /** Every supported language has a default agent in the shipped table. */
  lemma DefaultAgentForEverySupportedLanguage()
    ensures forall i :: 0 <= i < |SupportedLanguages()| ==> GetDefaultVoiceAgentForLang(VoiceAgents(), SupportedLanguages()[i].code).Some?
  {
    forall i | 0 <= i < |SupportedLanguages()|
      ensures GetDefaultVoiceAgentForLang(VoiceAgents(), SupportedLanguages()[i].code).Some?
    {
      var a := AgentOfSupportedLanguage(i);
      ServedBy(VoiceAgents(), SupportedLanguages()[i].code, a);
    }
  }

  /** "en-GB" resolves to the first English agent, en-us-1: only the primary subtag is compared. */
  lemma DefaultForBritishEnglish(code: string)
    requires code == "en-GB"
    ensures GetDefaultVoiceAgentForLang(VoiceAgents(), code) == Some(VoiceAgents()[0])
    ensures VoiceAgents()[0].id == "en-us-1"
  {
    var first := VoiceAgents()[0];
    PrimarySubtagOfTwoLetterTag(code);
    ToLowerSlice(first.lang, 0, 2);
    assert AgentInLanguage(code)(first);
  }

  // ---------------------------------------------------------------- matching browser voices

  /** Underscores become '-', then lower case, then trim: "ar_SA" and " AR-sa " both become "ar-sa". */
  function NormalizeVoiceLang(lang: string): (r: string)
    ensures '_' !in r
    ensures NoUpper(r)
  {
    var t := ToLower(ReplaceChar(lang, '_', '-'));
    ToLowerNoUpper(ReplaceChar(lang, '_', '-'));
    assert forall k :: 0 <= k < |t| ==> t[k] != '_';
    Trim(t)
  }

  lemma NormalizeVoiceLangIdempotent(lang: string)
    ensures NormalizeVoiceLang(NormalizeVoiceLang(lang)) == NormalizeVoiceLang(lang)
  {
    var n := NormalizeVoiceLang(lang);
    assert ReplaceChar(n, '_', '-') == n;
    ToLowerOfLower(n);
    TrimIdempotent(ToLower(ReplaceChar(lang, '_', '-')));
  }

  /** True when the voice tag equals the request after normalisation, or shares its non-empty primary subtag. */
  predicate VoiceMatchesLang(voiceLang: string, requestedLang: string)
  {
    var v := NormalizeVoiceLang(voiceLang);
    var r := NormalizeVoiceLang(requestedLang);
    if v == r then true
    else
      var rPrefix := Before(r, '-');
      var vPrefix := Before(v, '-');
      rPrefix != "" && (v == rPrefix || vPrefix == rPrefix || StartsWith(v, rPrefix + "-"))
  }

  /** The three prefix tests collapse to one: same primary subtag. */
  lemma VoiceMatchesLangIff(voiceLang: string, requestedLang: string)
    ensures
      var v := NormalizeVoiceLang(voiceLang);
      var r := NormalizeVoiceLang(requestedLang);
      VoiceMatchesLang(voiceLang, requestedLang) <==>
        v == r || (Before(r, '-') != "" && Before(v, '-') == Before(r, '-'))
  {
    var v := NormalizeVoiceLang(voiceLang);
    var r := NormalizeVoiceLang(requestedLang);
    var rp := Before(r, '-');
    if v == rp {
      BeforeOfSepFree(v, '-');
    }
    if StartsWith(v, rp + "-") {
      BeforeOfPrefix(v, rp, '-');
    }
  }

  lemma VoiceMatchesLangReflexive(lang: string)
    ensures VoiceMatchesLang(lang, lang)
  {
  }

  function VoiceMatching(code: string): Voice -> bool
  {
    (v: Voice) => VoiceMatchesLang(v.lang, code)
  }

  function VoiceExactly(code: string): Voice -> bool
  {
    (v: Voice) => NormalizeVoiceLang(v.lang) == ToLower(Trim(ReplaceChar(code, '_', '-')))
  }

  /** The request the exact-match step compares against is the normalised request. */
  lemma ExactTargetIsNormalized(code: string)
    ensures ToLower(Trim(ReplaceChar(code, '_', '-'))) == NormalizeVoiceLang(code)
  {
    TrimToLower(ReplaceChar(code, '_', '-'));
  }

  /**
   * A voice for the language: the first exact match after normalisation, else
   * (when the primary subtag is non-empty) the first voice that matches by subtag.
   */
  function FindAnyVoiceForLang(voices: seq<Voice>, code: string): (r: Option<Voice>)
    ensures r.Some? ==> r.value in voices && VoiceMatchesLang(r.value.lang, code)
    ensures r.None? <==> forall i :: 0 <= i < |voices| ==> !VoiceMatchesLang(voices[i].lang, code)
    ensures (exists i :: 0 <= i < |voices| && NormalizeVoiceLang(voices[i].lang) == NormalizeVoiceLang(code)) ==>
              r.Some? && NormalizeVoiceLang(r.value.lang) == NormalizeVoiceLang(code)
    ensures Find(voices, VoiceExactly(code)).Some? ==> r == Find(voices, VoiceExactly(code))
    ensures Find(voices, VoiceExactly(code)).None? ==> r == Find(voices, VoiceMatching(code))
  {
    var normalized := Trim(ReplaceChar(code, '_', '-'));
    ExactTargetIsNormalized(code);
    var exact := Find(voices, VoiceExactly(code));
    if exact.Some? then exact
    else
      var prefix := ToLower(Before(normalized, '-'));
      BeforeToLower(normalized, '-');
      TrimToLower(ReplaceChar(code, '_', '-'));
      assert prefix == Before(NormalizeVoiceLang(code), '-');
      assert forall i :: 0 <= i < |voices| ==> NormalizeVoiceLang(voices[i].lang) != NormalizeVoiceLang(code);
      if prefix == "" then
        assert forall i :: 0 <= i < |voices| ==> !VoiceMatchesLang(voices[i].lang, code);
        None
      else Find(voices, VoiceMatching(code))
  }

  /** A browser voice serves the language exactly when some voice matches it. */
  function HasVoiceForLang(voices: seq<Voice>, code: string): (b: bool)
    ensures b <==> exists i :: 0 <= i < |voices| && VoiceMatchesLang(voices[i].lang, code)
  {
    FindAnyVoiceForLang(voices, code) != None
  }

  /** The agent's hint, lower-cased, when it is present and non-empty. */
  function HintOf(agent: VoiceAgent): Option<string>
  {
    if agent.voiceNameHint.Some? && agent.voiceNameHint.value != "" then Some(ToLower(agent.voiceNameHint.value)) else None
  }

  function VoiceNamed(hint: string): Voice -> bool
  {
    (v: Voice) => Contains(ToLower(v.name), hint)
  }

  function VoiceForAgentAndHint(agent: VoiceAgent, hint: string): Voice -> bool
  {
    (v: Voice) => VoiceMatchesLang(v.lang, agent.lang) && Contains(ToLower(v.name), hint)
  }

  /**
   * The voice for a preset: among the voices matching its language, the first
   * whose name contains the hint (case-insensitively), else the first of them.
   */
  function FindVoiceForAgent(agent: VoiceAgent, voices: seq<Voice>): (r: Option<Voice>)
    ensures r.Some? ==> r.value in voices && VoiceMatchesLang(r.value.lang, agent.lang)
    ensures r.None? <==> forall i :: 0 <= i < |voices| ==> !VoiceMatchesLang(voices[i].lang, agent.lang)
    ensures HintOf(agent).Some? && Find(voices, VoiceForAgentAndHint(agent, HintOf(agent).value)).Some? ==>
              r == Find(voices, VoiceForAgentAndHint(agent, HintOf(agent).value))
    ensures HintOf(agent).None? || Find(voices, VoiceForAgentAndHint(agent, HintOf(agent).value)).None? ==>
              r == Find(voices, VoiceMatching(agent.lang))
  {
    var langMatch := Filter(voices, VoiceMatching(agent.lang));
    FilterHeadIsFind(voices, VoiceMatching(agent.lang));
    var byHint :=
      if HintOf(agent).Some? then
        FindInFilter(voices, VoiceMatching(agent.lang), VoiceNamed(HintOf(agent).value), VoiceForAgentAndHint(agent, HintOf(agent).value));
        Find(langMatch, VoiceNamed(HintOf(agent).value))
      else None;
    if byHint.Some? then byHint
    else if |langMatch| > 0 then Some(langMatch[0])
    else None
  }

  function OptionWithCode(code: string): LanguageOption -> bool
  {
    (l: LanguageOption) => ToLower(l.code) == ToLower(code)
  }

  /** The language whose code equals `code` case-insensitively; the application passes SupportedLanguages(). */
  function GetLanguageByCode(languages: seq<LanguageOption>, code: string): (r: Option<LanguageOption>)
    ensures r.Some? ==> r.value in languages && ToLower(r.value.code) == ToLower(code)
    ensures r.None? <==> forall i :: 0 <= i < |languages| ==> ToLower(languages[i].code) != ToLower(code)
    ensures r.Some? ==>
              exists k :: 0 <= k < |languages| && languages[k] == r.value
                && forall j :: 0 <= j < k ==> ToLower(languages[j].code) != ToLower(code)
  {
    var r := Find(languages, OptionWithCode(code));
    if r.None? then r
    else
      var k := FirstIndex(languages, OptionWithCode(code));
      assert languages[k] == r.value && forall j :: 0 <= j < k ==> !OptionWithCode(code)(languages[j]);
      r
  }
}
