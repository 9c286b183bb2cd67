/**
 * The recorder's recognition language and live transcript, the text-to-speech
 * option handling with its voice priority, and the simulated speaking feedback
 * (lib/voice-recorder.ts). Media devices, recognition and synthesis engines
 * are outside the model: their events and voice lists are inputs.
 */
module VoiceRecorder {
  import opened Wrappers
  import opened Text
  import opened Seqs
  import VoiceConfig
  import Arith

  // ---------------------------------------------------------------- recorder state

  /** An audio chunk delivered by the media recorder, identified abstractly. */
  type Chunk = nat

  /**
   * The recorder fields the model tracks: the recognition language, whether a
   * media recorder exists, and the chunks collected since recording started.
   */
  datatype Recorder = Recorder(speechLang: string, started: bool, chunks: seq<Chunk>)

  const DefaultLanguage: string := "en-US"

  function NewRecorder(): (r: Recorder)
    ensures r.speechLang == DefaultLanguage && !r.started && r.chunks == []
  {
    Recorder(DefaultLanguage, false, [])
  }

  /** `setLanguage`: an empty tag falls back to en-US; recording state is untouched. */
  function SetLanguage(r: Recorder, lang: string): (r': Recorder)
    ensures r'.speechLang != ""
    ensures lang != "" ==> r'.speechLang == lang
    ensures r'.started == r.started && r'.chunks == r.chunks
  {
    r.(speechLang := if lang == "" then DefaultLanguage else lang)
  }

  function GetLanguage(r: Recorder): string
  {
    r.speechLang
  }

  /** Reading back a language yields what was set, or en-US for an empty tag. */
  lemma SetThenGetLanguage(r: Recorder, lang: string)
    ensures GetLanguage(SetLanguage(r, lang)) == (if lang == "" then DefaultLanguage else lang)
    ensures GetLanguage(SetLanguage(r, lang)) != ""
  {
  }

  /** Setting the language that is already in effect changes nothing. */
  lemma SetLanguageIdempotent(r: Recorder, lang: string)
    ensures SetLanguage(SetLanguage(r, lang), GetLanguage(SetLanguage(r, lang))) == SetLanguage(r, lang)
  {
  }

  /**
   * `stopRecording`: rejects when no media recorder exists; otherwise resolves
   * with the collected chunks (the blob) and leaves a cleaned-up recorder.
   */
  function StopRecording(r: Recorder): (res: (Recorder, Result<seq<Chunk>>))
    ensures !r.started <==> res.1.Failure?
    ensures !r.started ==> res.1.error == "Recording not started" && res.0 == r
    ensures r.started ==> res.1.value == r.chunks && !res.0.started && res.0.chunks == []
    ensures res.0.speechLang == r.speechLang
  {
    if !r.started then (r, Failure("Recording not started"))
    else (r.(started := false, chunks := []), Success(r.chunks))
  }

  // ---------------------------------------------------------------- live transcript

  /** One entry of a recognition event's result list: its best transcript and whether it is final. */
  datatype RecognitionResult = RecognitionResult(transcript: string, isFinal: bool)

  /** A recognition event: the results, of which those from `resultIndex` on are new. */
  datatype RecognitionEvent = RecognitionEvent(results: seq<RecognitionResult>, resultIndex: nat)

  /** What the final results from index `i` on add to the running transcript: each followed by one space. */
  function FinalText(results: seq<RecognitionResult>, i: nat): string
    decreases |results| - i
  {
    if i >= |results| then ""
    else (if results[i].isFinal then results[i].transcript + " " else "") + FinalText(results, i + 1)
  }

  /** The concatenated non-final results from index `i` on. */
  function InterimText(results: seq<RecognitionResult>, i: nat): string
    decreases |results| - i
  {
    if i >= |results| then ""
    else (if results[i].isFinal then "" else results[i].transcript) + InterimText(results, i + 1)
  }

  /**
   * The `onresult` handler: walks the new results, appending every final one
   * (plus a space) to the running transcript and collecting the interim ones
   * afresh; `reported` is what the transcript callback receives.
   */
  method OnResult(full: string, event: RecognitionEvent) returns (full': string, reported: string)
    ensures full' == full + FinalText(event.results, event.resultIndex)
    ensures reported == full' + InterimText(event.results, event.resultIndex)
    ensures full <= full' <= reported
  {
    var interim := "";
    full' := full;
    var i := event.resultIndex;
    while i < |event.results|
      invariant full' + FinalText(event.results, i) == full + FinalText(event.results, event.resultIndex)
      invariant interim + InterimText(event.results, i) == InterimText(event.results, event.resultIndex)
      decreases |event.results| - i
    {
      var res := event.results[i];
      if res.isFinal {
        full' := full' + res.transcript + " ";
      } else {
        interim := interim + res.transcript;
      }
      i := i + 1;
    }
    reported := full' + interim;
  }

  /** The running final transcript after a sequence of events. */
  function FinalAfter(full: string, events: seq<RecognitionEvent>): (r: string)
    decreases |events|
  {
    if |events| == 0 then full
    else FinalAfter(full + FinalText(events[0].results, events[0].resultIndex), events[1..])
  }

  lemma {:induction false} FinalAfterGrows(full: string, events: seq<RecognitionEvent>)
    ensures full <= FinalAfter(full, events)
    decreases |events|
  {
    if |events| > 0 {
      var next := full + FinalText(events[0].results, events[0].resultIndex);
      FinalAfterGrows(next, events[1..]);
    }
  }

  lemma {:induction false} FinalAfterAppend(full: string, a: seq<RecognitionEvent>, b: seq<RecognitionEvent>)
    ensures FinalAfter(full, a + b) == FinalAfter(FinalAfter(full, a), b)
    decreases |a|
  {
    if |a| == 0 {
      assert a + b == b;
    } else {
      assert (a + b)[0] == a[0];
      assert (a + b)[1..] == a[1..] + b;
      FinalAfterAppend(full + FinalText(a[0].results, a[0].resultIndex), a[1..], b);
    }
  }

  /** The value the callback receives for event `j`, starting from the transcript `full`. */
  function Reported(full: string, events: seq<RecognitionEvent>, j: nat): string
    requires j < |events|
  {
    FinalAfter(full, events[..j + 1]) + InterimText(events[j].results, events[j].resultIndex)
  }

  /**
   * The final part of the transcript only grows: what was final after event
   * `i` is a prefix of the final part after any later event and of every later report.
   */
  lemma FinalOnlyGrows(full: string, events: seq<RecognitionEvent>, i: nat, j: nat)
    requires i <= j < |events|
    ensures FinalAfter(full, events[..i]) <= FinalAfter(full, events[..j])
    ensures FinalAfter(full, events[..i]) <= Reported(full, events, j)
  {
    assert events[..j] == events[..i] + events[i..j];
    FinalAfterAppend(full, events[..i], events[i..j]);
    FinalAfterGrows(FinalAfter(full, events[..i]), events[i..j]);
    assert events[..j + 1] == events[..i] + events[i..j + 1];
    FinalAfterAppend(full, events[..i], events[i..j + 1]);
    FinalAfterGrows(FinalAfter(full, events[..i]), events[i..j + 1]);
  }

  // ---------------------------------------------------------------- text to speech

  /** A callback, identified abstractly. */
  type Callback = nat

  datatype SpeechOptions = SpeechOptions(
    lang: Option<string>,
    voice: Option<VoiceConfig.Voice>,
    voiceAgent: Option<VoiceConfig.VoiceAgent>,
    onEnd: Option<Callback>)

  /** The second argument of `speak`: absent, a bare end callback, or an options object. */
  datatype SpeakArgument = NoArgument | EndCallback(f: Callback) | Options(opts: SpeechOptions)

  datatype Utterance = Utterance(
    text: string, rate: real, pitch: real, volume: real,
    lang: Option<string>, voice: Option<VoiceConfig.Voice>, onEnd: Option<Callback>)

  /** What `speak` does to the synthesiser: nothing without one, else cancel and speak the utterance. */
  datatype SpeakEffect = NoSynthesizer | CancelAndSpeak(utterance: Utterance)

  /** JavaScript truthiness of an optional string. */
  predicate Truthy(s: Option<string>)
  {
    s.Some? && s.value != ""
  }

  function NormalizeOptions(arg: SpeakArgument): (opts: SpeechOptions)
    ensures arg.Options? ==> opts == arg.opts
    ensures arg.EndCallback? ==> opts == SpeechOptions(None, None, None, Some(arg.f))
    ensures arg.NoArgument? ==> opts == SpeechOptions(None, None, None, None)
  {
    match arg
    case NoArgument => SpeechOptions(None, None, None, None)
    case EndCallback(f) => SpeechOptions(None, None, None, Some(f))
    case Options(o) => o
  }

  /** The voice the agent resolves to, when voices are cached and one matches its language. */
  function AgentVoice(opts: SpeechOptions, cached: seq<VoiceConfig.Voice>): Option<VoiceConfig.Voice>
  {
    if opts.voiceAgent.Some? && |cached| > 0 then VoiceConfig.FindVoiceForAgent(opts.voiceAgent.value, cached) else None
  }

  /**
   * The utterance voice, by strict priority: the explicit voice, then the
   * agent's resolved voice, then any cached voice for the requested language.
   */
  function ChooseVoice(opts: SpeechOptions, cached: seq<VoiceConfig.Voice>): (v: Option<VoiceConfig.Voice>)
    ensures opts.voice.Some? ==> v == opts.voice
    ensures opts.voice.None? && v.Some? ==> v.value in cached
    ensures opts.voice.None? && AgentVoice(opts, cached).Some? ==> v == AgentVoice(opts, cached)
    ensures opts.voice.None? && AgentVoice(opts, cached).None? ==>
              v == (if Truthy(opts.lang) && |cached| > 0 then VoiceConfig.FindAnyVoiceForLang(cached, opts.lang.value) else None)
  {
    var first := if opts.voice.Some? then opts.voice else AgentVoice(opts, cached);
    if first.None? && Truthy(opts.lang) && |cached| > 0 then VoiceConfig.FindAnyVoiceForLang(cached, opts.lang.value)
    else first
  }

  /** `speak(text, options)`, with the cached browser voices as input. */
  function Speak(hasSynth: bool, cached: seq<VoiceConfig.Voice>, text: string, arg: SpeakArgument): (e: SpeakEffect)
    ensures !hasSynth <==> e.NoSynthesizer?
    ensures e.CancelAndSpeak? ==>
              var u := e.utterance;
              u.text == text && u.rate == 0.9 && u.pitch == 1.0 && u.volume == 1.0
              && u.voice == ChooseVoice(NormalizeOptions(arg), cached)
              && u.onEnd == NormalizeOptions(arg).onEnd
              && (Truthy(NormalizeOptions(arg).lang) ==> u.lang == NormalizeOptions(arg).lang)
              && (!Truthy(NormalizeOptions(arg).lang) ==> u.lang.None?)
  {
    var opts := NormalizeOptions(arg);
    if !hasSynth then NoSynthesizer
    else
      CancelAndSpeak(Utterance(text, 0.9, 1.0, 1.0,
        if Truthy(opts.lang) then opts.lang else None,
        ChooseVoice(opts, cached), opts.onEnd))
  }

  /**
   * Without an explicit voice or an agent, speaking in a language that some
   * cached voice matches always sets a voice, and that voice matches the language.
   */
  lemma SpeakFindsVoiceForLanguage(cached: seq<VoiceConfig.Voice>, text: string, lang: string, k: nat)
    requires lang != "" && k < |cached| && VoiceConfig.VoiceMatchesLang(cached[k].lang, lang)
    ensures var e := Speak(true, cached, text, Options(SpeechOptions(Some(lang), None, None, None)));
            e.CancelAndSpeak? && e.utterance.voice.Some? && e.utterance.voice.value in cached
            && VoiceConfig.VoiceMatchesLang(e.utterance.voice.value.lang, lang)
  {
  }

  /** An explicit voice always wins, whatever agent, language or cache is given. */
  lemma ExplicitVoiceWins(cached: seq<VoiceConfig.Voice>, text: string, opts: SpeechOptions)
    requires opts.voice.Some?
    ensures Speak(true, cached, text, Options(opts)).utterance.voice == opts.voice
  {
  }

  /** An agent voice, once resolved, is one of the cached voices and matches the agent's language. */
  lemma AgentVoiceMatchesAgent(opts: SpeechOptions, cached: seq<VoiceConfig.Voice>)
    requires opts.voice.None? && AgentVoice(opts, cached).Some?
    ensures ChooseVoice(opts, cached).value in cached
    ensures VoiceConfig.VoiceMatchesLang(ChooseVoice(opts, cached).value.lang, opts.voiceAgent.value.lang)
  {
  }

  /**
   * With no explicit voice and no resolved agent voice, a voice is set only
   * through the language fallback, so it is a cached voice for the very
   * language the utterance carries.
   */
  lemma FallbackVoiceSpeaksUtteranceLanguage(cached: seq<VoiceConfig.Voice>, text: string, opts: SpeechOptions)
    requires opts.voice.None? && AgentVoice(opts, cached).None?
    ensures var u := Speak(true, cached, text, Options(opts)).utterance;
      u.voice.Some? ==> u.lang.Some? && u.voice.value in cached && VoiceConfig.VoiceMatchesLang(u.voice.value.lang, u.lang.value)
  {
  }

  // ---------------------------------------------------------------- speaking feedback

  /** A JavaScript number as the score can take it: NaN, or an integer percentage. */
  datatype Score = NaN | Percent(value: nat)

  /**
   * The ten fixed remarks a feedback can carry. Each is shown as its
   * `RemarkText`; a remark's identity, not its wording, is what the rules decide.
   */
  datatype Remark =
    | LengthStrength | LengthImprovement | LengthSuggestion
    | PunctuationStrength
    | FormalStrength | FormalImprovement | FormalSuggestion
    | FillerImprovement | FillerSuggestion | FillerStrength

  function RemarkText(r: Remark): string
  {
    match r
    case LengthStrength => "Good response length - you provided detailed information"
    case LengthImprovement => "Try to provide longer, more detailed responses"
    case LengthSuggestion => "Add more phrases to express your opinion more fully"
    case PunctuationStrength => "Good use of punctuation in transcription"
    case FormalStrength => "Excellent use of formal debate language"
    case FormalImprovement => "Use more formal debate phrases"
    case FormalSuggestion => "Try using: \"Furthermore...\", \"In my opinion...\", \"Therefore...\""
    case FillerImprovement => "Minimize filler words for more professional speech"
    case FillerSuggestion => "Replace fillers with brief pauses or thoughtful silence"
    case FillerStrength => "No filler words detected - clear and confident speech"
  }

  datatype Feedback = Feedback(score: Score, strengths: seq<Remark>, improvements: seq<Remark>, suggestions: seq<Remark>)

  const FormalWords: seq<string> := ["furthermore", "therefore", "moreover", "in my opinion"]
  const FillerWords: seq<string> := ["uh", "um", "like", "you know"]

  /** `words.some(w => s.includes(w))`. */
  predicate ContainsAny(s: string, words: seq<string>)
  {
    exists i :: 0 <= i < |words| && Contains(s, words[i])
  }

  /** A spoken word matches when it contains, or is contained in, some expected word. */
  predicate WordMatches(word: string, expected: seq<string>)
  {
    exists i :: 0 <= i < |expected| && (Contains(expected[i], word) || Contains(word, expected[i]))
  }

  function MatchesVocabulary(expected: seq<string>): string -> bool
  {
    (w: string) => WordMatches(w, expected)
  }

  function LowerAll(words: seq<string>): (r: seq<string>)
    ensures |r| == |words|
    ensures forall i :: 0 <= i < |r| ==> r[i] == ToLower(words[i])
  {
    seq(|words|, i requires 0 <= i < |words| => ToLower(words[i]))
  }

  /**
   * `Math.min(100, Math.max(0, Math.round(matched / expected * 100)))`: NaN
   * for 0/0, 100 for a positive count over 0, else the rounded, clamped percentage.
   */
  function RoundedPercent(matched: nat, expected: nat): (s: Score)
    ensures s.NaN? <==> matched == 0 && expected == 0
    ensures s.Percent? ==> s.value <= 100
  {
    if expected == 0 then (if matched == 0 then NaN else Percent(100))
    else
      var r := Arith.RoundedDiv(100 * matched, expected);
      Percent(if r > 100 then 100 else r)
  }

  /** Below full marks the score is the percentage rounded to the nearest integer, halves up. */
  lemma RoundedPercentIsNearest(matched: nat, expected: nat)
    requires expected > 0 && RoundedPercent(matched, expected).value < 100
    ensures var s := RoundedPercent(matched, expected).value;
            2 * s * expected - expected <= 200 * matched < 2 * s * expected + expected
  {
    Arith.RoundHalfUp(100 * matched, expected);
  }

  /** More matched words never lower the score. */
  lemma RoundedPercentMonotone(m1: nat, m2: nat, expected: nat)
    requires expected > 0 && m1 <= m2
    ensures RoundedPercent(m1, expected).value <= RoundedPercent(m2, expected).value
  {
    Arith.RoundedDivMonotone(100 * m1, 100 * m2, expected);
  }

  /** The matched words of a response: its white-space separated pieces that match the vocabulary. */
  function MatchedWords(userResponse: string, expectedVocabulary: seq<string>): seq<string>
  {
    Filter(SplitSpaces(ToLower(userResponse)), MatchesVocabulary(LowerAll(expectedVocabulary)))
  }

  /** The remarks of the three rules plus the punctuation remark, each flag the outcome of one test. */
  function Strengths(longEnough: bool, punctuated: bool, formal: bool, filler: bool): (r: seq<Remark>)
    ensures |r| == (if longEnough then 1 else 0) + (if punctuated then 1 else 0) + (if formal then 1 else 0) + (if filler then 0 else 1)
    ensures LengthStrength in r <==> longEnough
    ensures PunctuationStrength in r <==> punctuated
    ensures FormalStrength in r <==> formal
    ensures FillerStrength in r <==> !filler
  {
    (if longEnough then [LengthStrength] else [])
    + (if punctuated then [PunctuationStrength] else [])
    + (if formal then [FormalStrength] else [])
    + (if filler then [] else [FillerStrength])
  }

  function Improvements(longEnough: bool, formal: bool, filler: bool): (r: seq<Remark>)
    ensures |r| == (if longEnough then 0 else 1) + (if formal then 0 else 1) + (if filler then 1 else 0)
    ensures LengthImprovement in r <==> !longEnough
    ensures FormalImprovement in r <==> !formal
    ensures FillerImprovement in r <==> filler
  {
    (if longEnough then [] else [LengthImprovement])
    + (if formal then [] else [FormalImprovement])
    + (if filler then [FillerImprovement] else [])
  }

  function Suggestions(longEnough: bool, formal: bool, filler: bool): (r: seq<Remark>)
    ensures |r| == (if longEnough then 0 else 1) + (if formal then 0 else 1) + (if filler then 1 else 0)
    ensures LengthSuggestion in r <==> !longEnough
    ensures FormalSuggestion in r <==> !formal
    ensures FillerSuggestion in r <==> filler
  {
    (if longEnough then [] else [LengthSuggestion])
    + (if formal then [] else [FormalSuggestion])
    + (if filler then [FillerSuggestion] else [])
  }

  predicate Punctuated(s: string)
  {
    '!' in s || '?' in s || '.' in s
  }

  /** `generateSpeakingFeedback`: a vocabulary score and three rule-based remarks. */
  function GenerateSpeakingFeedback(userResponse: string, expectedVocabulary: seq<string>): (f: Feedback)
    ensures f.score == RoundedPercent(|MatchedWords(userResponse, expectedVocabulary)|, |expectedVocabulary|)
    ensures |f.improvements| == |f.suggestions|
    ensures |f.strengths| + |f.improvements| == 3 + (if Punctuated(userResponse) then 1 else 0)
    ensures LengthStrength in f.strengths <==> |userResponse| > 20
    ensures LengthImprovement in f.improvements <==> |userResponse| <= 20
    ensures PunctuationStrength in f.strengths <==> Punctuated(userResponse)
    ensures FormalStrength in f.strengths <==> ContainsAny(ToLower(userResponse), FormalWords)
    ensures FillerImprovement in f.improvements <==> ContainsAny(ToLower(userResponse), FillerWords)
  {
    var lower := ToLower(userResponse);
    var longEnough := |userResponse| > 20;
    var formal := ContainsAny(lower, FormalWords);
    var filler := ContainsAny(lower, FillerWords);
    Feedback(
      RoundedPercent(|MatchedWords(userResponse, expectedVocabulary)|, |expectedVocabulary|),
      Strengths(longEnough, Punctuated(userResponse), formal, filler),
      Improvements(longEnough, formal, filler),
      Suggestions(longEnough, formal, filler))
  }

  /** The feedback ignores letter case: two responses that lower-case alike get the same feedback. */
  lemma FeedbackIgnoresCase(a: string, b: string, expectedVocabulary: seq<string>)
    requires ToLower(a) == ToLower(b)
    ensures GenerateSpeakingFeedback(a, expectedVocabulary) == GenerateSpeakingFeedback(b, expectedVocabulary)
  {
    PunctuatedIgnoresCase(a, b);
    PunctuatedIgnoresCase(b, a);
  }

  /** A punctuation mark is no letter, so lower-casing neither adds nor removes one. */
  lemma PunctuatedIgnoresCase(a: string, b: string)
    requires ToLower(a) == ToLower(b)
    ensures Punctuated(a) ==> Punctuated(b)
  {
    if Punctuated(a) {
      var i :| 0 <= i < |a| && (a[i] == '!' || a[i] == '?' || a[i] == '.');
      assert LowerChar(b[i]) == LowerChar(a[i]) == a[i];
      assert b[i] == a[i];
    }
  }

  /** Against an empty vocabulary no word matches. */
  lemma {:induction false} NothingMatchesEmptyVocabulary(words: seq<string>)
    ensures Filter(words, MatchesVocabulary([])) == []
    decreases |words|
  {
    if |words| > 0 {
      assert !WordMatches(words[0], []);
      NothingMatchesEmptyVocabulary(words[1..]);
    }
  }

  /** With a non-empty vocabulary the score is a percentage; with an empty one it is NaN. */
  lemma FeedbackScoreBounds(userResponse: string, expectedVocabulary: seq<string>)
    ensures var s := GenerateSpeakingFeedback(userResponse, expectedVocabulary).score;
            (|expectedVocabulary| > 0 ==> s.Percent? && s.value <= 100)
            && (|expectedVocabulary| == 0 ==> s.NaN?)
  {
    if |expectedVocabulary| == 0 {
      assert LowerAll(expectedVocabulary) == [];
      NothingMatchesEmptyVocabulary(SplitSpaces(ToLower(userResponse)));
    }
  }

  /**
   * `split(/\s+/)` yields one empty piece for an empty response, and the empty
   * piece is contained in every expected word: an empty response counts as one
   * matched word.
   */
  lemma EmptyResponseMatchesEverything(expectedVocabulary: seq<string>)
    requires |expectedVocabulary| > 0
    ensures MatchedWords("", expectedVocabulary) == [""]
  {
    var expected := LowerAll(expectedVocabulary);
    var words := SplitSpaces(ToLower(""));
    assert words == [""];
    ContainsEmpty(expected[0]);
    assert MatchesVocabulary(expected)("");
    assert Filter(words, MatchesVocabulary(expected)) == [""] + Filter(words[1..], MatchesVocabulary(expected));
  }

  /** So an empty response scores one word's worth, and full marks against a one-word vocabulary. */
  lemma EmptyResponseScore(expectedVocabulary: seq<string>)
    requires |expectedVocabulary| > 0
    ensures GenerateSpeakingFeedback("", expectedVocabulary).score == RoundedPercent(1, |expectedVocabulary|)
    ensures |expectedVocabulary| == 1 ==> GenerateSpeakingFeedback("", expectedVocabulary).score == Percent(100)
  {
    EmptyResponseMatchesEverything(expectedVocabulary);
    var e := |expectedVocabulary|;
    Arith.RoundedDivWhole(100, e);
  }
}
