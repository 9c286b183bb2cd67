/**
 * The live-debate screen (components/audio-debate-interface.tsx): rounds, the
 * canned AI replies, the user's recorded turns with their feedback, the final
 * average score and when the debate may be ended. Timers are collapsed: a
 * transition yields the state after its scheduled callbacks have run.
 */
module DebateInterface {
  import opened Wrappers
  import opened Text
  import opened Conversation
  import VoiceRecorder
  import Arith

  const AiResponses: seq<string> := [
    "Social media has revolutionized how we communicate. It connects billions of people instantaneously.",
    "That's an interesting point. However, we must consider the mental health impacts of constant connectivity.",
    "You are doing good Zahid,I agree that connection is valuable, but excessive use leads to addiction and decreased attention spans.",
    "The algorithm-driven content creates echo chambers that polarize society further.",
    "Despite your argument, the benefits of awareness and social movements cannot be ignored."
  ]

  const FallbackUserText: string := "I think that's an important point to consider. Let me add that this affects many aspects of our daily lives."

  /** The vocabulary every user turn is scored against. */
  const DebateVocabulary: seq<string> := ["social", "media", "important", "impact", "communication"]

  /**
   * The fixed data of the screen: the AI replies, the scoring vocabulary and
   * the sentence that stands in for a blank recognition result. Transitions
   * take it as a parameter; the screen uses `Shipped()`.
   */
  datatype Script = Script(replies: seq<string>, vocabulary: seq<string>, fallback: string)

  predicate ValidScript(script: Script)
  {
    |script.replies| > 0 && |script.vocabulary| > 0 && script.fallback != ""
  }

  function Shipped(): (script: Script)
    ensures ValidScript(script) && |script.replies| == 5
  {
    Script(AiResponses, DebateVocabulary, FallbackUserText)
  }

  datatype TranscriptItem = TranscriptItem(
    speaker: Speaker, content: string, audioUrl: Option<string>,
    feedback: Option<VoiceRecorder.Feedback>)

  datatype DebateState = DebateState(
    transcript: seq<TranscriptItem>,
    listening: bool,
    recording: bool,
    processing: bool,
    ended: bool,
    liveTranscript: string,
    recorderStarted: bool,
    currentFeedback: Option<VoiceRecorder.Feedback>)

  /** `roundCount`: one more than the number of complete user/AI exchanges. */
  function RoundCount(transcriptLength: nat): (r: nat)
    ensures r >= 1
    ensures 2 * (r - 1) <= transcriptLength < 2 * r
  {
    transcriptLength / 2 + 1
  }

  /** The index of the AI reply for a round: cycles through the `count` replies. */
  function AiReplyIndex(round: nat, count: nat): (k: nat)
    requires count > 0
    ensures k < count
    ensures round < count ==> k == round
  {
    round % count
  }

  /** The user's text: the trimmed live transcript, or the fixed fallback sentence when it is blank. */
  function UserText(liveTranscript: string, fallback: string): (r: string)
    requires fallback != ""
    ensures r != ""
    ensures Trim(liveTranscript) != "" ==> r == Trim(liveTranscript)
    ensures Trim(liveTranscript) == "" ==> r == fallback
  {
    if Trim(liveTranscript) != "" then Trim(liveTranscript) else fallback
  }

  /** The state once the opening prompt (the topic title) is being spoken. */
  function Initial(): (st: DebateState)
    ensures st.transcript == [] && st.listening && !st.ended && st.currentFeedback.None?
  {
    DebateState([], true, false, false, false, "", false, None)
  }

  function SpeechEnded(st: DebateState): (st': DebateState)
    ensures !st'.listening && st'.transcript == st.transcript
  {
    st.(listening := false)
  }

  function StartRecording(st: DebateState, micGranted: bool): (st': DebateState)
    ensures st'.recording == micGranted && st'.recorderStarted == (micGranted || st.recorderStarted)
    ensures st'.liveTranscript == "" && !st'.processing && st'.transcript == st.transcript
  {
    var st1 := st.(recording := true, processing := false, liveTranscript := "");
    if micGranted then st1.(recorderStarted := true) else st1.(recording := false)
  }

  function TranscriptUpdated(st: DebateState, transcript: string): (st': DebateState)
    ensures st'.liveTranscript == transcript && st'.transcript == st.transcript
  {
    st.(liveTranscript := transcript)
  }

  /**
   * `stopRecording`: append the user's turn with its feedback, then the AI
   * reply chosen by the round count read when recording stopped (before the
   * user's turn was added). A recorder that was never started ends in the error handler.
   */
  function StopRecording(st: DebateState, script: Script, audioUrl: string): (st': DebateState)
    requires ValidScript(script)
    ensures !st'.processing && !st'.recorderStarted
    ensures !st.recorderStarted ==> st' == st.(processing := false)
    ensures st.recorderStarted ==>
              var text := UserText(st.liveTranscript, script.fallback);
              var feedback := VoiceRecorder.GenerateSpeakingFeedback(text, script.vocabulary);
              st'.transcript == st.transcript + [
                TranscriptItem(User, text, Some(audioUrl), Some(feedback)),
                TranscriptItem(Ai, script.replies[AiReplyIndex(RoundCount(|st.transcript|), |script.replies|)], None, None)]
              && !st'.recording && st'.listening && st'.currentFeedback.None?
  {
    var st1 := st.(processing := true);
    if !st1.recorderStarted then st1.(processing := false)
    else
      var st2 := st1.(recorderStarted := false, recording := false);
      var text := UserText(st2.liveTranscript, script.fallback);
      var feedback := VoiceRecorder.GenerateSpeakingFeedback(text, script.vocabulary);
      var userMessage := TranscriptItem(User, text, Some(audioUrl), Some(feedback));
      var st3 := st2.(transcript := st2.transcript + [userMessage], currentFeedback := Some(feedback));
      var reply := script.replies[AiReplyIndex(RoundCount(|st.transcript|), |script.replies|)];
      var st4 := st3.(transcript := st3.transcript + [TranscriptItem(Ai, reply, None, None)], currentFeedback := None, listening := true);
      st4.(processing := false)
  }

  /**
   * A user turn: non-empty and carrying feedback with a percentage score.
   * (Which feedback, namely the one for the turn's own text, is what
   * `StopRecording` states when it appends the turn.)
   */
  predicate UserItemWellFormed(item: TranscriptItem)
  {
    item.speaker == User && item.content != "" && item.feedback.Some?
    && item.feedback.value.score.Percent? && item.feedback.value.score.value <= 100
  }

  /** The AI turn closing exchange `j`: no feedback, and reply (j + 1) modulo the number of replies. */
  predicate AiItemWellFormed(script: Script, j: nat, item: TranscriptItem)
    requires ValidScript(script)
  {
    item.speaker == Ai && item.feedback.None?
    && item.content == script.replies[(j + 1) % |script.replies|]
  }

  /**
   * The transcript invariant: a sequence of complete exchanges, each a user
   * turn followed by the AI turn for its position.
   */
  predicate WellFormed(script: Script, transcript: seq<TranscriptItem>)
    requires ValidScript(script)
    decreases |transcript|
  {
    if |transcript| == 0 then true
    else
      var n := |transcript|;
      n >= 2 && WellFormed(script, transcript[..n - 2])
      && UserItemWellFormed(transcript[n - 2])
      && AiItemWellFormed(script, n / 2 - 1, transcript[n - 1])
  }

  lemma InitialWellFormed(script: Script)
    requires ValidScript(script)
    ensures WellFormed(script, Initial().transcript)
  {
  }

  /** A well-formed transcript holds whole exchanges: user turns at even positions, AI turns at odd ones. */
  lemma {:induction false} WellFormedAlternates(script: Script, transcript: seq<TranscriptItem>, k: nat)
    requires ValidScript(script) && WellFormed(script, transcript) && k < |transcript|
    ensures |transcript| % 2 == 0
    ensures transcript[k].speaker == (if k % 2 == 0 then User else Ai)
    ensures k % 2 == 1 ==> AiItemWellFormed(script, k / 2, transcript[k])
    ensures k % 2 == 0 ==> UserItemWellFormed(transcript[k])
    decreases |transcript|
  {
    var n := |transcript|;
    if k < n - 2 {
      WellFormedAlternates(script, transcript[..n - 2], k);
      assert transcript[..n - 2][k] == transcript[k];
    } else {
      if n > 2 {
        WellFormedAlternates(script, transcript[..n - 2], 0);
      }
    }
  }

  /**
   * Stopping a recording keeps the transcript well formed: the reply picked
   * from the round count read before the user's turn was appended is exactly
   * the one the invariant expects at the new odd position.
   */
  lemma StopRecordingWellFormed(st: DebateState, script: Script, audioUrl: string)
    requires ValidScript(script) && WellFormed(script, st.transcript)
    ensures WellFormed(script, StopRecording(st, script, audioUrl).transcript)
  {
    var t := st.transcript;
    var t' := StopRecording(st, script, audioUrl).transcript;
    StopRecordingExchange(st, script, audioUrl);
    if st.recorderStarted {
      AppendExchange(script, t, t'[|t|], t'[|t| + 1]);
      assert t' == t + [t'[|t|], t'[|t| + 1]];
    }
  }

  /** A stop appends one well-formed user turn and the AI turn for its position, or nothing. */
  lemma StopRecordingExchange(st: DebateState, script: Script, audioUrl: string)
    requires ValidScript(script)
    ensures var t, t' := st.transcript, StopRecording(st, script, audioUrl).transcript;
      if st.recorderStarted then
        |t'| == |t| + 2 && t'[..|t|] == t
        && UserItemWellFormed(t'[|t|]) && AiItemWellFormed(script, |t| / 2, t'[|t| + 1])
      else t' == t
  {
    VoiceRecorder.FeedbackScoreBounds(UserText(st.liveTranscript, script.fallback), script.vocabulary);
    assert RoundCount(|st.transcript|) == |st.transcript| / 2 + 1;
  }

  /** Appending a well-formed user turn and the AI turn for its position keeps the invariant. */
  lemma AppendExchange(script: Script, t: seq<TranscriptItem>, u: TranscriptItem, a: TranscriptItem)
    requires ValidScript(script) && WellFormed(script, t)
    requires UserItemWellFormed(u) && AiItemWellFormed(script, |t| / 2, a)
    ensures WellFormed(script, t + [u, a])
  {
    var t' := t + [u, a];
    assert t'[..|t|] == t;
    assert (|t| + 2) / 2 - 1 == |t| / 2;
  }

  /**
   * The first exchange is answered with the second reply: the round count is
   * read before the user's turn is appended, so it is already 1 there.
   */
  lemma FirstExchangeGetsSecondReply(st: DebateState, script: Script, audioUrl: string)
    requires ValidScript(script) && |script.replies| > 1
    requires st.transcript == [] && st.recorderStarted
    ensures StopRecording(st, script, audioUrl).transcript[1].content == script.replies[1]
  {
    var k := AiReplyIndex(RoundCount(|st.transcript|), |script.replies|);
    assert RoundCount(|st.transcript|) == 1;
    assert StopRecording(st, script, audioUrl).transcript[1].content == script.replies[k];
  }

  /** Every user turn of a well-formed transcript scores a percentage in [0, 100], never NaN. */
  lemma UserScoresArePercentages(script: Script, transcript: seq<TranscriptItem>, k: nat)
    requires ValidScript(script) && WellFormed(script, transcript)
    requires k < |transcript| && transcript[k].speaker == User
    ensures transcript[k].feedback.Some? && transcript[k].feedback.value.score.Percent?
    ensures 0 <= transcript[k].feedback.value.score.value <= 100
  {
    WellFormedAlternates(script, transcript, k);
  }

  // ---------------------------------------------------------------- average score

  /** `m.feedback?.score || 0`: NaN and 0 both count as 0. */
  function ScoreOf(f: VoiceRecorder.Feedback): nat
  {
    match f.score
    case NaN => 0
    case Percent(v) => v
  }

  /** The sum of the scores of the items carrying feedback. */
  function ScoreSum(transcript: seq<TranscriptItem>): nat
    decreases |transcript|
  {
    if |transcript| == 0 then 0
    else (if transcript[0].feedback.Some? then ScoreOf(transcript[0].feedback.value) else 0) + ScoreSum(transcript[1..])
  }

  /** The number of items carrying feedback. */
  function FeedbackCount(transcript: seq<TranscriptItem>): (n: nat)
    ensures n <= |transcript|
    decreases |transcript|
  {
    if |transcript| == 0 then 0
    else (if transcript[0].feedback.Some? then 1 else 0) + FeedbackCount(transcript[1..])
  }

  /** Every item with feedback scores within [0, 100]. */
  predicate ScoresArePercentages(transcript: seq<TranscriptItem>)
  {
    forall k :: 0 <= k < |transcript| && transcript[k].feedback.Some? ==> 0 <= ScoreOf(transcript[k].feedback.value) <= 100
  }

  /** Without feedback items the sum is 0, whatever the other items hold. */
  lemma {:induction false} NoFeedbackNoScore(transcript: seq<TranscriptItem>)
    requires FeedbackCount(transcript) == 0
    ensures ScoreSum(transcript) == 0
    decreases |transcript|
  {
    if |transcript| > 0 {
      NoFeedbackNoScore(transcript[1..]);
    }
  }

  /** With percentages only, the sum lies between 0 and 100 per feedback item. */
  lemma {:induction false} ScoreSumBounds(transcript: seq<TranscriptItem>)
    requires ScoresArePercentages(transcript)
    ensures 0 <= ScoreSum(transcript) <= 100 * FeedbackCount(transcript)
    decreases |transcript|
  {
    if |transcript| > 0 {
      assert ScoresArePercentages(transcript[1..]) by {
        forall k | 0 <= k < |transcript[1..]| && transcript[1..][k].feedback.Some?
          ensures 0 <= ScoreOf(transcript[1..][k].feedback.value) <= 100
        {
          assert transcript[1..][k] == transcript[k + 1];
        }
      }
      ScoreSumBounds(transcript[1..]);
    }
  }

  /**
   * The "Average Score": `Math.round` of the mean score of the items with
   * feedback, the divisor being at least 1; 0 when no item has feedback.
   */
  function AverageScore(transcript: seq<TranscriptItem>): (avg: int)
    ensures FeedbackCount(transcript) == 0 ==> avg == 0
  {
    var d := if FeedbackCount(transcript) > 1 then FeedbackCount(transcript) else 1;
    assert FeedbackCount(transcript) == 0 ==> ScoreSum(transcript) == 0 by {
      if FeedbackCount(transcript) == 0 {
        NoFeedbackNoScore(transcript);
      }
    }
    Arith.RoundedDiv(ScoreSum(transcript), d)
  }

  /** With every score in [0, 100] the average is in [0, 100] too, and it is the nearest integer to the mean. */
  lemma AverageScoreBounds(transcript: seq<TranscriptItem>)
    requires ScoresArePercentages(transcript)
    ensures 0 <= AverageScore(transcript) <= 100
    ensures FeedbackCount(transcript) > 0 ==>
              var n := FeedbackCount(transcript);
              var a := AverageScore(transcript);
              2 * a * n - n <= 2 * ScoreSum(transcript) < 2 * a * n + n
  {
    ScoreSumBounds(transcript);
    var n := FeedbackCount(transcript);
    var d := if n > 1 then n else 1;
    var s := ScoreSum(transcript);
    assert s <= 100 * d;
    Arith.RoundedMeanBounds(s, d, 100);
    Arith.RoundHalfUp(s, d);
  }

  /** A well-formed transcript's average lies in [0, 100]. */
  lemma WellFormedAverageBounds(script: Script, transcript: seq<TranscriptItem>)
    requires ValidScript(script) && WellFormed(script, transcript)
    ensures 0 <= AverageScore(transcript) <= 100
  {
    forall k | 0 <= k < |transcript| && transcript[k].feedback.Some?
      ensures 0 <= ScoreOf(transcript[k].feedback.value) <= 100
    {
      WellFormedAlternates(script, transcript, k);
      if transcript[k].speaker == User {
        UserScoresArePercentages(script, transcript, k);
      }
    }
    AverageScoreBounds(transcript);
  }

  // ---------------------------------------------------------------- controls

  /** "Start Speaking" is enabled unless the AI is speaking or a turn is being processed. */
  predicate CanStartSpeaking(st: DebateState)
  {
    !st.recording && !st.listening && !st.processing
  }

  /** "End Debate" is offered only after some exchange, and not while recording or processing. */
  predicate CanEndDebate(st: DebateState)
  {
    |st.transcript| > 0 && !st.recording && !st.processing
  }

  function EndDebate(st: DebateState): (st': DebateState)
    ensures st'.ended && st'.transcript == st.transcript
  {
    st.(ended := true)
  }

  /** The debate cannot be ended before the first exchange, and can be right after one completes. */
  lemma EndDebateAfterExchange(st: DebateState, script: Script, audioUrl: string)
    requires ValidScript(script)
    ensures !CanEndDebate(Initial())
    ensures st.recorderStarted ==> CanEndDebate(StopRecording(st, script, audioUrl))
  {
  }
}
