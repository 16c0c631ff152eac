/** The questionnaire view shown during steps 11-19: the question on
    display, the answers the user gave (spoken, or chosen among the
    question's options), the guard flags against double answers, and the set
    of question ids already shown, which keeps a question delivered twice from
    being shown twice.

    `handleVoiceAnswer` has no caller in the view: a spoken answer reaches
    the session's questionnaire turn through the session's transcript
    routing (`Session.Session.HandleTranscript`), without the view's guards
    and without option matching. `HandleVoiceAnswer` models the function as
    written.

    The view always receives `send`, `onStartListening` and
    `onStopListening` from the session, so listening goes through the session
    and an answer goes to the session's questionnaire turn. Camera and
    microphone plumbing is not modelled; `Init` says when it would start. */
module QuestionView {
  import opened Text
  import opened Messages

  const FirstStep: int := 11
  const LastStep: int := 19
  const AutoStopMs: nat := 5000

  // ---------------------------------------------------------------------
  // Voice answers and options
  // ---------------------------------------------------------------------

  /** Either lower-cased string contains the other. */
  predicate Matches(option: string, transcript: string) {
    Contains(Lower(option), Lower(transcript)) || Contains(Lower(transcript), Lower(option))
  }

  /** `options.find(...)`: the position of the first option, in list order,
      that matches the transcript. */
  function FirstMatch(options: seq<string>, transcript: string): (r: Option<nat>)
    ensures r.None? <==> forall i :: 0 <= i < |options| ==> !Matches(options[i], transcript)
    ensures r.Some? ==>
              r.value < |options| && Matches(options[r.value], transcript) &&
              forall j :: 0 <= j < r.value ==> !Matches(options[j], transcript)
  {
    if options == [] then None
    else if Matches(options[0], transcript) then Some(0)
    else
      match FirstMatch(options[1..], transcript)
      case None => None
      case Some(i) => Some(i + 1)
  }

  /** The answer a transcript stands for: the first matching option when the
      question has options, one matches and it is not empty (an empty option
      is falsy, so the test on the found option sends the transcript
      instead), the transcript itself otherwise. */
  function VoiceAnswerText(options: Option<seq<string>>, transcript: string): (a: string)
    ensures options.None? ==> a == transcript
    ensures options.Some? && FirstMatch(options.value, transcript).None? ==> a == transcript
    ensures options.Some? && FirstMatch(options.value, transcript).Some? ==>
              var m := options.value[FirstMatch(options.value, transcript).value];
              a == (if m != "" then m else transcript)
  {
    if options.Some? then
      match FirstMatch(options.value, transcript)
      case Some(i) => if options.value[i] != "" then options.value[i] else transcript
      case None => transcript
    else transcript
  }

  /** A voice answer is empty only when the transcript was: a matched empty
      option never becomes the answer. */
  lemma VoiceAnswerEmptyOnlyForEmptyTranscript(options: Option<seq<string>>, transcript: string)
    ensures VoiceAnswerText(options, transcript) == "" ==> transcript == ""
  {
  }

  /** A voice answer is either the transcript or one of the options. */
  lemma VoiceAnswerIsOptionOrTranscript(options: Option<seq<string>>, transcript: string)
    ensures var a := VoiceAnswerText(options, transcript);
            a == transcript || (options.Some? && a in options.value)
  {
  }

  /** An empty transcript is contained in every option, so it selects the
      first option of a question that has any. */
  lemma {:induction false} EmptyTranscriptPicksFirstOption(options: seq<string>)
    requires |options| > 0
    ensures VoiceAnswerText(Some(options), "") == options[0]
  {
    assert Lower("") == "";
    assert "" <= Lower(options[0]);
    assert Matches(options[0], "");
  }

  // ---------------------------------------------------------------------
  // Question ids
  // ---------------------------------------------------------------------

  /** `question || response`: the text a question shows. */
  function Shown(q: Question): string {
    if q.question != "" then q.question else q.response
  }

  /** `${text}_${timestamp}`. */
  function QuestionId(text: string, timestamp: nat): (id: string)
    ensures |id| > |text| + 1 && id[..|text|] == text && id[|text|] == '_'
  {
    text + "_" + DecimalString(timestamp)
  }

  /** The id of an incoming question, `now` standing in for a missing
      (zero) timestamp. */
  function IdOf(q: Question, now: nat): string {
    QuestionId(Shown(q), if q.timestamp != 0 then q.timestamp else now)
  }

  /** The separator of a question id is its last underscore. */
  lemma LastSeparator(text: string, timestamp: nat)
    ensures var s := QuestionId(text, timestamp);
            |text| < |s| && s[|text|] == '_' &&
            (forall k :: |text| < k < |s| ==> IsDigit(s[k])) &&
            s[..|text|] == text && s[|text| + 1..] == DecimalString(timestamp)
  {
    var s := QuestionId(text, timestamp);
    var d := DecimalString(timestamp);
    assert s == text + ("_" + d);
    forall k | |text| < k < |s| ensures IsDigit(s[k]) {
      assert s[k] == d[k - |text| - 1];
    }
    assert s[|text| + 1..] == d;
  }

  /** Different texts or different timestamps give different ids: the id
      identifies the question text and its timestamp. */
  lemma QuestionIdInjective(a: string, m: nat, b: string, n: nat)
    requires QuestionId(a, m) == QuestionId(b, n)
    ensures a == b && m == n
  {
    var s := QuestionId(a, m);
    LastSeparator(a, m);
    LastSeparator(b, n);
    assert s[|b|] == '_' && s[|a|] == '_';
    assert !IsDigit('_');
    assert |a| == |b|;
    DecimalStringInjective(m, n);
  }

  /** A question delivered again without a timestamp gets a fresh id at a
      different instant, so the set does not hold it back; with its timestamp
      it keeps its id. */
  lemma RedeliveryIds(q: Question, now1: nat, now2: nat)
    ensures q.timestamp != 0 ==> IdOf(q, now1) == IdOf(q, now2)
    ensures q.timestamp == 0 && now1 != now2 ==> IdOf(q, now1) != IdOf(q, now2)
  {
    if q.timestamp == 0 && IdOf(q, now1) == IdOf(q, now2) {
      QuestionIdInjective(Shown(q), now1, Shown(q), now2);
    }
  }

  // ---------------------------------------------------------------------
  // The view
  // ---------------------------------------------------------------------

  /** One answered question in the local history. */
  datatype HistoryItem = HistoryItem(question: string, answer: string, timestamp: nat)

  /** A snapshot of every field of a QuestionView. */
  datatype ViewState = ViewState(
    isListening: bool,
    isMicEnabled: bool,
    currentAnswer: string,
    currentQuestion: Option<Question>,
    localHistory: seq<HistoryItem>,
    isProcessing: bool,
    isInitialized: bool,
    processedQuestions: set<string>,
    lastAnswer: Option<string>)

  /** While an answer is being processed there is a question on display, and
      the last history item records that answer. */
  predicate ValidState(s: ViewState) {
    s.isProcessing ==>
      s.currentQuestion.Some? && |s.localHistory| > 0 &&
      s.localHistory[|s.localHistory| - 1].answer == s.currentAnswer
  }

  /** The guards under which an answer is accepted. */
  predicate AcceptsAnswer(s: ViewState, aiSpeaking: bool) {
    !s.isProcessing && !aiSpeaking && s.currentQuestion.Some?
  }

  class QuestionView {
    var isListening: bool
    var isMicEnabled: bool
    var currentAnswer: string
    var currentQuestion: Option<Question>
    var localHistory: seq<HistoryItem>
    var isProcessing: bool
    // Refs.
    var isInitialized: bool
    var processedQuestions: set<string>
    var lastAnswer: Option<string>

    ghost function State(): ViewState
      reads this
    {
      ViewState(isListening, isMicEnabled, currentAnswer, currentQuestion, localHistory, isProcessing,
                isInitialized, processedQuestions, lastAnswer)
    }

    ghost predicate Valid()
      reads this
    {
      ValidState(State())
    }

    constructor ()
      ensures Valid()
      ensures State() == ViewState(false, true, "", None, [], false, false, {}, None)
    {
      isListening := false;
      isMicEnabled := true;
      currentAnswer := "";
      currentQuestion := None;
      localHistory := [];
      isProcessing := false;
      isInitialized := false;
      processedQuestions := {};
      lastAnswer := None;
    }

    /** handleAnswer (`now` is the clock): an answer is ignored while one is
        processed, while the assistant speaks or when no question is shown;
        otherwise it is remembered, marks the view busy, stops listening,
        appends one `{question, answer}` item and goes to `send`. */
    method HandleAnswer(answer: string, aiSpeaking: bool, now: nat) returns (sent: bool)
      requires Valid()
      modifies this
      ensures Valid()
      ensures sent <==> AcceptsAnswer(old(State()), aiSpeaking)
      ensures !sent ==> State() == old(State())
      ensures sent ==>
                State() == old(State()).(
                  lastAnswer := Some(answer),
                  isProcessing := true,
                  currentAnswer := answer,
                  isListening := false,
                  localHistory := old(localHistory) + [HistoryItem(Shown(old(currentQuestion).value), answer, now)])
    {
      if isProcessing || aiSpeaking {
        return false;
      }
      if currentQuestion.None? {
        return false;
      }
      lastAnswer := Some(answer);
      isProcessing := true;
      currentAnswer := answer;
      isListening := false;  // stopListening
      localHistory := localHistory + [HistoryItem(Shown(currentQuestion.value), answer, now)];
      sent := true;
    }

    /** `send` threw: the view is no longer busy and the answer is cleared. */
    method OnSendError()
      requires Valid()
      modifies this
      ensures Valid()
      ensures State() == old(State()).(isProcessing := false, currentAnswer := "")
    {
      isProcessing := false;
      currentAnswer := "";
    }

    /** handleVoiceAnswer: under the same guards, the transcript is turned
        into an answer (the first matching option, else the transcript). */
    method HandleVoiceAnswer(transcript: string, aiSpeaking: bool, now: nat) returns (sent: bool, answer: string)
      requires Valid()
      modifies this
      ensures Valid()
      ensures sent <==> AcceptsAnswer(old(State()), aiSpeaking)
      ensures !sent ==> State() == old(State())
      ensures sent ==>
                answer == VoiceAnswerText(old(currentQuestion).value.options, transcript) &&
                State() == old(State()).(
                  lastAnswer := Some(answer),
                  isProcessing := true,
                  currentAnswer := answer,
                  isListening := false,
                  localHistory := old(localHistory) + [HistoryItem(Shown(old(currentQuestion).value), answer, now)])
    {
      answer := "";
      sent := false;
      if currentQuestion.None? || isProcessing || aiSpeaking {
        return;
      }
      answer := VoiceAnswerText(currentQuestion.value.options, transcript);
      sent := HandleAnswer(answer, aiSpeaking, now);
    }

    /** handleOptionClick: a clicked option is answered under the same guards. */
    method HandleOptionClick(option: string, aiSpeaking: bool, now: nat) returns (sent: bool)
      requires Valid()
      modifies this
      ensures Valid()
      ensures sent <==> AcceptsAnswer(old(State()), aiSpeaking)
      ensures !sent ==> State() == old(State())
      ensures sent ==>
                State() == old(State()).(
                  lastAnswer := Some(option),
                  isProcessing := true,
                  currentAnswer := option,
                  isListening := false,
                  localHistory := old(localHistory) + [HistoryItem(Shown(old(currentQuestion).value), option, now)])
    {
      sent := false;
      if !isProcessing && currentQuestion.Some? && !aiSpeaking {
        sent := HandleAnswer(option, aiSpeaking, now);
      }
    }

    /** The next-question effect (`now` is the clock): a question whose id was
        seen is ignored; an unseen one is recorded, shown, and clears the
        answer and the busy flag. */
    method OnNextQuestion(q: Option<Question>, now: nat) returns (accepted: bool)
      requires Valid()
      modifies this
      ensures Valid()
      ensures accepted <==> q.Some? && IdOf(q.value, now) !in old(processedQuestions)
      ensures !accepted ==> State() == old(State())
      ensures accepted ==>
                State() == old(State()).(
                  processedQuestions := old(processedQuestions) + {IdOf(q.value, now)},
                  currentQuestion := q,
                  currentAnswer := "",
                  isProcessing := false)
    {
      accepted := false;
      if q.Some? {
        var id := IdOf(q.value, now);
        if id in processedQuestions {
          return;
        }
        processedQuestions := processedQuestions + {id};
        currentQuestion := q;
        currentAnswer := "";
        isProcessing := false;
        accepted := true;
      }
    }

    /** startListening: refused while the microphone is off or the assistant
        speaks; otherwise the session listens and an auto-stop timer of five
        seconds is started. */
    method StartListening(aiSpeaking: bool) returns (autoStop: Option<nat>)
      requires Valid()
      modifies this
      ensures Valid()
      ensures autoStop.None? <==> !old(isMicEnabled) || aiSpeaking
      ensures autoStop.None? ==> State() == old(State())
      ensures autoStop.Some? ==> autoStop.value == AutoStopMs && State() == old(State()).(isListening := true)
    {
      autoStop := None;
      if !isMicEnabled || aiSpeaking {
        return;
      }
      isListening := true;
      autoStop := Some(AutoStopMs);
    }

    /** stopListening: the auto-stop timer is cleared and listening ends. */
    method StopListening()
      requires Valid()
      modifies this
      ensures Valid()
      ensures State() == old(State()).(isListening := false)
    {
      isListening := false;
    }

    /** The parent's listening flag is mirrored. */
    method SyncListening(parentListening: bool)
      requires Valid()
      modifies this
      ensures Valid()
      ensures State() == old(State()).(isListening := parentListening)
    {
      isListening := parentListening;
    }

    /** toggleMic: listening stops first if active, then the microphone flips. */
    method ToggleMic()
      requires Valid()
      modifies this
      ensures Valid()
      ensures State() == old(State()).(isListening := false, isMicEnabled := !old(isMicEnabled))
    {
      if isListening {
        StopListening();
      }
      isMicEnabled := !isMicEnabled;
    }

    /** init: sets the guard and reports whether the camera and microphone
        would be requested, which happens only when the guard was clear. */
    method Init() returns (started: bool)
      requires Valid()
      modifies this
      ensures Valid()
      ensures started <==> !old(isInitialized)
      ensures State() == old(State()).(isInitialized := true)
    {
      if isInitialized {
        return false;
      }
      isInitialized := true;
      started := true;
    }

    /** Camera or microphone acquisition failed; a denied or missing device
        disables the microphone. */
    method OnMediaError(deniedOrMissing: bool)
      requires Valid()
      modifies this
      ensures Valid()
      ensures State() == old(State()).(isMicEnabled := old(isMicEnabled) && !deniedOrMissing)
    {
      if deniedOrMissing {
        isMicEnabled := false;
      }
    }

    /** The step changed from `prev` to `next`. The cleanup of the effect
        belongs to the step being left: it stops listening and clears the
        init guard, the processed ids and the last answer when `prev` lies
        outside 11-19. Then, entering step 11 with the guard clear runs
        `Init`. */
    method StepChanged(prev: int, next: int) returns (started: bool)
      requires Valid()
      modifies this
      ensures Valid()
      ensures var cleaned := prev > LastStep || prev < FirstStep;
              var s1 := if cleaned
                        then old(State()).(isListening := false, isInitialized := false,
                                           processedQuestions := {}, lastAnswer := None)
                        else old(State());
              (started <==> next == FirstStep && !s1.isInitialized) &&
              State() == (if started then s1.(isInitialized := true) else s1)
    {
      if prev > LastStep || prev < FirstStep {
        StopListening();
        isInitialized := false;
        processedQuestions := {};
        lastAnswer := None;
      }
      started := false;
      if next == FirstStep && !isInitialized {
        started := Init();
      }
    }
  }

  /** A question delivered twice with its timestamp is shown once: the first
      delivery of an unseen question is accepted, the second is ignored. */
  method RedeliveredQuestionShownOnce(v: QuestionView, q: Question, now1: nat, now2: nat)
    returns (first: bool, second: bool)
    requires v.Valid() && q.timestamp != 0 && IdOf(q, now1) !in v.processedQuestions
    modifies v
    ensures v.Valid()
    ensures first && !second && v.currentQuestion == Some(q)
  {
    first := v.OnNextQuestion(Some(q), now1);
    RedeliveryIds(q, now1, now2);
    second := v.OnNextQuestion(Some(q), now2);
  }
}
