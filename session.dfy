/** The session coordinator of the browser client: the numeric step of the
    guided flow, the chat and questionnaire transcripts, and the guard flags
    that keep questionnaire calls from overlapping or repeating.

    Every callback of the client (a reply, a failure, a timer that fires, a
    transcript) is one method of `Session` and runs as one atomic step on the
    current state. A call to the backend is not made here: the method that
    would make it returns the request, and the reply (or the failure) comes
    back later through its own method. Speech output, listening and the status
    line are not modelled; a follow-up value says which timer the client
    would start next. */
module Session {
  import opened Text
  import opened Messages

  // Steps of the flow, as the views test them.
  const VideoStep: nat := 8
  const QnaFirstStep: nat := 11
  const QnaLastStep: nat := 19
  const RomStep: nat := 21
  const DashboardStep: nat := 24

  const MaxRetries: nat := 3
  const RetryDelayMs: nat := 2000
  const ForcedRomDelayMs: nat := 2000

  /** The synthetic answer that opens the questionnaire. */
  const Opener: string := "Let's continue with the assessment"
  const Greeting: string := "Hello"
  const BodyPartUser: string := "User has shown body part on video"
  const IdentifiedPart: string := "lower back"
  const FallbackQuestion: string := "Please continue..."

  // ---------------------------------------------------------------------
  // Chat history to questionnaire history
  // ---------------------------------------------------------------------

  /** `chat.response || chat.assistant || ""`. */
  function AssistantText(e: ChatEntry): string {
    if e.response != "" then e.response else e.assistant
  }

  /** convertChatHistoryToQnAFormat: every entry becomes `{user, assistant}`,
      and entries whose user text is empty or blank are dropped. */
  function ChatToQnaFormat(chat: seq<ChatEntry>): (r: seq<QnaTurn>)
    ensures |r| <= |chat|
    ensures forall k :: 0 <= k < |r| ==> !IsBlank(r[k].user)
  {
    if chat == [] then []
    else
      (if IsBlank(chat[0].user) then [] else [QnaTurn(chat[0].user, AssistantText(chat[0]))])
      + ChatToQnaFormat(chat[1..])
  }

  /** The conversion works entry by entry and keeps the order: converting a
      concatenation converts each part. */
  lemma {:induction false} ChatToQnaFormatAppend(a: seq<ChatEntry>, b: seq<ChatEntry>)
    ensures ChatToQnaFormat(a + b) == ChatToQnaFormat(a) + ChatToQnaFormat(b)
  {
    if a == [] {
      assert a + b == b;
    } else {
      assert (a + b)[0] == a[0];
      assert (a + b)[1..] == a[1..] + b;
      ChatToQnaFormatAppend(a[1..], b);
    }
  }

  /** Wherever an entry stands, it is dropped if its user text is blank and
      otherwise becomes `{user, response or assistant}` at the same place. */
  lemma ChatToQnaFormatEntry(a: seq<ChatEntry>, e: ChatEntry, b: seq<ChatEntry>)
    ensures ChatToQnaFormat(a + [e] + b) ==
              ChatToQnaFormat(a)
              + (if IsBlank(e.user) then [] else [QnaTurn(e.user, AssistantText(e))])
              + ChatToQnaFormat(b)
  {
    ChatToQnaFormatAppend(a + [e], b);
    ChatToQnaFormatAppend(a, [e]);
    assert [e][1..] == [];
  }

  /** A history without blank user texts keeps every entry, in place. */
  lemma {:induction false} ChatToQnaFormatKeepsAll(chat: seq<ChatEntry>)
    requires forall i :: 0 <= i < |chat| ==> !IsBlank(chat[i].user)
    ensures |ChatToQnaFormat(chat)| == |chat|
    ensures forall i :: 0 <= i < |chat| ==>
              ChatToQnaFormat(chat)[i] == QnaTurn(chat[i].user, AssistantText(chat[i]))
  {
    if chat != [] {
      ChatToQnaFormatKeepsAll(chat[1..]);
    }
  }

  // ---------------------------------------------------------------------
  // Pure rules of the questionnaire turn
  // ---------------------------------------------------------------------

  /** The current question asks the user to show a movement on video. */
  predicate IsRomTrigger(questionText: string) {
    Contains(Lower(questionText), "video") && Contains(Lower(questionText), "move")
  }

  /** The answer signals readiness, as the give-up branch tests it. */
  predicate IsReadyAnswer(answer: string) {
    Contains(Lower(answer), "ready") || Contains(Lower(answer), "yes") || Contains(Lower(answer), "i am ready")
  }

  /** The third phrase of the readiness test adds nothing: an answer
      containing "i am ready" contains "ready". */
  lemma ReadyPhraseRedundant(answer: string)
    ensures IsReadyAnswer(answer) <==> Contains(Lower(answer), "ready") || Contains(Lower(answer), "yes")
  {
    if Contains(Lower(answer), "i am ready") {
      assert "i am ready" == "i am " + "ready";
      ContainsTail(Lower(answer), "i am ", "ready");
    }
  }

  /** The data of a questionnaire reply. */
  datatype QnaData = QnaData(question: string, response: string, options: Option<seq<string>>, action: string)

  datatype QnaReply = QnaReply(success: bool, data: QnaData)

  /** `question || response || "Please continue..."`: never empty. */
  function QuestionText(d: QnaData): (t: string)
    ensures t != ""
  {
    if d.question != "" then d.question else if d.response != "" then d.response else FallbackQuestion
  }

  function ShownQuestion(q: Option<Question>): string {
    if q.Some? then q.value.question else ""
  }

  /** The questionnaire call in flight: the locals its closure captured
      (answer, attempt number, whether the question shown when it started was
      a movement prompt, the history sent and the assessment id). */
  datatype PendingAnswer = PendingAnswer(
    answer: string, retryCount: nat, romTrigger: bool, request: seq<QnaTurn>, assessmentId: nat)

  /** What an action in a questionnaire reply does to the flow. */
  datatype Directive = EnterRom | EnterDashboard | CompleteInPlace | KeepAsking

  function ActionDirective(action: string): (d: Directive)
    ensures d == EnterRom <==> action == "rom_api"
    ensures d == EnterDashboard <==> action == "dashboard_api"
    ensures d == CompleteInPlace <==> action == "complete" || action == "end_questionnaire"
    ensures d != KeepAsking <==> action in {"rom_api", "dashboard_api", "complete", "end_questionnaire"}
  {
    if action == "rom_api" then EnterRom
    else if action == "dashboard_api" then EnterDashboard
    else if action == "complete" || action == "end_questionnaire" then CompleteInPlace
    else KeepAsking
  }

  /** The step a directive leads to. Within the questionnaire and up to the
      capture, no directive moves the flow backwards. */
  function StepAfter(d: Directive, step: nat): (r: nat)
    ensures step <= RomStep ==> r >= step
    ensures d == KeepAsking || d == CompleteInPlace ==> r == step
  {
    match d
    case EnterRom => RomStep
    case EnterDashboard => DashboardStep
    case _ => step
  }

  /** The `finally` clause: the in-flight flag is cleared after the first
      attempt and after the last one, and left alone after attempts 1 and 2. */
  function FlagAfterAttempt(flag: bool, retryCount: nat): (r: bool)
    ensures r ==> flag
    ensures r <==> flag && 0 < retryCount < MaxRetries
  {
    if retryCount >= MaxRetries || retryCount == 0 then false else flag
  }

  /** The assistant side of the last turn receives the question text. */
  function WithLastAssistant(h: seq<QnaTurn>, text: string): (r: seq<QnaTurn>)
    ensures |r| == |h|
    ensures forall i :: 0 <= i < |h| - 1 ==> r[i] == h[i]
    ensures |h| > 0 ==> r[|h| - 1] == QnaTurn(h[|h| - 1].user, text)
  {
    if h == [] then [] else h[..|h| - 1] + [QnaTurn(h[|h| - 1].user, text)]
  }

  /** The reply's `response` is written into the last chat entry. */
  function WithLastResponse(h: seq<ChatEntry>, response: string): (r: seq<ChatEntry>)
    ensures |r| == |h|
    ensures forall i :: 0 <= i < |h| - 1 ==> r[i] == h[i]
    ensures |h| > 0 ==> r[|h| - 1] == h[|h| - 1].(response := response)
  {
    if h == [] then [] else h[..|h| - 1] + [h[|h| - 1].(response := response)]
  }

  // ---------------------------------------------------------------------
  // Failure handling and retries
  // ---------------------------------------------------------------------

  datatype FailureOutcome = RetryAfter(delayMs: nat, retryCount: nat) | ForceRomAfter(delayMs: nat) | GiveUp

  /** What a failed attempt leads to: another attempt while fewer than
      MaxRetries retries were made; after that, a forced move to the
      movement capture when the question was a movement prompt and the answer
      signals readiness; otherwise the session gives up. */
  function FailureDecision(retryCount: nat, romTrigger: bool, answer: string): (r: FailureOutcome)
    ensures r.RetryAfter? <==> retryCount < MaxRetries
    ensures r.RetryAfter? ==> r == RetryAfter(RetryDelayMs, retryCount + 1)
    ensures r.ForceRomAfter? <==> MaxRetries <= retryCount && romTrigger && IsReadyAnswer(answer)
    ensures r.ForceRomAfter? ==> r.delayMs == ForcedRomDelayMs
  {
    if retryCount < MaxRetries then RetryAfter(RetryDelayMs, retryCount + 1)
    else if romTrigger && IsReadyAnswer(answer) then ForceRomAfter(ForcedRomDelayMs)
    else GiveUp
  }

  /** The attempt numbers of one answer whose every attempt fails: the first
      attempt is 0 and each next one is the retry the previous failure
      scheduled. */
  ghost predicate IsFailureChain(attempts: seq<nat>, romTrigger: bool, answer: string) {
    |attempts| > 0 && attempts[0] == 0 &&
    forall i :: 0 <= i < |attempts| - 1 ==>
      FailureDecision(attempts[i], romTrigger, answer) == RetryAfter(RetryDelayMs, attempts[i + 1])
  }

  lemma {:induction false} FailureChainNumbers(attempts: seq<nat>, romTrigger: bool, answer: string, i: nat)
    requires IsFailureChain(attempts, romTrigger, answer)
    requires i < |attempts|
    ensures attempts[i] == i
  {
    if i > 0 {
      FailureChainNumbers(attempts, romTrigger, answer, i - 1);
    }
  }

  /** Each answer is sent at most MaxRetries + 1 = 4 times, numbered 0, 1, 2, 3. */
  lemma FailureChainBounded(attempts: seq<nat>, romTrigger: bool, answer: string)
    requires IsFailureChain(attempts, romTrigger, answer)
    ensures |attempts| <= MaxRetries + 1
    ensures forall i :: 0 <= i < |attempts| ==> attempts[i] == i
  {
    forall i | 0 <= i < |attempts| ensures attempts[i] == i {
      FailureChainNumbers(attempts, romTrigger, answer, i);
    }
    if |attempts| > 1 {
      // The last failure but one scheduled a retry, so it was below MaxRetries.
      var k := |attempts| - 2;
      assert FailureDecision(attempts[k], romTrigger, answer) == RetryAfter(RetryDelayMs, attempts[k + 1]);
      assert attempts[k] < MaxRetries;
    }
  }

  /** Rollback of the unacknowledged turn when the session gives up. Its
      guard `retryCount === 0` is tested in a branch that is reached only with
      retryCount >= MaxRetries. */
  function Rollback(h: seq<QnaTurn>, retryCount: nat): (r: seq<QnaTurn>)
    ensures retryCount == 0 && |h| > 0 ==> r + [h[|h| - 1]] == h
    ensures retryCount != 0 || h == [] ==> r == h
  {
    if retryCount == 0 && |h| > 0 then h[..|h| - 1] else h
  }

  // ---------------------------------------------------------------------
  // Chat turns and transcript routing
  // ---------------------------------------------------------------------

  datatype ChatReply = ChatReply(success: bool, response: string, action: string)

  /** The body of a chat call: the history and, for the video turn, the video. */
  datatype ChatRequest = ChatRequest(history: seq<ChatEntry>, video: string)

  /** The timer or speech-driven step the client starts after a chat reply. */
  datatype ChatFollowUp =
    | NoFollowUp
    | ResumeListening(delayMs: nat)
    | CameraCountdown
    | QnaHandover(convert: seq<ChatEntry>, openerSees: seq<QnaTurn>, convertDelayMs: nat, initDelayMs: nat)

  /** The entry recorded after the pain-location video. */
  function BodyPartEntry(fallback: bool): ChatEntry {
    ChatEntry(BodyPartUser, IdentifiedPart + " identified as body part" + (if fallback then " (fallback)" else ""), "")
  }

  /** The success-path handover converts the captured history with the
      body-part message once: the questionnaire history is the converted
      captured history followed by exactly one body-part turn. */
  lemma HandoverAddsBodyPartOnce(captured: seq<ChatEntry>)
    ensures ChatToQnaFormat(captured + [BodyPartEntry(false)]) ==
              ChatToQnaFormat(captured) + [QnaTurn(BodyPartUser, IdentifiedPart + " identified as body part")]
  {
    ChatToQnaFormatEntry(captured, BodyPartEntry(false), []);
    assert captured + [BodyPartEntry(false)] + [] == captured + [BodyPartEntry(false)];
    assert !IsWhitespace(BodyPartUser[0]);
    assert !IsBlank(BodyPartEntry(false).user);
    assert ChatToQnaFormat([]) == [];
    assert AssistantText(BodyPartEntry(false)) == IdentifiedPart + " identified as body part";
  }

  /** The conversion invents no user text: a user text that no entry has
      appears in no turn. */
  lemma {:induction false} ChatToQnaFormatUsers(chat: seq<ChatEntry>, u: string)
    requires forall i :: 0 <= i < |chat| ==> chat[i].user != u
    ensures forall k :: 0 <= k < |ChatToQnaFormat(chat)| ==> ChatToQnaFormat(chat)[k].user != u
  {
    if chat != [] {
      ChatToQnaFormatUsers(chat[1..], u);
      ChatToQnaFormatAppend([chat[0]], chat[1..]);
      assert [chat[0]] + chat[1..] == chat;
      assert [chat[0]][1..] == [];
    }
  }

  /** On the fallback path the handover converts the captured history, in
      which the fallback message is not yet: a session whose earlier chat had
      no body-part message reaches the questionnaire without one. */
  lemma FallbackHandoverLacksBodyPart(captured: seq<ChatEntry>)
    requires forall i :: 0 <= i < |captured| ==> captured[i].user != BodyPartUser
    ensures forall k :: 0 <= k < |ChatToQnaFormat(captured)| ==> ChatToQnaFormat(captured)[k].user != BodyPartUser
    ensures BodyPartEntry(true) !in captured
  {
    ChatToQnaFormatUsers(captured, BodyPartUser);
  }

  datatype Route = ToQuestionnaire | ToChat | Dropped | Unintelligible

  /** Where a finished transcript goes: questionnaire steps 11-19 answer the
      questionnaire (complete or not), earlier steps talk to the chat, later
      steps drop it; a blank transcript goes nowhere. */
  function RouteTranscript(step: nat, qnaComplete: bool, transcript: string): (r: Route)
    ensures r == Unintelligible <==> IsBlank(transcript)
    ensures r == ToQuestionnaire <==> !IsBlank(transcript) && QnaFirstStep <= step <= QnaLastStep
    ensures r == ToChat <==> !IsBlank(transcript) && step < QnaFirstStep
    ensures r == Dropped <==> !IsBlank(transcript) && QnaLastStep < step
  {
    if !IsBlank(transcript) then
      if QnaFirstStep <= step <= QnaLastStep && !qnaComplete then ToQuestionnaire
      else if QnaFirstStep <= step <= QnaLastStep && qnaComplete then ToQuestionnaire
      else if step < QnaFirstStep then ToChat
      else Dropped
    else Unintelligible
  }

  /** What a transcript led to: a questionnaire call (or its suppression), a
      chat call, or nothing (with or without a later restart of listening). */
  datatype Dispatch = QuestionnaireCall(call: Option<PendingAnswer>) | ChatCall(request: ChatRequest) | NoCall(resumeListening: bool)

  /** `!assessmentIdRef.current`: no id, or the falsy id 0. */
  predicate IdPresent(id: Option<nat>) {
    id.Some? && id.value != 0
  }

  // ---------------------------------------------------------------------
  // The session
  // ---------------------------------------------------------------------

  /** A snapshot of every field of a Session, for stating what a step changes. */
  datatype SessionState = SessionState(
    step: nat,
    chatHistory: seq<ChatEntry>,
    qnaHistory: seq<QnaTurn>,
    assessmentId: Option<nat>,
    nextQuestion: Option<Question>,
    identifiedBodyPart: Option<string>,
    isStart: bool,
    isQnAComplete: bool,
    qnaCallInProgress: bool,
    transitioningToQnA: bool,
    hasInitializedQnA: bool,
    lastProcessedQuestion: Option<string>)

  /** The guards under which a questionnaire answer is dropped without a call. */
  predicate SkipsAnswer(s: SessionState, answer: string, retryCount: nat) {
    (s.qnaCallInProgress && retryCount == 0) ||
    (s.transitioningToQnA && answer == Opener) ||
    !IdPresent(s.assessmentId)
  }

  /** The session's invariant: a started session has an id; the last
      processed question is the text of the question on display, which is
      never empty; the questionnaire is never both initialised and still in
      transition. */
  predicate ValidState(s: SessionState) {
    (s.isStart <==> s.assessmentId.Some?) &&
    (s.nextQuestion.None? <==> s.lastProcessedQuestion.None?) &&
    (s.nextQuestion.Some? ==> s.lastProcessedQuestion == Some(s.nextQuestion.value.question) && s.nextQuestion.value.question != "") &&
    !(s.hasInitializedQnA && s.transitioningToQnA)
  }

  class Session {
    var step: nat
    var chatHistory: seq<ChatEntry>
    var qnaHistory: seq<QnaTurn>
    var assessmentId: Option<nat>
    var nextQuestion: Option<Question>
    var identifiedBodyPart: Option<string>
    var isStart: bool
    var isQnAComplete: bool
    // Guard refs.
    var qnaCallInProgress: bool
    var transitioningToQnA: bool
    var hasInitializedQnA: bool
    var lastProcessedQuestion: Option<string>

    ghost function State(): SessionState
      reads this
    {
      SessionState(step, chatHistory, qnaHistory, assessmentId, nextQuestion, identifiedBodyPart,
                   isStart, isQnAComplete, qnaCallInProgress, transitioningToQnA, hasInitializedQnA,
                   lastProcessedQuestion)
    }

    ghost predicate Valid()
      reads this
    {
      ValidState(State())
    }

    constructor ()
      ensures Valid()
      ensures State() == SessionState(0, [], [], None, None, None, false, false, false, false, false, None)
    {
      step := 0;
      chatHistory := [];
      qnaHistory := [];
      assessmentId := None;
      nextQuestion := None;
      identifiedBodyPart := None;
      isStart := false;
      isQnAComplete := false;
      qnaCallInProgress := false;
      transitioningToQnA := false;
      hasInitializedQnA := false;
      lastProcessedQuestion := None;
    }

    /** sendAnswerToAPI up to the request. `seen` is the questionnaire
        history of the render whose `sendAnswerToAPI` runs (the current one
        when the caller was created after the last change). Drop the answer
        under the three guards; on the first attempt raise the in-flight flag
        and set the history to `seen` plus one `{user: answer, assistant: ""}`
        turn; a retry sends `seen` and changes nothing. */
    method SendAnswer(answer: string, retryCount: nat, seen: seq<QnaTurn>) returns (call: Option<PendingAnswer>)
      requires Valid()
      modifies this
      ensures Valid()
      ensures call.None? <==> SkipsAnswer(old(State()), answer, retryCount)
      ensures call.None? ==> State() == old(State())
      ensures call.Some? && retryCount == 0 ==>
                State() == old(State()).(qnaHistory := seen + [QnaTurn(answer, "")], qnaCallInProgress := true)
      ensures call.Some? && retryCount > 0 ==> State() == old(State())
      ensures call.Some? ==>
                call.value == PendingAnswer(answer, retryCount, IsRomTrigger(ShownQuestion(old(nextQuestion))),
                                            if retryCount == 0 then seen + [QnaTurn(answer, "")] else seen,
                                            old(assessmentId).value)
    {
      var romTrigger := IsRomTrigger(ShownQuestion(nextQuestion));
      if qnaCallInProgress && retryCount == 0 {
        return None;
      }
      if transitioningToQnA && answer == Opener {
        return None;
      }
      if !IdPresent(assessmentId) {
        return None;
      }
      var updated := seen;
      if retryCount == 0 {
        qnaCallInProgress := true;
        updated := seen + [QnaTurn(answer, "")];
        qnaHistory := updated;
      }
      call := Some(PendingAnswer(answer, retryCount, romTrigger, updated, assessmentId.value));
    }

    /** A questionnaire reply arrived for `call` (`now` is the clock). A
        repeated question text changes nothing but the flag; a new one becomes
        the question on display, fills the assistant side of the last turn and
        applies the reply's action. */
    method OnAnswerReply(call: PendingAnswer, reply: QnaReply, now: nat)
      requires Valid()
      modifies this
      ensures Valid()
      ensures !reply.success ==>
                State() == old(State()).(qnaCallInProgress := FlagAfterAttempt(old(qnaCallInProgress), call.retryCount))
      ensures reply.success && old(lastProcessedQuestion) == Some(QuestionText(reply.data)) ==>
                State() == old(State()).(qnaCallInProgress := false)
      ensures reply.success && old(lastProcessedQuestion) != Some(QuestionText(reply.data)) ==>
                var text := QuestionText(reply.data);
                var d := ActionDirective(reply.data.action);
                State() == old(State()).(
                  lastProcessedQuestion := Some(text),
                  nextQuestion := Some(Question(text, reply.data.response, reply.data.options, reply.data.action, now)),
                  qnaHistory := WithLastAssistant(old(qnaHistory), text),
                  step := StepAfter(d, old(step)),
                  isQnAComplete := old(isQnAComplete) || d != KeepAsking,
                  qnaCallInProgress := FlagAfterAttempt(old(qnaCallInProgress), call.retryCount))
    {
      if !reply.success {
        qnaCallInProgress := FlagAfterAttempt(qnaCallInProgress, call.retryCount);
        return;
      }
      var text := QuestionText(reply.data);
      if lastProcessedQuestion == Some(text) {
        qnaCallInProgress := false;
        return;
      }
      ShowQuestion(text, reply.data, now);
      qnaCallInProgress := FlagAfterAttempt(qnaCallInProgress, call.retryCount);
    }

    /** A new question text from a successful reply: it becomes the question
        on display and the assistant side of the last turn, and the reply's
        action is applied. */
    method ShowQuestion(text: string, data: QnaData, now: nat)
      requires Valid() && text != ""
      modifies this
      ensures Valid()
      ensures var d := ActionDirective(data.action);
              State() == old(State()).(
                lastProcessedQuestion := Some(text),
                nextQuestion := Some(Question(text, data.response, data.options, data.action, now)),
                qnaHistory := WithLastAssistant(old(qnaHistory), text),
                step := StepAfter(d, old(step)),
                isQnAComplete := old(isQnAComplete) || d != KeepAsking)
    {
      lastProcessedQuestion := Some(text);
      nextQuestion := Some(Question(text, data.response, data.options, data.action, now));
      qnaHistory := WithLastAssistant(qnaHistory, text);
      var d := ActionDirective(data.action);
      if d != KeepAsking {
        isQnAComplete := true;
      }
      step := StepAfter(d, step);
    }

    /** The call for `call` failed. The outcome says which timer follows;
        giving up clears the flag, and in every case the history keeps the
        turn of the failed answer. */
    method OnAnswerFailure(call: PendingAnswer) returns (outcome: FailureOutcome)
      requires Valid()
      modifies this
      ensures Valid()
      ensures outcome == FailureDecision(call.retryCount, call.romTrigger, call.answer)
      ensures State() == old(State()).(qnaCallInProgress := FlagAfterAttempt(old(qnaCallInProgress), call.retryCount))
    {
      outcome := FailureDecision(call.retryCount, call.romTrigger, call.answer);
      if outcome.GiveUp? {
        qnaCallInProgress := false;
        qnaHistory := Rollback(qnaHistory, call.retryCount);
      }
      if call.retryCount >= MaxRetries || call.retryCount == 0 {
        qnaCallInProgress := false;
      }
    }

    /** The timer of the forced move to the movement capture fired. */
    method OnForcedRomTimer()
      requires Valid()
      modifies this
      ensures Valid()
      ensures State() == old(State()).(isQnAComplete := true, step := RomStep, qnaCallInProgress := false)
    {
      isQnAComplete := true;
      step := RomStep;
      qnaCallInProgress := false;
    }

    /** sendChat up to the request: a text turn appends `{user: message}`; a
        video turn appends nothing and carries the video instead. */
    method SendChat(message: string, isVideo: bool) returns (request: ChatRequest)
      requires Valid()
      modifies this
      ensures Valid()
      ensures !isVideo ==> State() == old(State()).(chatHistory := old(chatHistory) + [ChatEntry(message, "", "")])
      ensures isVideo ==> State() == old(State())
      ensures request == ChatRequest(chatHistory, if isVideo then message else "")
    {
      if !isVideo {
        chatHistory := chatHistory + [ChatEntry(message, "", "")];
      }
      request := ChatRequest(chatHistory, if isVideo then message else "");
    }

    /** A chat reply arrived for `sent`. After the video, the body-part
        message is recorded and, on `next_api` or `restart`, the flow moves to
        the questionnaire; the handover converts the history the sending call
        saw (`sent.history`) with the body-part message added, and the opener
        is later sent on top of the questionnaire history the chat call saw,
        which in the chat phase is the one at the reply. After a text
        turn, the reply fills the last entry and `next_api` moves to the
        questionnaire. */
    method OnChatReply(sent: ChatRequest, isVideo: bool, reply: ChatReply) returns (followUp: ChatFollowUp)
      requires Valid()
      modifies this
      ensures Valid()
      ensures !reply.success ==> State() == old(State()) && followUp == NoFollowUp
      ensures reply.success && isVideo ==>
                var moves := reply.action == "restart" || reply.action == "next_api";
                State() == old(State()).(
                  transitioningToQnA := true,
                  hasInitializedQnA := false,
                  identifiedBodyPart := Some(IdentifiedPart),
                  chatHistory := old(chatHistory) + [BodyPartEntry(false)],
                  step := if moves then QnaFirstStep else old(step)) &&
                followUp == (if moves then QnaHandover(sent.history + [BodyPartEntry(false)], old(qnaHistory), 500, 1000) else NoFollowUp)
      ensures reply.success && !isVideo ==>
                State() == old(State()).(
                  chatHistory := WithLastResponse(old(chatHistory), reply.response),
                  step := if reply.action == "next_api" then QnaFirstStep else old(step)) &&
                followUp == (if reply.action == "camera_on" then CameraCountdown
                             else if reply.action != "next_api" && old(step) < QnaFirstStep then ResumeListening(0)
                             else NoFollowUp)
    {
      followUp := NoFollowUp;
      if !reply.success {
        return;
      }
      if isVideo {
        transitioningToQnA := true;
        hasInitializedQnA := false;
        identifiedBodyPart := Some(IdentifiedPart);
        chatHistory := chatHistory + [BodyPartEntry(false)];
        if reply.action == "restart" || reply.action == "next_api" {
          step := QnaFirstStep;
          followUp := QnaHandover(sent.history + [BodyPartEntry(false)], qnaHistory, 500, 1000);
        }
      } else {
        chatHistory := WithLastResponse(chatHistory, reply.response);
        if reply.action == "camera_on" {
          followUp := CameraCountdown;
        } else if reply.action != "next_api" {
          // Listening resumes after the reply is spoken, in the chat phase only.
          if step < QnaFirstStep {
            followUp := ResumeListening(0);
          }
        } else {
          step := QnaFirstStep;
        }
      }
    }

    /** The chat call `sent` failed. The video turn falls back to the fixed
        body part and still moves to the questionnaire, whose history is
        converted from the history the sending call saw, without the fallback
        message, and whose opener is sent on top of the questionnaire history
        the chat call saw; a text turn only restarts listening after two
        seconds. */
    method OnChatFailure(sent: ChatRequest, isVideo: bool) returns (followUp: ChatFollowUp)
      requires Valid()
      modifies this
      ensures Valid()
      ensures isVideo ==>
                State() == old(State()).(
                  transitioningToQnA := true,
                  hasInitializedQnA := false,
                  identifiedBodyPart := Some(IdentifiedPart),
                  chatHistory := old(chatHistory) + [BodyPartEntry(true)],
                  step := QnaFirstStep) &&
                followUp == QnaHandover(sent.history, old(qnaHistory), 500, 2000)
      ensures !isVideo ==> State() == old(State()) && followUp == ResumeListening(2000)
    {
      if isVideo {
        transitioningToQnA := true;
        hasInitializedQnA := false;
        identifiedBodyPart := Some(IdentifiedPart);
        chatHistory := chatHistory + [BodyPartEntry(true)];
        step := QnaFirstStep;
        followUp := QnaHandover(sent.history, qnaHistory, 500, 2000);
      } else {
        followUp := ResumeListening(2000);
      }
    }

    /** First handover timer: the history its closure holds
        (`QnaHandover.convert`) becomes the questionnaire history. */
    method OnHandoverConvert(convert: seq<ChatEntry>)
      requires Valid()
      modifies this
      ensures Valid()
      ensures State() == old(State()).(qnaHistory := ChatToQnaFormat(convert))
    {
      qnaHistory := ChatToQnaFormat(convert);
    }

    /** Second handover timer: the transition ends and, once only, the
        synthetic opener is sent as the first questionnaire answer. The
        `sendAnswerToAPI` it runs is the one of the chat call's render, so the
        opener is appended to the questionnaire history that render saw
        (`QnaHandover.openerSees`), which replaces the converted history. */
    method OnHandoverInit(openerSees: seq<QnaTurn>) returns (call: Option<PendingAnswer>)
      requires Valid()
      modifies this
      ensures Valid()
      ensures old(hasInitializedQnA) ==> State() == old(State()).(transitioningToQnA := false) && call.None?
      ensures !old(hasInitializedQnA) ==>
                (call.None? <==> old(qnaCallInProgress) || !IdPresent(old(assessmentId)))
      ensures !old(hasInitializedQnA) && call.None? ==>
                State() == old(State()).(hasInitializedQnA := true, transitioningToQnA := false)
      ensures !old(hasInitializedQnA) && call.Some? ==>
                State() == old(State()).(hasInitializedQnA := true, transitioningToQnA := false,
                                         qnaHistory := openerSees + [QnaTurn(Opener, "")],
                                         qnaCallInProgress := true) &&
                call.value == PendingAnswer(Opener, 0, IsRomTrigger(ShownQuestion(old(nextQuestion))),
                                            openerSees + [QnaTurn(Opener, "")], old(assessmentId).value)
    {
      transitioningToQnA := false;
      call := None;
      if !hasInitializedQnA {
        hasInitializedQnA := true;
        call := SendAnswer(Opener, 0, openerSees);
      }
    }

    /** The camera countdown that follows a `camera_on` reply ended. */
    method OnCameraCountdownDone()
      requires Valid()
      modifies this
      ensures Valid()
      ensures State() == old(State()).(step := VideoStep)
    {
      step := VideoStep;
    }

    /** handleSpeechToText after transcription: route by step. */
    method HandleTranscript(transcript: string) returns (d: Dispatch)
      requires Valid()
      modifies this
      ensures Valid()
      ensures var route := RouteTranscript(old(step), old(isQnAComplete), transcript);
              match route
              case ToQuestionnaire =>
                d.QuestionnaireCall? &&
                (d.call.None? <==> SkipsAnswer(old(State()), transcript, 0)) &&
                (d.call.None? ==> State() == old(State())) &&
                (d.call.Some? ==> State() == old(State()).(qnaHistory := old(qnaHistory) + [QnaTurn(transcript, "")],
                                                          qnaCallInProgress := true) &&
                                  d.call.value == PendingAnswer(transcript, 0, IsRomTrigger(ShownQuestion(old(nextQuestion))),
                                                                old(qnaHistory) + [QnaTurn(transcript, "")],
                                                                old(assessmentId).value))
              case ToChat =>
                d == ChatCall(ChatRequest(old(chatHistory) + [ChatEntry(transcript, "", "")], "")) &&
                State() == old(State()).(chatHistory := old(chatHistory) + [ChatEntry(transcript, "", "")])
              case Dropped => d == NoCall(false) && State() == old(State())
              case Unintelligible => d == NoCall(true) && State() == old(State())
    {
      match RouteTranscript(step, isQnAComplete, transcript)
      case ToQuestionnaire =>
        var call := SendAnswer(transcript, 0, qnaHistory);
        d := QuestionnaireCall(call);
      case ToChat =>
        var request := SendChat(transcript, false);
        d := ChatCall(request);
      case Dropped =>
        d := NoCall(false);
      case Unintelligible =>
        d := NoCall(true);
    }

    /** startAssessment once the backend answered: on success store the id,
        mark the session started and send the greeting. */
    method OnAssessmentCreated(success: bool, id: nat) returns (request: Option<ChatRequest>)
      requires Valid()
      modifies this
      ensures Valid()
      ensures !success ==> State() == old(State()) && request.None?
      ensures success ==>
                State() == old(State()).(assessmentId := Some(id), isStart := true,
                                         chatHistory := old(chatHistory) + [ChatEntry(Greeting, "", "")]) &&
                request == Some(ChatRequest(chatHistory, ""))
    {
      request := None;
      if success {
        assessmentId := Some(id);
        isStart := true;
        var r := SendChat(Greeting, false);
        request := Some(r);
      }
    }

    /** sendPainPointVideo: the recorded video is sent as a video chat turn
        when it is non-empty and an assessment id is present. */
    method SendPainPointVideo(video: string) returns (request: Option<ChatRequest>)
      requires Valid()
      modifies this
      ensures Valid()
      ensures State() == old(State())
      ensures request.Some? <==> video != "" && IdPresent(assessmentId)
      ensures request.Some? ==> request.value == ChatRequest(chatHistory, video)
    {
      request := None;
      if video != "" && IdPresent(assessmentId) {
        var r := SendChat(video, true);
        request := Some(r);
      }
    }

    /** onComplete / next: advance one step. */
    method Advance()
      requires Valid()
      modifies this
      ensures Valid()
      ensures State() == old(State()).(step := old(step) + 1)
    {
      step := step + 1;
    }

    /** reset: back to step 0 with empty histories, no id, no question, no
        body part and every guard cleared; the completion flag is kept. */
    method Reset()
      requires Valid()
      modifies this
      ensures Valid()
      ensures State() == SessionState(0, [], [], None, None, None, false, old(isQnAComplete),
                                      false, false, false, None)
    {
      transitioningToQnA := false;
      hasInitializedQnA := false;
      lastProcessedQuestion := None;
      qnaCallInProgress := false;
      step := 0;
      isStart := false;
      chatHistory := [];
      qnaHistory := [];
      assessmentId := None;
      nextQuestion := None;
      identifiedBodyPart := None;
    }
  }

  /** Two answers in quick succession: the second finds the first in flight
      and issues no call, so the questionnaire history holds one new turn. */
  method RapidAnswersSendOnce(s: Session, first: string, second: string)
    requires s.Valid() && IdPresent(s.assessmentId)
    requires !s.qnaCallInProgress && !s.transitioningToQnA
    modifies s
    ensures s.qnaHistory == old(s.qnaHistory) + [QnaTurn(first, "")]
  {
    var c1 := s.SendAnswer(first, 0, s.qnaHistory);
    assert c1.Some?;
    var c2 := s.SendAnswer(second, 0, s.qnaHistory);
    assert c2.None?;
  }

  /** The two handover timers in a row: the converted history lasts only
      until the opener is sent, which replaces it by the questionnaire
      history the chat call saw plus the opener turn, and that is the history
      the backend receives. */
  method HandoverOpenerReplacesConversion(s: Session, captured: seq<ChatEntry>, openerSees: seq<QnaTurn>)
    returns (call: Option<PendingAnswer>)
    requires s.Valid() && IdPresent(s.assessmentId)
    requires !s.hasInitializedQnA && !s.qnaCallInProgress
    modifies s
    ensures call.Some? && call.value.request == openerSees + [QnaTurn(Opener, "")]
    ensures s.qnaHistory == openerSees + [QnaTurn(Opener, "")]
  {
    s.OnHandoverConvert(captured + [BodyPartEntry(false)]);
    call := s.OnHandoverInit(openerSees);
  }

  /** An answer whose four attempts all fail stays in the history: the
      rollback after the last failure keeps it, the flag is clear again, and
      answering again by hand records the same answer a second time. */
  method FailedAnswerRecordedTwice(s: Session, answer: string)
    requires s.Valid() && IdPresent(s.assessmentId) && !s.qnaCallInProgress
    requires !(s.transitioningToQnA && answer == Opener)
    modifies s
    ensures s.qnaHistory == old(s.qnaHistory) + [QnaTurn(answer, ""), QnaTurn(answer, "")]
  {
    var seen := s.qnaHistory;
    var c0 := s.SendAnswer(answer, 0, seen);
    var o0 := s.OnAnswerFailure(c0.value);
    var c1 := s.SendAnswer(answer, 1, seen);
    var o1 := s.OnAnswerFailure(c1.value);
    var c2 := s.SendAnswer(answer, 2, seen);
    var o2 := s.OnAnswerFailure(c2.value);
    var c3 := s.SendAnswer(answer, 3, seen);
    var last := s.OnAnswerFailure(c3.value);
    var again := s.SendAnswer(answer, 0, s.qnaHistory);
    assert again.Some?;
  }
}
