# Guided pain assessment: session, questionnaire, cleaning and ROM capture

A user goes through a voice-driven pain assessment in the browser. The flow has these parts:

- **Chat** (`step` below 11). The user talks with an assistant. The assistant may ask for a short video of the painful area (step 8).
- **Questionnaire** (steps 11–19). The backend asks question after question. The user answers by voice or by picking an option.
- **Range-of-motion capture** (step 21). Camera frames go to an analysis socket, and after a five-second countdown the last measurement from the socket is saved.
- **Dashboard** (step 24).

This project models the parts of that system that keep the flow consistent:

- **`Session`** (`session.dfy`): the session coordinator of the browser client. It holds:
  - the step;
  - the chat and questionnaire transcripts;
  - the guard flags that stop questionnaire calls from overlapping or repeating;
  - the retry policy (at most 3 retries, 2 s apart);
  - the forced move to the capture when retries run out on a movement prompt;
  - the handover from chat to questionnaire after the video;
  - the routing of a finished transcript by step;
  - `reset`.
- **`QuestionView`** (`question_view.dfy`): the questionnaire screen. It covers:
  - matching a spoken answer against the question's options, in `handleVoiceAnswer`, a function of the view that nothing calls (spoken answers reach the session through its transcript routing, without the view's guards);
  - the guards on answers;
  - the set of question ids already shown, which drops a question delivered twice;
  - the microphone guards;
  - the init guard and its cleanup when the step changes.
- **`AssessmentHandler`** (`assessment_handler.dfy`): the two backend handlers the client calls.
  - The questionnaire handler does three things. It removes repeated "User has shown body part on video" messages with a single loop, proved against a reference definition. It refuses closed assessments. It promotes a `started` assessment to `in_progress`.
  - The chat handler chooses between the video branch and the text branch.
- **`RomCapture`** (`rom_capture.dfy`): the bookkeeping of the capture screen. It covers:
  - which socket message is kept;
  - the measurement, with zero defaults;
  - the countdown;
  - the effects of the end of the capture and of the connection timeout;
  - the init guard and the cleanup on step changes.
- **`Text`** (`text.dfy`) and **`Messages`** (`messages.dfy`): the string built-ins the rules use (`toLowerCase`, `includes`, `trim() === ""`, decimal rendering) and the values passed between the parts.

## How callbacks are modelled

Each callback of the client runs as a single atomic method on the current state. This covers replies, failures, timers that fire, transcripts and step changes.

- A method that would call the backend does not make the call. It returns the request it would send.
- The reply or the failure arrives later through a method of its own.
- A timer or spoken prompt that follows is returned as a value (`ChatFollowUp`, `FailureOutcome`, the `RomEffect` lists).

Each class has a ghost `State()` snapshot and an invariant `ValidState` on that snapshot. Every method keeps the invariant and states its whole new state in terms of the old one.

The source tests many fields as JavaScript "truthy" values. Here a missing string field is `""`, and a missing id is `None` (the id `0` is falsy too; see `Session.IdPresent`).

## Behaviour of the code worth knowing

Each of these follows from the code as written, and the model follows the code.

- **Failed answers stay in the history.**
  - When the questionnaire call gives up after its last retry, the code tries to roll back the user turn it appended. The rollback is guarded by `retryCount === 0`, but that branch is reached only with `retryCount >= 3`, so the guard never holds.
  - So the failed turn stays in the history, and answering again manually appends a second copy (`Session.FailedAnswerRecordedTwice`).
  - This also means `Session.Session.OnAnswerFailure` leaves the history unchanged in every case.
- **The questionnaire screen cleans up one step late.** The cleanup of the step effect runs with the step being *left*.
  - Leaving step 19 for step 21 does not clear the processed-question ids or the init guard. They are cleared when a step outside 11–19 is left.
  - The same holds on the capture screen: the init guard is cleared when a step other than 21 is left, not when step 21 is left.
- **The countdown is never reset.** The timer is initialised to `VIDEO_DURATION` once and never set back.
  - A first capture runs five ticks.
  - A later entry to step 21, in the same page session, starts from the 0 the first capture left, so it ends on its first tick (`RomCapture.TicksToEndValue`).
- **The converted chat history never reaches the questionnaire call.** After the video, both paths append a body-part message to the chat history through a state update. The two handover timers then read everything from the closure of the chat call.
  - The first timer converts the chat history that closure saw, which does not hold the new message. The success path adds its own copy of the body-part message, so the converted history ends with exactly one body-part turn (`Session.HandoverAddsBodyPartOnce`). The fallback path converts the history as it is, so it lacks the fallback message (`Session.FallbackHandoverLacksBodyPart`).
  - The second timer, one or two seconds later, sends the opener through the `sendAnswerToAPI` of that same closure. That function appends the opener to the questionnaire history *it* saw, from before the conversion, and stores the result. So the converted history is replaced, and the opener request carries no converted turn (`Session.HandoverOpenerReplacesConversion`).
  - Repeated body-part messages, if a history carries them, are collapsed by the backend cleaning (`AssessmentHandler.RunCollapsesToFirst`).
- **Empty transcripts and ready answers.**
  - In the view's `handleVoiceAnswer`, an empty transcript is contained in every option, so it selects the first option of a question that has options (`QuestionView.EmptyTranscriptPicksFirstOption`). A matched option that is itself empty is falsy, so the transcript is answered instead. Nothing calls `handleVoiceAnswer`, and the session's routing drops a blank transcript before it reaches the questionnaire.
  - The third readiness phrase, "i am ready", adds nothing to the test for "ready" (`Session.ReadyPhraseRedundant`).
- **A question without a timestamp gets a new id each time.** Its id uses the current time in place of the timestamp, so the processed-id set does not hold back such a question when it arrives again (`QuestionView.RedeliveryIds`). The session always stamps its questions.

## Model

Source paths are relative to the repository root.

| member | source | states |
|---|---|---|
| Session.ChatToQnaFormat | frontend/src/app-google-speech.js:47-58 | the questionnaire history has at most as many turns as the chat history has entries, and no turn with an empty or blank user text |
| Session.ChatToQnaFormatAppend | frontend/src/app-google-speech.js:51-54 | converting a concatenation converts each part in order: the conversion keeps the input order |
| Session.ChatToQnaFormatEntry | frontend/src/app-google-speech.js:51-54 | wherever an entry stands, it is dropped exactly when its user text is blank, and otherwise becomes `{user, response or else assistant or else ""}` in place |
| Session.ChatToQnaFormatKeepsAll | frontend/src/app-google-speech.js:51-54 | a chat history without blank user texts keeps every entry, position by position |
| Session.IsRomTrigger | frontend/src/app-google-speech.js:161-163 | a question is a movement prompt exactly when its lower-cased text contains both "video" and "move" |
| Session.IsReadyAnswer | frontend/src/app-google-speech.js:314-316 | an answer signals readiness exactly when its lower-cased text contains "ready", "yes" or "i am ready" |
| Session.ReadyPhraseRedundant | frontend/src/app-google-speech.js:314-316 | the readiness test holds exactly when the lower-cased answer contains "ready" or "yes"; "i am ready" adds nothing |
| Session.QuestionText | frontend/src/app-google-speech.js:232 | the question text taken from a reply (question, else response, else "Please continue...") is never empty |
| Session.ActionDirective | frontend/src/app-google-speech.js:280-293 | `rom_api` enters the capture, `dashboard_api` the dashboard, and `complete`/`end_questionnaire` complete in place, each exactly for its own action; exactly these four actions mark the questionnaire complete, any other keeps asking |
| Session.StepAfter | frontend/src/app-google-speech.js:280-293 | from any step up to the capture, no directive moves the flow backwards; completing in place and asking on keep the step |
| Session.FlagAfterAttempt | frontend/src/app-google-speech.js:348-353 | the in-flight flag survives an attempt only when it was set and the attempt was a retry below 3; attempts 0 and 3 clear it |
| Session.WithLastAssistant | frontend/src/app-google-speech.js:260-266 | the history keeps its length and all but its last turn; the last turn keeps its user text and receives the question as its assistant text |
| Session.WithLastResponse | frontend/src/app-google-speech.js:462-468 | the chat history keeps its length and all but its last entry, whose response becomes the reply's |
| Session.FailureDecision | frontend/src/app-google-speech.js:299-328 | a failure schedules retry n+1 after 2000 ms exactly when n < 3; after that, step 21 is forced after 2000 ms exactly when the question text contains "video" and "move" and the answer signals readiness; otherwise the session gives up |
| Session.FailureChainBounded | frontend/src/app-google-speech.js:300-308 | every chain of failed attempts of one answer is numbered 0, 1, 2, …, and has at most 4 attempts |
| Session.Rollback | frontend/src/app-google-speech.js:335-341 | on a first attempt with a non-empty history exactly the last turn is removed; otherwise the history is kept |
| Session.RouteTranscript | frontend/src/app-google-speech.js:545-566 | a blank transcript goes nowhere; steps 11–19 go to the questionnaire whether or not it is complete, steps below 11 to chat, and later steps are dropped (each as an if-and-only-if) |
| Session.Session.SendAnswer | frontend/src/app-google-speech.js:160-213 | no call and no change exactly under the three guards (first attempt while in flight, opener during the transition, no id); a first attempt raises the flag and sets the history to the one its closure saw plus one `{answer, ""}` turn; a retry changes nothing and sends the history its closure saw; the request carries that history, the attempt number, the id and whether the shown question was a movement prompt |
| Session.Session.OnAnswerReply | frontend/src/app-google-speech.js:219-354 | a failed reply only runs the `finally` rule (the flag is cleared after attempts 0 and 3); a repeated question text only clears the flag; a new text is applied by ShowQuestion and then the `finally` rule runs |
| Session.Session.ShowQuestion | frontend/src/app-google-speech.js:247-293 | the text becomes the last processed question and the displayed question (stamped with the clock), fills the last turn, and the action sets the step and the completion flag as ActionDirective says; nothing else changes |
| Session.Session.OnAnswerFailure | frontend/src/app-google-speech.js:295-354 | the outcome is FailureDecision's; the only change is the `finally` rule on the flag, so the questionnaire history keeps the failed turn |
| Session.Session.OnForcedRomTimer | frontend/src/app-google-speech.js:321-325 | the forced move marks the questionnaire complete, sets step 21 and clears the flag |
| Session.Session.SendChat | frontend/src/app-google-speech.js:365-390 | a text turn appends one `{user: message}` entry and sends the new history; a video turn appends nothing and sends the history with the video |
| Session.Session.OnChatReply | frontend/src/app-google-speech.js:397-483 | after the video, one body-part message is added to the chat history, the transition flags are set and `restart`/`next_api` move to step 11 with the handover, which will convert the history the chat call saw plus one body-part message and then send the opener on the questionnaire history at the reply; after a text turn, the response fills the last entry, `camera_on` starts the countdown, `next_api` moves to step 11, and other actions resume listening in the chat phase |
| Session.Session.OnChatFailure | frontend/src/app-google-speech.js:485-529 | a failed video turn still adds one (fallback) body-part message to the chat history and moves to step 11 with the handover, which will convert the history the chat call saw, without that message, and then send the opener on the questionnaire history at the failure; a failed text turn only resumes listening after 2000 ms |
| Session.Session.OnHandoverConvert | frontend/src/app-google-speech.js:439-444 | the questionnaire history becomes the conversion of the history the handover timer holds, and nothing else changes (the fallback path at lines 508-510 does the same) |
| Session.HandoverAddsBodyPartOnce | frontend/src/app-google-speech.js:421-444 | the success-path conversion yields the converted captured history followed by exactly one body-part turn |
| Session.ChatToQnaFormatUsers | frontend/src/app-google-speech.js:47-58 | the conversion invents no user text: a user text no chat entry has appears in no turn |
| Session.FallbackHandoverLacksBodyPart | frontend/src/app-google-speech.js:503-510 | when the captured history has no body-part message, the fallback conversion has no body-part turn, and the fallback message is not among the entries converted |
| Session.HandoverOpenerReplacesConversion | frontend/src/app-google-speech.js:439-456 | the two handover timers in a row leave the questionnaire history, and the opener request, as the history the chat call saw plus the opener turn: the converted history is overwritten |
| Session.Session.OnHandoverInit | frontend/src/app-google-speech.js:447-456 | the transition ends; on the first handover the guard is set and the opener is sent exactly when no call is in flight and an id is present, which sets the history to the one the chat call saw plus one opener turn and raises the in-flight flag; every other field is unchanged, and a later handover only ends the transition (the fallback path repeats this at lines 512-518) |
| Session.Session.OnCameraCountdownDone | frontend/src/app-google-speech.js:119-125 | the countdown after `camera_on` ends at step 8 |
| Session.Session.HandleTranscript | frontend/src/app-google-speech.js:545-566 | the transcript is dispatched as RouteTranscript says: to SendAnswer (with its guards), whose request is the transcript as a first attempt with the history plus its turn and the id; to SendChat; dropped; or not understood; each with the matching change of state |
| Session.Session.OnAssessmentCreated | frontend/src/app-google-speech.js:655-661 | on success the id is stored, the session is started and "Hello" is sent as the first chat turn; on failure nothing changes |
| Session.Session.SendPainPointVideo | frontend/src/app-google-speech.js:697-707 | a video chat turn is sent exactly when the video is non-empty and an id is present; the state is unchanged |
| Session.Session.Advance | frontend/src/app-google-speech.js:776 | the step advances by one and nothing else changes |
| Session.Session.Reset | frontend/src/app-google-speech.js:722-748 | step 0, empty histories, no id, no question, no body part, all four guards cleared, not started; the completion flag is kept |
| Session.Session.constructor | frontend/src/app-google-speech.js:13-34 | the initial state of the session, which satisfies the invariant |
| Session.RapidAnswersSendOnce | frontend/src/app-google-speech.js:172-205 | of two answers in quick succession only the first is sent, and the history gains exactly one turn |
| Session.FailedAnswerRecordedTwice | frontend/src/app-google-speech.js:172-353 | an answer whose first attempt and three retries all fail stays in the history, and answering it again by hand records it a second time |
| QuestionView.FirstMatch | frontend/src/core/components/AiQus.js:252-255 | the position of the first option, in list order, that contains the transcript or is contained in it (both lower-cased); none exactly when no option matches |
| QuestionView.VoiceAnswerText | frontend/src/core/components/AiQus.js:250-268 | the answer is the first matching option when it is non-empty; when the first match is the empty option, when no option matches, or when the question has no options, it is the transcript (the function has no caller in the view) |
| QuestionView.VoiceAnswerIsOptionOrTranscript | frontend/src/core/components/AiQus.js:250-268 | a voice answer is always the transcript or one of the question's options (of `handleVoiceAnswer`, which has no caller) |
| QuestionView.VoiceAnswerEmptyOnlyForEmptyTranscript | frontend/src/core/components/AiQus.js:257-264 | a voice answer is empty only when the transcript was: a matched empty option is never the answer |
| QuestionView.EmptyTranscriptPicksFirstOption | frontend/src/core/components/AiQus.js:252-264 | an empty transcript gives the first option (the transcript itself, "", when that option is empty); of `handleVoiceAnswer`, which has no caller |
| QuestionView.LastSeparator | frontend/src/core/components/AiQus.js:326 | in an id `text_timestamp`, the underscore after the text is followed by digits only |
| QuestionView.QuestionId | frontend/src/core/components/AiQus.js:326 | an id starts with the question text followed by an underscore and at least one more character |
| QuestionView.IdOf | frontend/src/core/components/AiQus.js:326 | the id of an incoming question is QuestionId of its text (question, else response) and its timestamp, the clock standing in for a missing one |
| QuestionView.QuestionIdInjective | frontend/src/core/components/AiQus.js:326 | equal ids mean equal question texts and equal timestamps |
| QuestionView.RedeliveryIds | frontend/src/core/components/AiQus.js:326 | a question keeps its id when it carries a timestamp, and gets a different id at a different instant when it does not |
| QuestionView.QuestionView.HandleAnswer | frontend/src/core/components/AiQus.js:188-222 | an answer is accepted exactly when no answer is processed, the assistant is silent and a question is shown; a rejected answer changes nothing; an accepted one is remembered, sets the busy flag and the current answer, stops listening and appends exactly one `{question, answer}` item |
| QuestionView.QuestionView.OnSendError | frontend/src/core/components/AiQus.js:234-239 | a failed send clears the busy flag and the current answer |
| QuestionView.QuestionView.HandleVoiceAnswer | frontend/src/core/components/AiQus.js:242-269 | under the same guards, the answer sent is VoiceAnswerText of the shown question's options and the transcript; nothing in the view calls `handleVoiceAnswer`, and spoken answers reach the session through Session.Session.HandleTranscript instead |
| QuestionView.QuestionView.HandleOptionClick | frontend/src/core/components/AiQus.js:271-277 | under the same guards, the clicked option is the answer |
| QuestionView.QuestionView.OnNextQuestion | frontend/src/core/components/AiQus.js:322-341 | a question is accepted exactly when its id is unseen; a seen id changes nothing; an accepted one adds its id, becomes the current question and clears the answer and the busy flag |
| QuestionView.QuestionView.StartListening | frontend/src/core/components/AiQus.js:130-147 | listening is refused, with no change, exactly when the microphone is off or the assistant speaks; otherwise listening starts with a 5000 ms auto-stop |
| QuestionView.QuestionView.StopListening | frontend/src/core/components/AiQus.js:167-186 | listening ends and nothing else changes |
| QuestionView.QuestionView.SyncListening | frontend/src/core/components/AiQus.js:344-348 | the listening flag mirrors the parent's |
| QuestionView.QuestionView.ToggleMic | frontend/src/core/components/AiQus.js:113-128 | listening stops and the microphone flag flips |
| QuestionView.QuestionView.Init | frontend/src/core/components/AiQus.js:34-42 | media is requested exactly when the guard was clear, and the guard is set |
| QuestionView.QuestionView.OnMediaError | frontend/src/core/components/AiQus.js:64-71 | a denied or missing device disables the microphone; nothing else changes |
| QuestionView.QuestionView.StepChanged | frontend/src/core/components/AiQus.js:300-320 | leaving a step outside 11–19 stops listening and clears the init guard, the processed ids and the last answer; entering step 11 with the guard clear runs Init |
| QuestionView.QuestionView.constructor | frontend/src/core/components/AiQus.js:10-27 | the initial state of the view, which satisfies the invariant |
| QuestionView.RedeliveredQuestionShownOnce | frontend/src/core/components/AiQus.js:322-341 | a stamped question delivered twice is accepted once and ignored the second time |
| AssessmentHandler.CleanHistory | backend/internal/api/handlers/assessment.go:256-273 | the loop computes the reference cleaning Cleaned of the history |
| AssessmentHandler.CleanedLast | backend/internal/api/handlers/assessment.go:260-271 | the cleaned history of a non-empty history is non-empty and ends in a body-part message exactly when the input does |
| AssessmentHandler.CleanedHasNoAdjacentBodyParts | backend/internal/api/handlers/assessment.go:256-271 | no two adjacent messages of the cleaned history are both body-part messages |
| AssessmentHandler.CleanedIsSubsequence | backend/internal/api/handlers/assessment.go:260-270 | the cleaned history is an order-preserving subsequence of the input |
| AssessmentHandler.CleanedKeepsNonBodyParts | backend/internal/api/handlers/assessment.go:260-270 | the cleaning removes only body-part messages: the other messages are all kept, in order |
| AssessmentHandler.RunCollapsesToFirst | backend/internal/api/handlers/assessment.go:257-271 | a maximal run of consecutive body-part messages collapses to its first element |
| AssessmentHandler.CleanedFixesClean | backend/internal/api/handlers/assessment.go:257-273 | a history without adjacent body-part messages is left unchanged |
| AssessmentHandler.CleanedIdempotent | backend/internal/api/handlers/assessment.go:257-273 | cleaning twice equals cleaning once, and a history is left unchanged exactly when it has no adjacent body-part pair |
| AssessmentHandler.SendQuestionsToAI | backend/internal/api/handlers/assessment.go:234-335 | 400 for an unreadable payload or an unparsable id, 404 for a missing assessment, 400 "Assessment is already …" for a completed or abandoned one; the AI is asked, with the cleaned history, exactly when none of these apply; its failure gives 500 with the two messages; success iff code 200 iff the AI answered; promotion to in_progress exactly on success with an "action" key while the status is "started" |
| AssessmentHandler.SendChatToAI | backend/internal/api/handlers/assessment.go:61-138 | the video branch is taken exactly when the video is non-empty, the text branch otherwise; an unreadable payload gives 400; 200, with the AI's data, exactly when the id parses, the assessment exists and the branch's AI call succeeds |
| RomCapture.AfterMessagesKeepsNewest | frontend/src/core/components/AiRomMain.js:95-110 | after a run of messages the kept frame is that of the newest message carrying ROM data, or the earlier one if there is none |
| RomCapture.AfterMessage | frontend/src/core/components/AiRomMain.js:97-105 | an empty, "pong", unparsable or ROM-less message keeps the kept frame; a parsed one with `rom_data` replaces it |
| RomCapture.MeasurementOf | frontend/src/core/components/AiRomMain.js:213-242 | `{ROM[0] or 0, ROM[1] or 0}` when the kept frame has ROM data, and `{0, 0}` without a frame, without ROM data or without ROM |
| RomCapture.TickValue | frontend/src/core/components/AiRomMain.js:296-304 | a tick never makes a non-negative value negative, and decreases every positive value |
| RomCapture.TicksToEndValue | frontend/src/core/components/AiRomMain.js:295-305 | a countdown from t runs t ticks (one from a value of at most 1): five from VIDEO_DURATION, one after a finished capture |
| RomCapture.TimerEndMovesOnOnce | frontend/src/core/components/AiRomMain.js:204-264 | the end of the capture calls `next` exactly once, last, on the success and on the error path, and saves the measurement of the kept frame |
| RomCapture.TimerEndEffects | frontend/src/core/components/AiRomMain.js:204-264 | the end of the capture first stops streaming and saves the measurement of the kept frame, closes the socket and stops the camera exactly when they exist and saving did not throw, and ends with `next` |
| RomCapture.RomCapture.OnMessage | frontend/src/core/components/AiRomMain.js:95-110 | only a parsed message (not empty, not "pong") that carries ROM data replaces the kept frame |
| RomCapture.RomCapture.TimerTick | frontend/src/core/components/AiRomMain.js:295-305 | a tick above 1 drops the timer by one; a tick at 1 or below sets 0, stops the interval and returns the effects of the end of the capture |
| RomCapture.RomCapture.OnTimerEnd | frontend/src/core/components/AiRomMain.js:204-264 | streaming stops, the measurement is saved, the socket and the camera are released unless saving threw, and `next` follows |
| RomCapture.RomCapture.Init | frontend/src/core/components/AiRomMain.js:24-32 | the camera is requested exactly when the guard was clear, and the guard is set |
| RomCapture.RomCapture.OnVideoReady | frontend/src/core/components/AiRomMain.js:45-131 | the camera is attached; a socket is created and the 10 s connection timeout is pending, or, when creating the socket throws, no timeout is set and handleError stops streaming, closes any earlier socket, stops the camera and moves on after 3000 ms |
| RomCapture.RomCapture.OnSocketOpen | frontend/src/core/components/AiRomMain.js:71-79 | the socket is open and the pending connection timeout is cleared |
| RomCapture.RomCapture.OnSocketClose | frontend/src/core/components/AiRomMain.js:89-93 | the socket is closed and streaming stops |
| RomCapture.RomCapture.StartStreaming | frontend/src/core/components/AiRomMain.js:135-174 | streaming starts exactly when there is a socket and an attached camera stream |
| RomCapture.RomCapture.OnConnectionTimeout | frontend/src/core/components/AiRomMain.js:118-125 | a cleared timeout does not fire; a pending one that finds the socket open only stops pending; one that finds it not open, or gone, stops streaming, closes the socket, stops the camera, and `next` follows after 3000 ms |
| RomCapture.RomCapture.HandleError | frontend/src/core/components/AiRomMain.js:186-201 | streaming stops, the socket is closed and the camera stopped when present, and `next` follows after 3000 ms |
| RomCapture.RomCapture.StepChanged | frontend/src/core/components/AiRomMain.js:291-354 | the countdown interval is always cleared; leaving a step other than 21 clears the guard and the connection timeout and releases streaming, socket and camera; entering step 21 restarts the countdown from the timer's current value and runs Init; the timer value never changes here |
| RomCapture.NeverOpenedSocketMovesOnTwice | frontend/src/core/components/AiRomMain.js:118-125 | when the socket never opens, the countdown moves on at its end and the connection timeout, which the move to step 22 does not clear, moves on a second time |
| RomCapture.RomCapture.constructor | frontend/src/core/components/AiRomMain.js:10-21 | the initial state, with the timer at VIDEO_DURATION, which satisfies the invariant |

## Left out

- Media plumbing is not modelled: MediaRecorder, getUserMedia, camera and microphone tracks, audio analysis, frame encoding. Only their observable effects (listening on or off, camera present, effects list) are.
- Remote services are parameters: speech-to-text, text-to-speech, the AI and chat HTTP calls, assessment creation, the analysis socket, `saveRomData`. Their answers come in as arguments; the unseen Go services (`helpers.StringToUInt32`, `services.*`, gin binding) are replaced by the values they would return.
- Timers and async interleavings: each callback is one atomic step on the current state. React's stale closures are modelled only for the handover conversion, which converts the history the chat call saw. The questionnaire call takes the history its closure saw as a parameter, so the handover's opener is sent on the captured history. Elsewhere a handler reads the current state, which is not always what the client does.
- Session.Session.OnChatReply: when text-to-speech fails, the client falls back to the browser's speech, which never starts the step-8 camera countdown; the model returns CameraCountdown for every successful `camera_on` text reply, because the speech service's outcome is not modelled.
- Session.Session.OnAnswerReply: awaiting the spoken question before the action is applied is collapsed into the same step.
- Status lines, display text, the `stage` label, the analyser flag and rendering are not modelled.
- Text.Lower: lower-casing covers the ASCII letters only.
- Text.IsWhitespace: the Unicode space separators beyond U+00A0 are not listed.
- QuestionView.QuestionView.HandleAnswer: the check "same answer as last time while processing" is not modelled, because it follows the guard that already rejects any answer while processing and so can never apply.
- QuestionView.QuestionView.StartListening: the local-recorder branch is not modelled, because the session always supplies `onStartListening`.
- QuestionView.QuestionView.StopListening: the local-recorder branch is not modelled, because the session always supplies `onStopListening`.
- QuestionView: the error-message auto-clear and the camera toggle only touch display state.
- RomCapture.RomCapture.OnSocketOpen: the delayed start of streaming is not modelled. It is gated by the video-ready flag the `onopen` closure captured. That flag is the initial `false`, because it is set only after the render that created the closure, and `startStreaming` has no other caller. So as written, a capture sends no frame, and unless the analysis server sends ROM data unprompted, the measurement saved is `{0, 0}`. The model lets StartStreaming be called, to state its guards.
- RomCapture.RomCapture.StartStreaming: the code tests the video element, which exists whenever the screen is shown; the model tests the attached camera stream, which keeps the invariant that streaming needs a camera.
- RomCapture: the socket status label and the error text are display state and are not modelled. The video-ready flag is not modelled either; what it gates is the delayed start of streaming, left out in the line above.
- ROM angles are integers; floating-point values are out of scope.
- The session's `handleSpeechToText` error path (the speech service throws) is not modelled; it only sets a status and resumes listening.
- The other backend handlers of the file (creating, reading and updating assessments) are not part of this model.
- The remaining files are not part of this model: the pain-video recorder (`AiVideo.js`), the route table, the service-account script and the React bootstrap.
