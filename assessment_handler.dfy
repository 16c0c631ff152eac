/** The two assessment handlers of the Go backend that the browser drives:
    the questionnaire turn (history cleaning, status gate, status promotion)
    and the chat turn (video or text branch). The services they call (id
    parsing, the assessment store, the AI model) are not part of this model:
    their answers are parameters, and each reply records whether the AI was
    consulted at all. */
module AssessmentHandler {
  import opened Messages

  /** services.QuestionMessage: the handler reads only `User`; the assistant
      side travels along unchanged. */
  datatype QuestionMessage = QuestionMessage(user: string, assistant: string)

  /** The synthetic turn the browser records after the pain-location video. */
  const BodyPartText: string := "User has shown body part on video"

  predicate IsBodyPart(m: QuestionMessage) {
    m.user == BodyPartText
  }

  // ---------------------------------------------------------------------
  // Cleaning the questionnaire history
  // ---------------------------------------------------------------------

  /** Message i survives the cleaning unless it and the message before it are
      both body-part messages. */
  predicate KeptAt(h: seq<QuestionMessage>, i: nat)
    requires i < |h|
  {
    !(IsBodyPart(h[i]) && i > 0 && IsBodyPart(h[i - 1]))
  }

  /** Reference definition of the cleaned history: the messages of h that
      KeptAt keeps, in their order. */
  function Cleaned(h: seq<QuestionMessage>): seq<QuestionMessage>
  {
    if h == [] then [] else Cleaned(h[..|h| - 1]) + (if KeptAt(h, |h| - 1) then [h[|h| - 1]] else [])
  }

  /** The cleaning loop: append each message unless it is a body-part message
      directly following another one (the flag remembers whether the last
      message looked at was a body-part message, kept or not). */
  method CleanHistory(history: seq<QuestionMessage>) returns (cleaned: seq<QuestionMessage>)
    ensures cleaned == Cleaned(history)
  {
    cleaned := [];
    var lastWasBodyPart := false;
    var i := 0;
    while i < |history|
      invariant 0 <= i <= |history|
      invariant cleaned == Cleaned(history[..i])
      invariant lastWasBodyPart == (i > 0 && IsBodyPart(history[i - 1]))
    {
      var msg := history[i];
      var isBodyPart := IsBodyPart(msg);
      assert history[..i + 1][..i] == history[..i];
      if isBodyPart && lastWasBodyPart {
        i := i + 1;
        continue;
      }
      cleaned := cleaned + [msg];
      lastWasBodyPart := isBodyPart;
      i := i + 1;
    }
    assert history[..i] == history;
  }

  ghost predicate NoAdjacentBodyParts(s: seq<QuestionMessage>) {
    forall j :: 0 < j < |s| ==> !(IsBodyPart(s[j - 1]) && IsBodyPart(s[j]))
  }

  /** The messages of s that are not body-part messages, in order. */
  function NonBodyParts(s: seq<QuestionMessage>): seq<QuestionMessage>
  {
    if s == [] then [] else NonBodyParts(s[..|s| - 1]) + (if IsBodyPart(s[|s| - 1]) then [] else [s[|s| - 1]])
  }

  /** a can be obtained from b by deleting elements. */
  ghost predicate IsSubsequence<T>(a: seq<T>, b: seq<T>)
    decreases |b|
  {
    a == [] ||
    (b != [] &&
      ((a[|a| - 1] == b[|b| - 1] && IsSubsequence(a[..|a| - 1], b[..|b| - 1])) ||
       IsSubsequence(a, b[..|b| - 1])))
  }

  /** The cleaned history ends with a body-part message exactly when the
      input does. */
  lemma {:induction false} CleanedLast(h: seq<QuestionMessage>)
    requires h != []
    ensures Cleaned(h) != []
    ensures IsBodyPart(Cleaned(h)[|Cleaned(h)| - 1]) == IsBodyPart(h[|h| - 1])
  {
    var p := h[..|h| - 1];
    if !KeptAt(h, |h| - 1) {
      assert p[|p| - 1] == h[|h| - 2];
      CleanedLast(p);
    }
  }

  /** No two adjacent messages of the cleaned history are both body-part
      messages. */
  lemma {:induction false} CleanedHasNoAdjacentBodyParts(h: seq<QuestionMessage>)
    ensures NoAdjacentBodyParts(Cleaned(h))
  {
    if h != [] {
      var p := h[..|h| - 1];
      CleanedHasNoAdjacentBodyParts(p);
      if KeptAt(h, |h| - 1) && p != [] && IsBodyPart(h[|h| - 1]) {
        CleanedLast(p);
        assert p[|p| - 1] == h[|h| - 2];
      }
    }
  }

  /** The cleaned history is an order-preserving subsequence of the input. */
  lemma {:induction false} CleanedIsSubsequence(h: seq<QuestionMessage>)
    ensures IsSubsequence(Cleaned(h), h)
  {
    if h != [] {
      var p := h[..|h| - 1];
      CleanedIsSubsequence(p);
      var c := Cleaned(h);
      assert h[..|h| - 1] == p;
      if KeptAt(h, |h| - 1) {
        assert c[..|c| - 1] == Cleaned(p) && c[|c| - 1] == h[|h| - 1];
      } else {
        assert c == Cleaned(p);
      }
    }
  }

  /** The cleaning keeps every message that is not a body-part message, in
      order; together with CleanedIsSubsequence, it removes only body-part
      messages. */
  lemma {:induction false} CleanedKeepsNonBodyParts(h: seq<QuestionMessage>)
    ensures NonBodyParts(Cleaned(h)) == NonBodyParts(h)
  {
    if h != [] {
      var p := h[..|h| - 1];
      CleanedKeepsNonBodyParts(p);
      var c := Cleaned(h);
      assert NonBodyParts(h) == NonBodyParts(p) + (if IsBodyPart(h[|h| - 1]) then [] else [h[|h| - 1]]);
      if KeptAt(h, |h| - 1) {
        assert c[..|c| - 1] == Cleaned(p) && c[|c| - 1] == h[|h| - 1];
      } else {
        assert c == Cleaned(p);
      }
    }
  }

  /** A maximal run h[i..j] of body-part messages (i is the start of the run)
      contributes exactly its first message to the cleaned history. */
  lemma {:induction false} RunCollapsesToFirst(h: seq<QuestionMessage>, i: nat, j: nat)
    requires i < j <= |h|
    requires i == 0 || !IsBodyPart(h[i - 1])
    requires forall k :: i <= k < j ==> IsBodyPart(h[k])
    ensures Cleaned(h[..j]) == Cleaned(h[..i]) + [h[i]]
    decreases j
  {
    var q := h[..j];
    assert q[..j - 1] == h[..j - 1];
    if j == i + 1 {
      assert KeptAt(q, j - 1);
    } else {
      assert !KeptAt(q, j - 1);
      RunCollapsesToFirst(h, i, j - 1);
    }
  }

  /** A history with no adjacent body-part pair is left unchanged. */
  lemma {:induction false} CleanedFixesClean(s: seq<QuestionMessage>)
    requires NoAdjacentBodyParts(s)
    ensures Cleaned(s) == s
  {
    if s != [] {
      var p := s[..|s| - 1];
      assert NoAdjacentBodyParts(p) by {
        forall j | 0 < j < |p| ensures !(IsBodyPart(p[j - 1]) && IsBodyPart(p[j])) {
          assert p[j - 1] == s[j - 1] && p[j] == s[j];
        }
      }
      CleanedFixesClean(p);
      assert KeptAt(s, |s| - 1);
    }
  }

  /** Cleaning is idempotent, and its fixed points are exactly the histories
      without an adjacent pair of body-part messages. */
  lemma CleanedIdempotent(h: seq<QuestionMessage>)
    ensures Cleaned(Cleaned(h)) == Cleaned(h)
    ensures Cleaned(h) == h <==> NoAdjacentBodyParts(h)
  {
    CleanedHasNoAdjacentBodyParts(h);
    CleanedFixesClean(Cleaned(h));
    if NoAdjacentBodyParts(h) {
      CleanedFixesClean(h);
    }
  }

  // ---------------------------------------------------------------------
  // The questionnaire handler
  // ---------------------------------------------------------------------

  /** The request body as the handler binds it: in the QuestionRequest shape,
      in the `{chat_history: [...]}` shape the browser sends, or neither. */
  datatype QuestionsBody =
    | QuestionRequestBody(history: seq<QuestionMessage>)
    | ChatHistoryBody(history: seq<QuestionMessage>)
    | UnreadableBody

  datatype Assessment = Assessment(id: nat, status: string)

  /** The `Data` of an AI reply: absent, a JSON object with these keys, or
      some other value. */
  datatype AiData = NoData | MapData(keys: set<string>) | OtherData

  datatype AiReply = AiSuccess(data: AiData) | AiError(error: string)

  /** What the handler sends back, and the effects it had on the way:
      whether it asked the AI (and with which history) and whether it asked
      the store to move the assessment to in_progress. */
  datatype QuestionsReply = QuestionsReply(
    code: nat,
    success: bool,
    message: string,
    aiCalled: bool,
    sentHistory: seq<QuestionMessage>,
    promoteToInProgress: bool)

  /** An assessment in one of these states accepts no further questionnaire turns. */
  predicate IsClosed(status: string) {
    status == "completed" || status == "abandoned"
  }

  predicate HasAction(d: AiData) {
    d.MapData? && "action" in d.keys
  }

  const UnavailableError: string := "failed to get a response from AI model"

  /** SendQuestionsToAIHandler with the id parser, the assessment store and
      the AI model as parameters (`stored` is what the store holds for the
      parsed id; `ai` is what the model would answer). */
  method SendQuestionsToAI(body: QuestionsBody, parsedId: Option<nat>, stored: Option<Assessment>, ai: AiReply)
    returns (r: QuestionsReply)
    ensures body.UnreadableBody? ==> r.code == 400 && r.message == "Invalid request payload"
    ensures !body.UnreadableBody? && parsedId.None? ==> r.code == 400
    ensures !body.UnreadableBody? && parsedId.Some? && stored.None? ==> r.code == 404
    ensures !body.UnreadableBody? && parsedId.Some? && stored.Some? && IsClosed(stored.value.status) ==>
              r.code == 400 && r.message == "Assessment is already " + stored.value.status
    ensures r.aiCalled <==>
              !body.UnreadableBody? && parsedId.Some? && stored.Some? && !IsClosed(stored.value.status)
    ensures r.aiCalled ==> r.sentHistory == Cleaned(body.history)
    ensures r.aiCalled && ai.AiError? ==>
              r.code == 500 &&
              r.message == (if ai.error == UnavailableError
                            then "AI service is temporarily unavailable. Please try again in a moment."
                            else "Error processing your question. Please try again.")
    ensures r.success <==> r.code == 200
    ensures r.success <==> r.aiCalled && ai.AiSuccess?
    ensures r.promoteToInProgress <==>
              r.aiCalled && ai.AiSuccess? && HasAction(ai.data) && stored.value.status == "started"
  {
    if body.UnreadableBody? {
      return QuestionsReply(400, false, "Invalid request payload", false, [], false);
    }
    var cleaned := CleanHistory(body.history);
    if parsedId.None? {
      return QuestionsReply(400, false, "", false, [], false);
    }
    if stored.None? {
      return QuestionsReply(404, false, "", false, [], false);
    }
    var assessment := stored.value;
    if assessment.status == "completed" || assessment.status == "abandoned" {
      return QuestionsReply(400, false, "Assessment is already " + assessment.status, false, [], false);
    }
    if ai.AiError? {
      var message := "Error processing your question. Please try again.";
      if ai.error == UnavailableError {
        message := "AI service is temporarily unavailable. Please try again in a moment.";
      }
      return QuestionsReply(500, false, message, true, cleaned, false);
    }
    var promote := false;
    if ai.data.MapData? && "action" in ai.data.keys {
      if assessment.status == "started" {
        promote := true;
      }
    }
    r := QuestionsReply(200, true, "", true, cleaned, promote);
  }

  // ---------------------------------------------------------------------
  // The chat handler
  // ---------------------------------------------------------------------

  /** services.ChatMessage; its fields are passed through untouched. */
  datatype ChatMessage = ChatMessage(user: string, response: string)

  datatype ChatBody = ChatBody(history: seq<ChatMessage>, video: string) | UnreadableChatBody

  datatype ChatPath = VideoPath | TextPath | NoPath

  datatype ChatReply = ChatReply(code: nat, path: ChatPath, data: AiData)

  /** SendChatToAIHandler: a non-empty `video` selects the video branch
      (body-part identification), anything else the text branch; both then
      run the same error ladder against their own AI call. */
  function SendChatToAI(body: ChatBody, parsedId: Option<nat>, stored: Option<Assessment>,
                        videoAi: AiReply, textAi: AiReply): (r: ChatReply)
    ensures r.path == VideoPath <==> body.ChatBody? && body.video != ""
    ensures r.path == TextPath <==> body.ChatBody? && body.video == ""
    ensures body.UnreadableChatBody? ==> r.code == 400
    ensures r.code == 200 <==>
              body.ChatBody? && parsedId.Some? && stored.Some? &&
              (if body.video != "" then videoAi else textAi).AiSuccess?
    ensures r.code == 200 ==> r.data == (if body.video != "" then videoAi else textAi).data
  {
    if body.UnreadableChatBody? then ChatReply(400, NoPath, NoData)
    else
      var path := if body.video != "" then VideoPath else TextPath;
      var ai := if body.video != "" then videoAi else textAi;
      if parsedId.None? || stored.None? then ChatReply(500, path, NoData)
      else if ai.AiError? then ChatReply(500, path, NoData)
      else ChatReply(200, path, ai.data)
  }
}
