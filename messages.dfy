/** Values exchanged between the session, the questionnaire view and the
    backend. A JavaScript field that an object does not carry is the empty
    string here: every truthiness test on these fields treats `undefined` and
    `""` alike (both are falsy). The one reader that does not is the
    question id template, which renders a question with neither a question
    nor a response text as `undefined_<timestamp>`, where the model's id is
    `_<timestamp>`; the id of every question that has a text is the same. */
module Messages {

  datatype Option<T> = None | Some(value: T)

  /** One entry of the chat transcript: `{user}` for a typed or spoken turn,
      `{user, response}` once the reply is filled in or for the body-part
      message, `{user, assistant}` for entries already in questionnaire form. */
  datatype ChatEntry = ChatEntry(user: string, response: string, assistant: string)

  /** One turn of the questionnaire transcript, `{user, assistant}`. */
  datatype QnaTurn = QnaTurn(user: string, assistant: string)

  /** The question object the session hands to the questionnaire view: the
      backend's reply data with `question` replaced by the text actually shown
      and a `timestamp` (milliseconds; 0 stands for a missing one). */
  datatype Question = Question(
    question: string,
    response: string,
    options: Option<seq<string>>,
    action: string,
    timestamp: nat)
}
