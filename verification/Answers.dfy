/** The answers that the CLI builds from what a user types, and how the daemon reads them. */
module Answers {
  import opened GoText

  /** The content is the JSON value of a form, when there is one. */
  datatype Answer = Answer(action: Text, content: Option<Text>)

  datatype Action = Accept | Decline | Cancel

  /** mapElicitationAction; None is the unknown-action error. */
  function MapAction(action: Text): Option<Action> {
    if action == "accept" then Some(Accept)
    else if action == "decline" then Some(Decline)
    else if action == "cancel" || action == "" then Some(Cancel)
    else None
  }

  /**
    promptElicitation: `terminal` says whether stdin is one, `line` is what was
    read from it, and `parsed` is that line as JSON if it is valid JSON.
   */
  function PromptElicitation(terminal: bool, mode: Text, line: Text, parsed: Option<Text>): Answer {
    var reply := ToLower(TrimSpace(line));
    if !terminal then Answer("decline", None)
    else if mode == "url" then
      if reply == "y" || reply == "yes" then Answer("accept", None)
      else if reply == "c" || reply == "cancel" then Answer("cancel", None)
      else Answer("decline", None)
    else if reply == "decline" || reply == "" then Answer("decline", None)
    else if reply == "cancel" then Answer("cancel", None)
    else if parsed.None? then Answer("decline", None)
    else Answer("accept", parsed)
  }

  ghost predicate IsPromptAnswer(answer: Answer) {
    exists terminal, mode, line, parsed :: answer == PromptElicitation(terminal, mode, line, parsed)
  }

  /** Every answer the CLI can build is understood, and only an accept carries content. */
  lemma PromptAnswersAreUnderstood(answer: Answer)
    requires IsPromptAnswer(answer)
    ensures MapAction(answer.action).Some?
    ensures answer.content.Some? ==> MapAction(answer.action) == Some(Accept)
  {
  }

  /** The user said yes: in so many words, or by replying to a form with JSON. */
  predicate Accepts(terminal: bool, mode: Text, line: Text, parsed: Option<Text>) {
    var reply := ToLower(TrimSpace(line));
    terminal && if mode == "url" then reply in {"y", "yes"} else reply !in {"", "decline", "cancel"} && parsed.Some?
  }

  predicate Cancels(terminal: bool, mode: Text, line: Text) {
    var reply := ToLower(TrimSpace(line));
    terminal && if mode == "url" then reply in {"c", "cancel"} else reply == "cancel"
  }

  /** From what is typed to what upstream is told; a form that is accepted is sent as it was typed. */
  lemma UpstreamIsToldWhatWasTyped(terminal: bool, mode: Text, line: Text, parsed: Option<Text>)
    ensures
      var answer := PromptElicitation(terminal, mode, line, parsed);
      && MapAction(answer.action) == Some(if Accepts(terminal, mode, line, parsed) then Accept
                                          else if Cancels(terminal, mode, line) then Cancel
                                          else Decline)
      && answer.content == if Accepts(terminal, mode, line, parsed) && mode != "url" then parsed else None
  {
  }

  /** Different words are never taken for the same action, and no others are understood. */
  lemma ActionWordsAreApart(one: Text, other: Text)
    ensures MapAction(one).Some? <==> one in {"accept", "decline", "cancel", ""}
    ensures one != "" && other != "" && MapAction(one).Some? && MapAction(one) == MapAction(other) ==> one == other
  {
  }
}
