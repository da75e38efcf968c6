/** `get_ai_response`: ask the cached agent and turn every outcome, including
    a missing agent and an exception, into text for the user. */
module Answer {
  import opened Strings

  /** What asking the backend for one query comes to. `Raises` carries
      `str(e)` of whatever was raised inside the `try`: by `agent.run`, or by
      reading and stripping the reply's content. */
  datatype Backend =
    | NoAgent                   // get_agent() returned None
    | Raises(message: string)   // an exception escaped agent.run(query) or content.strip()
    | Replies(content: string)  // agent.run(query).content

  /** The words both fallback answers open with. */
  const APOLOGY: string := "Sorry, I"

  /** "Sorry, I'm having trouble connecting to my knowledge base right now." */
  const TROUBLE_CONNECTING: string :=
    APOLOGY + "'m having trouble connecting to my knowledge base right now."

  /** "Sorry, I encountered an error while processing your question: " */
  const ERROR_PREFIX: string :=
    APOLOGY + " encountered an error while processing your question: "

  /** The reply the app shows, speaks and records. It is defined for every
      outcome: the function never raises. */
  function GetAiResponse(outcome: Backend): (r: string)
    ensures outcome.NoAgent? ==> r == TROUBLE_CONNECTING
    ensures outcome.Raises? ==> |r| == |ERROR_PREFIX| + |outcome.message|
    ensures outcome.Raises? ==> r[..|ERROR_PREFIX|] == ERROR_PREFIX && r[|ERROR_PREFIX|..] == outcome.message
    ensures outcome.Replies? ==> r == [] || (!IsPySpace(r[0]) && !IsPySpace(r[|r| - 1]))
    ensures outcome.Replies? ==> (r == [] <==> forall k :: 0 <= k < |outcome.content| ==> IsPySpace(outcome.content[k]))
  {
    match outcome
    case NoAgent => TROUBLE_CONNECTING
    case Raises(message) => ERROR_PREFIX + message
    case Replies(content) => Trim(content, IsPySpace)
  }

  /** A fallback answer is never just the apology and always starts with it. */
  lemma FallbackApologises(outcome: Backend)
    requires !outcome.Replies?
    ensures |GetAiResponse(outcome)| > |APOLOGY|
    ensures GetAiResponse(outcome)[..|APOLOGY|] == APOLOGY
  {
    if outcome.Raises? {
      assert GetAiResponse(outcome)[..|APOLOGY|] == ERROR_PREFIX[..|APOLOGY|];
    }
  }

  /** A reply is the agent's own text with only its surrounding whitespace
      removed: a contiguous slice of the content, starting after its leading
      whitespace. */
  lemma ReplyIsSlice(content: string)
    ensures var r := GetAiResponse(Replies(content));
            var start := LeadingSpaces(content, IsPySpace);
            start + |r| <= |content| && r == content[start..start + |r|]
  {
  }

  /** What the reply leaves out of the content on either side is whitespace. */
  lemma ReplyDropsOnlySpace(content: string)
    ensures var r := GetAiResponse(Replies(content));
            var start := LeadingSpaces(content, IsPySpace);
            start + |r| <= |content|
            && (forall k :: 0 <= k < start ==> IsPySpace(content[k]))
            && (forall k :: start + |r| <= k < |content| ==> IsPySpace(content[k]))
  {
  }

  /** Stripping a reply once more leaves it as it is. */
  lemma ReplyIsStripped(outcome: Backend)
    requires outcome.Replies?
    ensures Trim(GetAiResponse(outcome), IsPySpace) == GetAiResponse(outcome)
  {
    TrimIdempotent(outcome.content, IsPySpace);
  }
}
