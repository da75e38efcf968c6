/** The Streamlit side of one browser session: the session-state keys the app
    initialises, the `hey_bob_query` hand-off from the voice widget, the
    conversation history it appends to, the test buttons that bypass it, and
    the recent-conversations view with its clear button. */
module Session {
  import opened Strings
  import opened Answer
  import opened Speech
  import opened Transcript

  /** One history record: `{"user", "bob", "timestamp", "type"}`. The
      timestamp is whatever `time.strftime("%H:%M:%S")` gave. */
  datatype Entry = Entry(user: string, bob: string, timestamp: string, kind: string)

  /** The URL query parameter the voice widget sets. */
  const QUERY_KEY: string := "hey_bob_query"

  /** The prefix the history puts before a spoken query. */
  const VOICE_PREFIX: string := "Hey Bob, "

  /** The record appended for a voice query `q` answered with `response`. */
  function VoiceEntry(q: string, response: string, timestamp: string): Entry {
    Entry(VOICE_PREFIX + q, response, timestamp, "voice")
  }

  /** `st.query_params.get("hey_bob_query")` when it is truthy: present and non-empty. */
  function PendingQuery(params: map<string, string>): Option<string> {
    if QUERY_KEY in params && params[QUERY_KEY] != "" then Some(params[QUERY_KEY]) else None
  }

  /** The history after a run's voice step: one voice entry more when a query
      was pending, the same history otherwise. */
  function AfterVoice(history: seq<Entry>, params: map<string, string>,
                      answer: string -> Backend, timestamp: string): seq<Entry>
  {
    match PendingQuery(params)
    case None => history
    case Some(q) => history + [VoiceEntry(q, GetAiResponse(answer(q)), timestamp)]
  }

  /** The voice step appends exactly one entry, at the end, and leaves the
      earlier entries as they were; without a pending query it changes nothing. */
  lemma VoiceAppendsOne(history: seq<Entry>, params: map<string, string>,
                        answer: string -> Backend, timestamp: string)
    ensures PendingQuery(params).None? ==> AfterVoice(history, params, answer, timestamp) == history
    ensures PendingQuery(params).Some? ==>
              var after := AfterVoice(history, params, answer, timestamp);
              var q := params[QUERY_KEY];
              |after| == |history| + 1 && after[..|history|] == history
              && after[|history|] == Entry(VOICE_PREFIX + q, GetAiResponse(answer(q)), timestamp, "voice")
  {
  }

  /** The four quick-test buttons and the questions they ask. */
  datatype QuickTest = MathTest | KnowledgeTest | NewsTest | WeatherTest

  function QuickTestQuery(test: QuickTest): string {
    match test
    case MathTest => "What is 15 times 7?"
    case KnowledgeTest => "What is the capital of Japan?"
    case NewsTest => "What's in the news today?"
    case WeatherTest => "What's the weather like in New York?"
  }

  /** The question the "Test AI Agent Connection" button asks. */
  const AGENT_CHECK_QUERY: string := "Respond with exactly: 'AI agent working perfectly'"

  /** The widget, if any, whose click caused this run of the script. */
  datatype Click =
    | NoClick
    | TestClicked(manualInput: string)   // "Test", with the text box's content
    | QuickTestClicked(test: QuickTest)
    | AgentCheckClicked
    | ClearClicked

  /** What a test button puts on the page. */
  datatype Shown = Nothing | Reply(text: string) | AgentInitFailed

  /** What a click on a test button shows; none of them touches the history. */
  function ButtonReply(click: Click, answer: string -> Backend): (shown: Shown)
    ensures shown.Nothing? <==>
              click.NoClick? || click.ClearClicked? || (click.TestClicked? && click.manualInput == "")
    ensures shown.AgentInitFailed? <==> click.AgentCheckClicked? && answer(AGENT_CHECK_QUERY).NoAgent?
    ensures click.AgentCheckClicked? && !answer(AGENT_CHECK_QUERY).NoAgent? ==>
              shown == Reply(GetAiResponse(answer(AGENT_CHECK_QUERY)))
    ensures click.TestClicked? && click.manualInput != "" ==>
              shown == Reply(GetAiResponse(answer(click.manualInput)))
    ensures click.QuickTestClicked? ==>
              shown == Reply(GetAiResponse(answer(QuickTestQuery(click.test))))
  {
    match click
    case NoClick => Nothing
    case TestClicked(input) => if input != "" then Reply(GetAiResponse(answer(input))) else Nothing
    case QuickTestClicked(test) => Reply(GetAiResponse(answer(QuickTestQuery(test))))
    case AgentCheckClicked =>
      if answer(AGENT_CHECK_QUERY).NoAgent? then AgentInitFailed
      else Reply(GetAiResponse(answer(AGENT_CHECK_QUERY)))
    case ClearClicked => Nothing
  }

  /** `reversed(history[-5:])`: the reversal of a sequence. */
  function Reverse<T>(s: seq<T>): (r: seq<T>)
    ensures |r| == |s|
    ensures forall i :: 0 <= i < |s| ==> r[i] == s[|s| - 1 - i]
  {
    if s == [] then [] else Reverse(s[1..]) + [s[0]]
  }

  /** The "Recent Conversations" list: the five newest entries, newest first
      (all of them, newest first, when there are fewer). */
  function RecentConversations(history: seq<Entry>): (view: seq<Entry>)
    ensures |view| == if |history| < 5 then |history| else 5
    ensures forall i :: 0 <= i < |view| ==> view[i] == history[|history| - 1 - i]
  {
    var lastFive := if |history| < 5 then history else history[|history| - 5..];
    Reverse(lastFive)
  }

  /** What one run of the script shows: the answer to a pending voice query,
      the text handed to speech synthesis, and a test button's result. */
  datatype Output = Output(voiceReply: Option<string>, spoken: Option<string>, shown: Shown)

  /** `st.session_state` and `st.query_params` of one browser session. A key
      the app has not set yet is `None`. */
  class Session {
    var queryParams: map<string, string>
    var conversationHistory: Option<seq<Entry>>
    var assistantActive: Option<bool>
    var lastQuery: Option<string>

    /** A new browser session opened on a URL with the given query parameters. */
    constructor (params: map<string, string>)
      ensures queryParams == params
      ensures conversationHistory == None && assistantActive == None && lastQuery == None
    {
      queryParams := params;
      conversationHistory := None;
      assistantActive := None;
      lastQuery := None;
    }

    /** The history as the view reads it. */
    function History(): seq<Entry>
      reads this
    {
      if conversationHistory.Some? then conversationHistory.value else []
    }

    /** Each key is given its default only when it is absent; a present key
        keeps its value, so a rerun never loses the history. */
    method InitState()
      modifies this
      ensures conversationHistory == if old(conversationHistory).None? then Some([]) else old(conversationHistory)
      ensures assistantActive == if old(assistantActive).None? then Some(false) else old(assistantActive)
      ensures lastQuery == if old(lastQuery).None? then Some("") else old(lastQuery)
      ensures queryParams == old(queryParams)
      ensures History() == old(History())
    {
      if conversationHistory.None? {
        conversationHistory := Some([]);
      }
      if assistantActive.None? {
        assistantActive := Some(false);
      }
      if lastQuery.None? {
        lastQuery := Some("");
      }
    }

    /** The voice step: a pending `hey_bob_query` is cleared from the URL
        first, then answered, then recorded as exactly one voice entry at the
        end of the history; without one nothing changes. */
    method HandleVoiceQuery(answer: string -> Backend, timestamp: string)
      returns (voiceReply: Option<string>, spoken: Option<string>)
      requires conversationHistory.Some?
      modifies this
      ensures conversationHistory.Some?
      ensures History() == AfterVoice(old(History()), old(queryParams), answer, timestamp)
      ensures PendingQuery(old(queryParams)).None? ==> queryParams == old(queryParams)
      ensures PendingQuery(old(queryParams)).Some? ==> queryParams == map[]
      ensures PendingQuery(queryParams).None?
      ensures voiceReply == match PendingQuery(old(queryParams))
                            case None => None
                            case Some(q) => Some(GetAiResponse(answer(q)))
      ensures spoken == if voiceReply.Some? then Some(CleanResponse(voiceReply.value)) else None
      ensures assistantActive == old(assistantActive) && lastQuery == old(lastQuery)
    {
      voiceReply, spoken := None, None;
      var heyBobQuery := PendingQuery(queryParams);
      if heyBobQuery.Some? {
        var q := heyBobQuery.value;
        queryParams := map[];
        var aiResponse := GetAiResponse(answer(q));
        voiceReply := Some(aiResponse);
        conversationHistory := Some(conversationHistory.value + [VoiceEntry(q, aiResponse, timestamp)]);
        spoken := Some(CleanResponse(aiResponse));
      }
    }

    /** One run of `main()`: initialise the session state, handle a pending
        voice query, then react to the clicked widget. The test buttons only
        show a reply; the clear button, which the page offers only while the
        history is non-empty, empties the history and reruns the script. */
    method Run(click: Click, answer: string -> Backend, timestamp: string) returns (out: Output)
      modifies this
      decreases if click.ClearClicked? then 1 else 0
      ensures conversationHistory.Some?
      ensures var voiced := AfterVoice(old(History()), old(queryParams), answer, timestamp);
              History() == if click.ClearClicked? && voiced != [] then [] else voiced
      ensures PendingQuery(queryParams).None?
      ensures PendingQuery(old(queryParams)).None? ==> queryParams == old(queryParams)
      ensures PendingQuery(old(queryParams)).Some? ==> queryParams == map[]
      ensures assistantActive == if old(assistantActive).None? then Some(false) else old(assistantActive)
      ensures lastQuery == if old(lastQuery).None? then Some("") else old(lastQuery)
      ensures click.ClearClicked? && AfterVoice(old(History()), old(queryParams), answer, timestamp) != [] ==>
                out == Output(None, None, Nothing)
      ensures !(click.ClearClicked? && AfterVoice(old(History()), old(queryParams), answer, timestamp) != []) ==>
                out.shown == ButtonReply(click, answer)
      ensures !(click.ClearClicked? && AfterVoice(old(History()), old(queryParams), answer, timestamp) != []) ==>
                out.voiceReply == match PendingQuery(old(queryParams))
                                  case None => None
                                  case Some(q) => Some(GetAiResponse(answer(q)))
      ensures !(click.ClearClicked? && AfterVoice(old(History()), old(queryParams), answer, timestamp) != []) ==>
                out.spoken == if out.voiceReply.Some? then Some(CleanResponse(out.voiceReply.value)) else None
    {
      InitState();
      var voiceReply, spoken := HandleVoiceQuery(answer, timestamp);
      out := Output(voiceReply, spoken, ButtonReply(click, answer));
      if click.ClearClicked? && History() != [] {
        conversationHistory := Some([]);
        out := Run(NoClick, answer, timestamp);
      }
    }
  }

  /** A rerun of the same session after a voice query (a widget click, say)
      answers it once: the first run records it and clears the URL, so the
      next run, whatever is clicked short of clearing, adds nothing. */
  method RerunAnswersOnce(params: map<string, string>, answer: string -> Backend,
                          t1: string, t2: string, click: Click)
    returns (history: seq<Entry>)
    requires PendingQuery(params).Some?
    requires !click.ClearClicked?
    ensures history == [VoiceEntry(params[QUERY_KEY], GetAiResponse(answer(params[QUERY_KEY])), t1)]
  {
    var session := new Session(params);
    var first := session.Run(NoClick, answer, t1);
    var second := session.Run(click, answer, t2);
    history := session.History();
  }

  /** A browser reload after a voice query starts a new session on the URL
      the first run left behind. That URL no longer carries the query, so
      the new session answers nothing and records nothing, whatever is
      clicked. */
  method ReloadAnswersNothing(params: map<string, string>, answer: string -> Backend,
                              t1: string, t2: string, click: Click)
    returns (first: seq<Entry>, reloaded: seq<Entry>, reloadedReply: Option<string>)
    requires PendingQuery(params).Some?
    ensures first == [VoiceEntry(params[QUERY_KEY], GetAiResponse(answer(params[QUERY_KEY])), t1)]
    ensures reloaded == [] && reloadedReply == None
  {
    var session := new Session(params);
    var out := session.Run(NoClick, answer, t1);
    first := session.History();
    var next := new Session(session.queryParams);
    var reloadOut := next.Run(click, answer, t2);
    reloaded := next.History();
    reloadedReply := reloadOut.voiceReply;
  }

  /** Clearing empties the history, after which the view lists nothing and
      no query is pending (the run before it has answered and removed any). */
  method ClearEmptiesView(params: map<string, string>, answer: string -> Backend, timestamp: string)
    returns (view: seq<Entry>, pendingAfter: Option<string>)
    ensures view == []
    ensures pendingAfter == None
  {
    var session := new Session(params);
    var first := session.Run(NoClick, answer, timestamp);
    var second := session.Run(ClearClicked, answer, timestamp);
    view := RecentConversations(session.History());
    pendingAfter := PendingQuery(session.queryParams);
  }

  /** The whole voice path for one recognition event: the widget's result
      handler, the hand-off of the command through the URL (`handoff` is what
      arrives as `hey_bob_query`), and the next run of the script in a new
      session. Only a dispatched command can produce a history entry, and it
      produces exactly one. */
  method VoiceEventToHistory(results: seq<ResultPart>, resultIndex: nat, handoff: string -> string,
                             answer: string -> Backend, timestamp: string)
    returns (reaction: Reaction, history: seq<Entry>)
    ensures !reaction.Dispatch? ==> history == []
    ensures reaction.Dispatch? && handoff(reaction.command) != "" ==>
              history == [VoiceEntry(handoff(reaction.command),
                                     GetAiResponse(answer(handoff(reaction.command))), timestamp)]
    ensures reaction.Dispatch? <==>
              Joined(Pending(results, resultIndex), true) != ""
              && WakeWord.CheckWakeWord(Joined(Pending(results, resultIndex), true)).Some?
  {
    var finalTranscript, interimTranscript;
    finalTranscript, interimTranscript, reaction := OnResult(results, resultIndex);
    history := [];
    if reaction.Dispatch? {
      var session := new Session(map[QUERY_KEY := handoff(reaction.command)]);
      var out := session.Run(NoClick, answer, timestamp);
      history := session.History();
    }
  }
}
