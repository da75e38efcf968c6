# Hey Bob — a Dafny model of the voice assistant's core

"Hey Bob" is a Streamlit page. A script in the browser listens for speech and
finds a wake phrase ("hey bob", "hi bob", "hello bob", "bob") in the final
transcript. It then hands the command after the phrase back to the Python side
in the `hey_bob_query` URL parameter. On its next run the page clears the
URL's query parameters, asks an LLM agent for an answer, shows it and records it in the
session's conversation history. It also speaks a cleaned-up copy of the answer.
A text box and four quick-test buttons ask the agent directly without recording
anything. A history view lists the five newest exchanges and has a button that
clears them.

The model has one Dafny module per piece of that core:

- `Strings` (`strings.dfy`): the text primitives both sides rely on.
  - JavaScript `trim` and Python `strip`, each with its own whitespace class.
  - ASCII `toLowerCase`.
  - `includes`/`indexOf` as substring search.
- `WakeWord` (`wake_word.dfy`): `checkWakeWord`, written as a recursive scan
  over the phrase list. Its lemmas cover when the result is null, which phrase
  wins, and that a non-null result is never empty.
- `WakeWordExamples` (`wake_word_examples.dfy`): worked transcripts derived from
  those lemmas.
- `Transcript` (`transcript.dfy`): the `recognition.onresult` handler.
  - It is a `method` with the source's accumulation loop.
  - The loop is proved against `Joined`, a specification function that
    concatenates the parts with a given `isFinal` flag.
  - The handler then reacts to the final text only.
- `Answer` (`answer.dfy`): `get_ai_response`. The agent is an abstract outcome:
  no agent, an exception with its message, or a reply's content.
- `Speech` (`speech.dfy`): the five-step `str.replace` chain that produces the
  spoken text. It is proved equal to a one-pass character map, which gives
  the speakability, keep-the-rest and idempotence properties.
- `Session` (`session.dfy`): `st.session_state` and `st.query_params` as a
  `class`.
  - Its methods cover the key initialisation, the voice-query step and a whole
    script run (test buttons and clear-and-rerun included).
  - Client methods follow a rerun, a browser reload, a clear, and one
    recognition event end to end.

The agent is a parameter `answer: string -> Backend`. The history timestamp is
an opaque string parameter. The text that arrives as `hey_bob_query` for a
dispatched command is a parameter `handoff: string -> string`.

Four behaviours a reader might expect are not what the code does; the model
follows the code:

- The wake phrase is chosen by list order. The earliest phrase in the text does
  not win, so "bob, hey bob lights" yields "lights" (`ExampleListOrder`).
- An empty remainder after the phrase gives back the whole original text. There
  is no "Hello" placeholder, so "hey bob" yields "hey bob" (`ExampleOnlyWakeWord`).
- There is no busy gate and no event-id check. Clearing the query parameters is
  the only guard against processing a query twice (`RerunAnswersOnce`,
  `ReloadAnswersNothing`).
- Text-mode and test-button answers are never written to the history.

## Model

| member | source | states |
|---|---|---|
| Strings.IsJsSpace | code.py:207 | the characters `trim()` removes: ECMAScript WhiteSpace (tab, U+000B, U+000C, space, U+00A0, U+1680, U+2000-U+200A, U+202F, U+205F, U+3000, U+FEFF) and LineTerminator (newline, carriage return, U+2028, U+2029) |
| Strings.IsPySpace | code.py:69 | the characters `strip()` removes, Python's `str.isspace`: tab, newline, U+000B, U+000C, carriage return, U+001C-U+001F, space, U+0085, U+00A0, U+1680, U+2000-U+200A, U+2028, U+2029, U+202F, U+205F, U+3000 |
| Strings.LeadingSpaces | code.py:69 | the number of leading characters of the class: all of them are in it, and the next one is not |
| Strings.TrimEnd | code.py:207 | a prefix of the input; everything it drops is whitespace and its last character is not |
| Strings.Trim | code.py:207 | `trim()` here and, with `IsPySpace`, `strip()` at code.py:69: the slice after the leading whitespace, with only whitespace after it, neither end being whitespace, empty exactly when the input is all whitespace |
| Strings.TrimIdempotent | code.py:207 | trimming a trimmed string changes nothing |
| Strings.TrimUnspaced | code.py:207 | text with non-space ends is its own trim |
| Strings.TrimAfterSpace | code.py:207 | a leading space does not change the trim |
| Strings.TrimSpaceThen | code.py:207 | one space before text with non-space ends: the trim is that text |
| Strings.LowerChar | code.py:200 | ASCII lower-casing of one character: 'A'..'Z' shift by 32 into 'a'..'z', others are kept |
| Strings.Lower | code.py:200 | `toLowerCase` keeps the length, so indexes into the lower-cased text index the original |
| Strings.LowerAt | code.py:200 | lower-casing works position by position |
| Strings.LowerOfLower | code.py:200 | text without upper-case letters is unchanged by lower-casing |
| Strings.LowerPrefix | code.py:200 | text whose first characters lower-case one by one to `p` lower-cases to a text starting with `p` |
| Strings.Contains | code.py:204 | `includes`, defined as `indexOf` not being -1; `ContainsIff` states it as substring occurrence |
| Strings.IndexFrom | code.py:206 | -1 exactly when the pattern does not occur from `from` on; otherwise an occurrence with none before it |
| Strings.IndexOf | code.py:206 | `indexOf`: -1 when the pattern does not occur, otherwise its first occurrence |
| Strings.ContainsIff | code.py:204 | `includes` holds exactly when the pattern occurs at some index |
| WakeWord.CheckWakeWord | code.py:199-212 | the model of `checkWakeWord`; its behaviour is stated by `CheckWakeWordNull`, `CheckWakeWordListOrder` and `CheckWakeWordNonEmpty` |
| WakeWord.ScanFrom | code.py:203-211 | the `for … of` scan with early return; stated by `ScanFromNone` and `ScanFromFirst` |
| WakeWord.AfterFirst | code.py:206-208 | the command phrase `w` yields: `CommandAfter` at `IndexOf(lower, w) + |w|`, after the first occurrence of `w` in the lower-cased text; stated through `CheckWakeWordListOrder` |
| WakeWord.CommandAfter | code.py:207-208 | the command is the trimmed rest after the phrase, or the whole text when that rest is empty; never empty for non-empty text |
| WakeWord.CommandAfterRest | code.py:207-208 | when the trimmed rest after the phrase is not empty, it is the command |
| WakeWord.ScanFromNone | code.py:204-211 | the scan from phrase `k` on gives null exactly when none of those phrases occurs |
| WakeWord.CheckWakeWordNull | code.py:199-212 | `checkWakeWord` returns null exactly when no wake phrase occurs in the lower-cased text |
| WakeWord.ScanFromFirst | code.py:204-209 | the scan returns the command of the first phrase from `i` on that occurs |
| WakeWord.CheckWakeWordListOrder | code.py:202-208 | the first phrase in list order that occurs wins, located at its first occurrence, whatever occurs earlier in the text |
| WakeWord.FirstListedExists | code.py:203-204 | when any phrase occurs, a first one in list order exists |
| WakeWord.CheckWakeWordNonEmpty | code.py:208 | a non-null result is never the empty string |
| WakeWordExamples.MissingCharNotContained | code.py:204 | a phrase with a character the text lacks is not included in it |
| WakeWordExamples.NoLetterBNoWakeWord | code.py:199-212 | lower-case text without a 'b' has no wake phrase and gives null |
| WakeWordExamples.ExampleNoWakeWord | code.py:211 | "what time is it" gives null |
| WakeWordExamples.HeyBobFirst | code.py:200-208 | text whose lower-cased form starts with "hey bob" gives the command after index 7 |
| WakeWordExamples.HeyBobFirstLowerCase | code.py:200-208 | the same for text already in lower case that starts with "hey bob" |
| WakeWordExamples.QuestionAfterWakeWord | code.py:207 | the trimmed rest of "hey bob what is 2 plus 2" is "what is 2 plus 2" |
| WakeWordExamples.ExampleCommand | code.py:199-212 | "hey bob what is 2 plus 2" gives "what is 2 plus 2" |
| WakeWordExamples.ExampleOnlyWakeWord | code.py:208 | "hey bob" alone gives the whole text "hey bob" |
| WakeWordExamples.IndexOfHeyBob | code.py:206 | "hey bob" first occurs at index 5 of "bob, hey bob lights" |
| WakeWordExamples.LightsAfterWakeWord | code.py:207 | the trimmed rest after that occurrence is "lights" |
| WakeWordExamples.ExampleListOrder | code.py:202-208 | "bob" occurs at index 0 of "bob, hey bob lights", yet "hey bob" wins and the command is "lights" |
| WakeWordExamples.LightsAfterCapitalised | code.py:207 | the trimmed rest of "Hey Bob lights" after index 7 is "lights" |
| WakeWordExamples.ExampleCapitalised | code.py:200-208 | "Hey Bob lights" gives "lights": the phrase is found in any case and the command keeps the transcript's case |
| Transcript.JoinedAppend | code.py:258-265 | joining the parts distributes over concatenation of part lists |
| Transcript.InterimPartIgnored | code.py:260-264 | an interim part never reaches the final transcript; it lands, in place, in the interim one |
| Transcript.JoinedFromParts | code.py:260-262 | every character of the final transcript comes from some final part |
| Transcript.Pending | code.py:258 | the parts visited run from `resultIndex` to the end, none when the index is past it |
| Transcript.OnResult | code.py:254-288 | the final and interim transcripts are the in-order joins of the final and interim parts from `resultIndex`; with no final text it keeps listening; with final text it dispatches exactly when `checkWakeWord` finds a command, and otherwise reports the final text as heard without a wake word |
| Answer.GetAiResponse | code.py:61-71 | never fails: the fixed "trouble connecting" text without an agent, the error prefix followed by the message on an exception, the stripped content otherwise (empty exactly when it is all whitespace) |
| Answer.FallbackApologises | code.py:65-71 | both fallback answers start with "Sorry, I" and are longer than it |
| Answer.ReplyIsSlice | code.py:69 | a reply is the contiguous slice of the content after its leading whitespace |
| Answer.ReplyDropsOnlySpace | code.py:69 | everything of the content before and after the reply is whitespace |
| Answer.ReplyIsStripped | code.py:69 | stripping a reply again changes nothing |
| Speech.CleanResponse | code.py:390 | the replace chain; stated by `CleanResponseIsPerCharacter`, `CleanResponseSpeakable`, `CleanResponseKeeps` and `CleanResponseIdempotent` |
| Speech.ReplaceChar | code.py:390 | `str.replace` of one character: a text without it is unchanged, and it is gone when the replacement lacks it |
| Speech.CleanChar | code.py:390 | each character's image: none of the five removed characters, and other characters kept |
| Speech.ReplaceCharAppend | code.py:390 | replacing distributes over concatenation |
| Speech.ReplaceCharSingle | code.py:390 | replacing in one character gives the replacement or the character |
| Speech.CleanResponseIsPerCharacter | code.py:390 | the five-step chain equals the one-pass map of each character to its image, in order |
| Speech.CleanEachSpeakable | code.py:390 | the one-pass map yields no `"`, newline, backtick, `*` or `#` |
| Speech.CleanResponseSpeakable | code.py:390 | the spoken text holds no `"`, newline, backtick, `*` or `#` |
| Speech.CleanEachKeeps | code.py:390 | the one-pass map is the identity on text without those five |
| Speech.CleanResponseKeeps | code.py:390 | every other character is kept, in order |
| Speech.CleanResponseIdempotent | code.py:390 | cleaning twice equals cleaning once |
| Session.PendingQuery | code.py:365-366 | `query_params.get("hey_bob_query")` taken as truthy: present and non-empty; used by `HandleVoiceQuery` and `Run` |
| Session.VoiceEntry | code.py:382-387 | the appended record; stated by `VoiceAppendsOne` |
| Session.QuickTestQuery | code.py:512-528 | the four quick-test questions; used by `ButtonReply` |
| Session.AfterVoice | code.py:365-387 | the history after the voice step, against which `HandleVoiceQuery` and `Run` are stated; `VoiceAppendsOne` says it appends exactly one entry when a query is pending and nothing otherwise |
| Session.VoiceAppendsOne | code.py:365-387 | with a pending query, exactly one voice entry "Hey Bob, " + query is appended at the end and earlier entries are kept; without one the history is unchanged |
| Session.ButtonReply | code.py:501-602 | "Test" with an empty box shows nothing; "Test" and the quick tests show `get_ai_response` of their question; the agent check shows the failure notice exactly when there is no agent and `get_ai_response` of its question otherwise |
| Session.Reverse | code.py:560 | `reversed`: same length, element `i` is element `n-1-i` |
| Session.RecentConversations | code.py:556-565 | the view lists min(n, 5) entries, the newest first |
| Session.Session.constructor | code.py:74-80 | a new session has the URL's parameters and none of the three keys set |
| Session.Session.InitState | code.py:74-80 | each key gets its default (`[]`, `False`, `""`) only when absent; an existing history is never lost |
| Session.Session.HandleVoiceQuery | code.py:365-390 | a pending query is removed from the URL, answered, recorded as one voice entry and spoken cleaned; without one nothing changes; afterwards nothing is pending |
| Session.Session.Run | code.py:74-569 | one script run: the keys are initialised as `InitState` does; the history after it is the voice step's, emptied by a clear click when non-empty, after which the rerun shows and speaks nothing; a pending query empties the URL parameters and nothing is left pending; short of a clear, the run shows `get_ai_response` of the pending query, speaks its cleaned text, and shows the clicked button's reply |
| Session.RerunAnswersOnce | code.py:365-368 | a rerun of the same session after a voice query records it once: the second run, whatever is clicked short of clearing, adds nothing |
| Session.ReloadAnswersNothing | code.py:365-368 | a browser reload (a new session on the URL the first run left) answers nothing and records nothing, whatever is clicked |
| Session.ClearEmptiesView | code.py:567-569 | after clearing, the view is empty and nothing is pending |
| Session.VoiceEventToHistory | code.py:274-279 | only a dispatched command produces a history entry; a dispatched non-empty hand-off produces exactly one; dispatch happens exactly when the final text has a wake phrase |

## Left out

- Rendering is not modelled: Streamlit output (`st.markdown`, `st.write`, `st.success`, `st.error`, spinners, expanders), HTML and CSS, the page config and the history row's icon and 50-character title. None of it changes state.
- The agent is not modelled: `get_agent`'s Gemini/Tavily construction, its caching and `agent.run` (code.py:47-59, 68) are foreign calls. They are the `answer` parameter. The agent check asks `get_agent()` first; the model reads "no agent" from the outcome of its question.
- API-key loading and `st.stop()` on missing keys (code.py:17-23) are configuration and are not modelled.
- Browser speech is not modelled: recognition start/stop/restart, `onend`/`onerror`, `setTimeout` and the `isListening`/`continuousMode` flags. Speech synthesis and its voice selection are out too. All of this is asynchronous browser code; the model keeps only the handler's decision (`Reaction`).
- Session.VoiceEventToHistory: the URL hand-off is abstracted as an arbitrary function `handoff` from the command to the received `hey_bob_query`. At code.py:223 the command is passed through `encodeURIComponent` and then encoded again by `searchParams.set`. Streamlit decodes it once, so the query that reaches the agent and the history's "Hey Bob, …" entry would be the percent-encoded command. Neither encoding is modelled. Nor is the navigation at code.py:222-225 itself, which runs inside the `components.html` frame.
- `time.strftime("%H:%M:%S")` is an opaque timestamp parameter.
- Strings.Lower: lower-casing is ASCII only. JavaScript's full Unicode `toLowerCase` can change a string's length, and it is not modelled.
- Session.Session.HandleVoiceQuery: the `except` branch at code.py:486-487 is not modelled. Every step inside its `try` is total here, since `get_ai_response` never raises.
- Session.Session.HandleVoiceQuery: clearing the parameters before asking the agent is written in that order in the body. The ensures cannot state the order, because the modelled agent is a pure function of the query.
- Session.Session.Run: a clear click while the history is empty leaves everything as it is. The page shows the button only when the history is non-empty.
