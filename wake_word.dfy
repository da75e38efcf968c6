/** The browser-side wake-word check (`checkWakeWord` in the voice widget's
    script): find a wake phrase in the lower-cased transcript and keep what
    the speaker said after it. */
module WakeWord {
  import opened Strings

  /** The wake phrases, in the order they are tried. "bob" is a suffix of the
      other three, so it only wins when none of them occurs. */
  const WAKE_WORDS: seq<string> := ["hey bob", "hi bob", "hello bob", "bob"]

  /** The command that follows a wake phrase ending at index `after`: the rest
      of the original-case text, trimmed, or the whole text when nothing but
      whitespace follows the phrase (`command || text`). */
  function CommandAfter(text: string, after: nat): (command: string)
    requires after <= |text|
    ensures command == text || command == Trim(text[after..], IsJsSpace)
    ensures command == text <== Trim(text[after..], IsJsSpace) == ""
    ensures text != "" ==> command != ""
  {
    var rest := Trim(text[after..], IsJsSpace);
    if rest == "" then text else rest
  }

  /** Whenever something other than whitespace follows the phrase, that
      rest, trimmed, is the command. */
  lemma CommandAfterRest(text: string, after: nat)
    requires after <= |text|
    ensures Trim(text[after..], IsJsSpace) != "" ==> CommandAfter(text, after) == Trim(text[after..], IsJsSpace)
  {
  }

  /** The command that phrase `w` yields: what follows its first occurrence
      in the lower-cased text. */
  function AfterFirst(text: string, lower: string, w: string): string
    requires |lower| == |text| && Contains(lower, w)
  {
    var wakeIndex := IndexOf(lower, w);
    CommandAfter(text, wakeIndex + |w|)
  }

  /** The list scan from phrase `k` on: the first phrase that occurs in
      `lower` decides the result, located at its first occurrence. */
  function ScanFrom(text: string, lower: string, words: seq<string>, k: nat): (r: Option<string>)
    requires |lower| == |text|
    decreases |words| - k
  {
    if k >= |words| then None
    else if Contains(lower, words[k]) then Some(AfterFirst(text, lower, words[k]))
    else ScanFrom(text, lower, words, k + 1)
  }

  /** `checkWakeWord(text)`: `None` stands for JavaScript's `null`. */
  function CheckWakeWord(text: string): Option<string> {
    ScanFrom(text, Lower(text), WAKE_WORDS, 0)
  }

  /** Some wake phrase occurs in the lower-cased transcript. */
  predicate HasWakeWord(text: string) {
    exists k :: 0 <= k < |WAKE_WORDS| && Contains(Lower(text), WAKE_WORDS[k])
  }

  /** Phrase `k` is the first one, in list order, that occurs in the lower-cased text. */
  predicate FirstListed(text: string, k: nat) {
    k < |WAKE_WORDS| && Contains(Lower(text), WAKE_WORDS[k])
    && forall j :: 0 <= j < k ==> !Contains(Lower(text), WAKE_WORDS[j])
  }

  lemma {:induction false} ScanFromNone(text: string, lower: string, words: seq<string>, k: nat)
    requires |lower| == |text|
    ensures ScanFrom(text, lower, words, k) == None
        <==> forall j :: k <= j < |words| ==> !Contains(lower, words[j])
    decreases |words| - k
  {
    if k < |words| && !Contains(lower, words[k]) {
      ScanFromNone(text, lower, words, k + 1);
    }
  }

  /** `checkWakeWord` returns null exactly when no wake phrase occurs in the
      lower-cased transcript. */
  lemma CheckWakeWordNull(text: string)
    ensures CheckWakeWord(text) == None <==> !HasWakeWord(text)
  {
    ScanFromNone(text, Lower(text), WAKE_WORDS, 0);
  }

  lemma {:induction false} ScanFromFirst(text: string, lower: string, words: seq<string>, k: nat, i: nat)
    requires |lower| == |text| && i <= k < |words|
    requires Contains(lower, words[k])
    requires forall j :: i <= j < k ==> !Contains(lower, words[j])
    ensures ScanFrom(text, lower, words, i) == Some(AfterFirst(text, lower, words[k]))
    decreases k - i
  {
    if i < k {
      assert !Contains(lower, words[i]);
      assert ScanFrom(text, lower, words, i) == ScanFrom(text, lower, words, i + 1);
      ScanFromFirst(text, lower, words, k, i + 1);
    }
  }

  /** When phrase `k` is the first in list order that occurs, it wins, even if
      a later phrase occurs earlier in the text: the command is what follows
      the first occurrence of phrase `k`. */
  lemma CheckWakeWordListOrder(text: string, k: nat)
    requires FirstListed(text, k)
    ensures CheckWakeWord(text) == Some(AfterFirst(text, Lower(text), WAKE_WORDS[k]))
  {
    ScanFromFirst(text, Lower(text), WAKE_WORDS, k, 0);
  }

  /** Whenever some phrase occurs, exactly one phrase is the first listed one. */
  lemma {:induction false} FirstListedExists(text: string)
    requires HasWakeWord(text)
    ensures exists k: nat :: FirstListed(text, k)
  {
    var k :| 0 <= k < |WAKE_WORDS| && Contains(Lower(text), WAKE_WORDS[k]);
    var j := 0;
    while !Contains(Lower(text), WAKE_WORDS[j])
      invariant 0 <= j <= k
      invariant forall i :: 0 <= i < j ==> !Contains(Lower(text), WAKE_WORDS[i])
      decreases k - j
    {
      j := j + 1;
    }
    assert FirstListed(text, j);
  }

  /** A non-null result is never empty, so the caller's `if (command)`
      dispatches whenever a wake phrase was found. */
  lemma CheckWakeWordNonEmpty(text: string)
    requires CheckWakeWord(text).Some?
    ensures CheckWakeWord(text).value != ""
  {
    CheckWakeWordNull(text);
    FirstListedExists(text);
    var k: nat :| FirstListed(text, k);
    CheckWakeWordListOrder(text, k);
    var w := WAKE_WORDS[k];
    assert |w| > 0;
    assert text != "";
  }
}
