/** Worked transcripts for `checkWakeWord`, each proved from the general
    lemmas about the scan. */
module WakeWordExamples {
  import opened Strings
  import opened WakeWord

  /** A phrase that needs a character the text lacks does not occur in it. */
  lemma {:induction false} MissingCharNotContained(s: string, p: string, j: nat)
    requires j < |p| && p[j] !in s
    ensures !Contains(s, p)
  {
    forall i | 0 <= i <= |s| - |p| ensures !OccursAt(s, p, i) {
      assert s[i + j] in s;
      assert s[i..i + |p|][j] == s[i + j] != p[j];
    }
  }

  /** Every wake phrase contains a 'b', so text without one never wakes Bob. */
  lemma NoLetterBNoWakeWord(text: string)
    requires forall i :: 0 <= i < |text| ==> text[i] != 'b' && !('A' <= text[i] <= 'Z')
    ensures !HasWakeWord(text)
    ensures CheckWakeWord(text) == None
  {
    LowerOfLower(text);
    var lower := Lower(text);
    assert 'b' !in lower;
    assert WAKE_WORDS[0][4] == 'b' && WAKE_WORDS[1][3] == 'b';
    assert WAKE_WORDS[2][6] == 'b' && WAKE_WORDS[3][0] == 'b';
    MissingCharNotContained(lower, WAKE_WORDS[0], 4);
    MissingCharNotContained(lower, WAKE_WORDS[1], 3);
    MissingCharNotContained(lower, WAKE_WORDS[2], 6);
    MissingCharNotContained(lower, WAKE_WORDS[3], 0);
    CheckWakeWordNull(text);
  }

  /** "what time is it" has no wake phrase: the result is null. */
  lemma ExampleNoWakeWord()
    ensures CheckWakeWord("what time is it") == None
  {
    NoLetterBNoWakeWord("what time is it");
  }

  /** A transcript that opens with "hey bob", in any case, is answered
      with what follows those seven characters. */
  lemma HeyBobFirst(text: string)
    requires |text| >= 7 && Lower(text)[..7] == "hey bob"
    ensures CheckWakeWord(text) == Some(CommandAfter(text, 7))
  {
    var lower := Lower(text);
    assert lower[0..7] == "hey bob";
    assert OccursAt(lower, "hey bob", 0);
    assert FirstListed(text, 0);
    CheckWakeWordListOrder(text, 0);
  }

  /** The same for a transcript already in lower case. */
  lemma HeyBobFirstLowerCase(text: string)
    requires |text| >= 7 && text[..7] == "hey bob"
    requires forall i :: 0 <= i < |text| ==> !('A' <= text[i] <= 'Z')
    ensures CheckWakeWord(text) == Some(CommandAfter(text, 7))
  {
    LowerOfLower(text);
    HeyBobFirst(text);
  }

  lemma QuestionAfterWakeWord()
    ensures Trim("hey bob what is 2 plus 2"[7..], IsJsSpace) == "what is 2 plus 2"
  {
    var text := "hey bob what is 2 plus 2";
    assert text[7..] == [' '] + "what is 2 plus 2";
    TrimSpaceThen(' ', "what is 2 plus 2", IsJsSpace);
  }

  /** The command is the trimmed text after the phrase. */
  lemma ExampleCommand()
    ensures CheckWakeWord("hey bob what is 2 plus 2") == Some("what is 2 plus 2")
  {
    HeyBobFirstLowerCase("hey bob what is 2 plus 2");
    QuestionAfterWakeWord();
  }

  /** The wake phrase alone is returned as the whole text, not as an empty
      command and not as a placeholder. */
  lemma ExampleOnlyWakeWord()
    ensures CheckWakeWord("hey bob") == Some("hey bob")
  {
    var text := "hey bob";
    HeyBobFirstLowerCase(text);
    assert text[7..] == "";
  }

  lemma IndexOfHeyBob()
    ensures OccursAt("bob, hey bob lights", "hey bob", 5)
    ensures IndexOf("bob, hey bob lights", "hey bob") == 5
  {
    var text := "bob, hey bob lights";
    assert text[5..12] == "hey bob";
    forall j | 0 <= j < 5 ensures !OccursAt(text, "hey bob", j) {
      assert text[j..j + 7][0] == text[j] != "hey bob"[0];
    }
  }

  lemma LightsAfterWakeWord()
    ensures Trim("bob, hey bob lights"[12..], IsJsSpace) == "lights"
  {
    var text := "bob, hey bob lights";
    assert text[12..] == [' '] + "lights";
    TrimSpaceThen(' ', "lights", IsJsSpace);
  }

  /** List order beats position: "bob" occurs first in the text, yet
      "hey bob", listed first, decides where the command starts. */
  lemma ExampleListOrder()
    ensures OccursAt("bob, hey bob lights", "bob", 0)
    ensures CheckWakeWord("bob, hey bob lights") == Some("lights")
  {
    var text := "bob, hey bob lights";
    assert text[0..3] == "bob";
    LowerOfLower(text);
    IndexOfHeyBob();
    assert FirstListed(text, 0);
    CheckWakeWordListOrder(text, 0);
    LightsAfterWakeWord();
  }

  lemma LightsAfterCapitalised()
    ensures Trim("Hey Bob lights"[7..], IsJsSpace) == "lights"
  {
    assert "Hey Bob lights"[7..] == [' '] + "lights";
    TrimSpaceThen(' ', "lights", IsJsSpace);
  }

  /** The phrase is found whatever its case, and the command keeps the
      case the speaker's transcript had. */
  lemma ExampleCapitalised()
    ensures CheckWakeWord("Hey Bob lights") == Some("lights")
  {
    LowerPrefix("Hey Bob lights", "hey bob");
    HeyBobFirst("Hey Bob lights");
    LightsAfterCapitalised();
  }
}
