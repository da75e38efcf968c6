/** The speech-recognition result handler (`recognition.onresult`): it joins
    the final and the interim parts of a result event separately, shows the
    interim text, and hands only the final text to the wake-word check. */
module Transcript {
  import opened Strings
  import opened WakeWord

  /** One entry of `event.results`: the best alternative's transcript and
      whether the recogniser has committed to it. */
  datatype ResultPart = ResultPart(transcript: string, isFinal: bool)

  /** What the handler does with a final transcript. */
  datatype Reaction =
    | KeepListening                // no final text in this event
    | NoWakeWord(heard: string)    // final text without a wake phrase: shown, then discarded
    | Dispatch(command: string)    // wake phrase found: recognition stops, the command is sent

  /** The in-order concatenation of the transcripts of the parts whose
      `isFinal` flag equals `final`. */
  function Joined(parts: seq<ResultPart>, final: bool): string {
    if parts == [] then ""
    else
      var last := parts[|parts| - 1];
      Joined(parts[..|parts| - 1], final) + (if last.isFinal == final then last.transcript else "")
  }

  /** Joining distributes over concatenation of part lists. */
  lemma {:induction false} JoinedAppend(a: seq<ResultPart>, b: seq<ResultPart>, final: bool)
    ensures Joined(a + b, final) == Joined(a, final) + Joined(b, final)
    decreases |b|
  {
    if b == [] {
      assert a + b == a;
    } else {
      var b' := b[..|b| - 1];
      assert (a + b)[..|a + b| - 1] == a + b';
      JoinedAppend(a, b', final);
    }
  }

  /** An interim part never reaches the final transcript, whatever its text;
      it lands, in place, in the interim transcript only. */
  lemma InterimPartIgnored(a: seq<ResultPart>, p: ResultPart, b: seq<ResultPart>)
    requires !p.isFinal
    ensures Joined(a + [p] + b, true) == Joined(a + b, true)
    ensures Joined(a + [p] + b, false) == Joined(a, false) + p.transcript + Joined(b, false)
  {
    JoinedAppend(a + [p], b, true);
    JoinedAppend(a, [p], true);
    JoinedAppend(a, b, true);
    assert Joined([p], true) == "" by { assert [p][..0] == []; }
    JoinedAppend(a + [p], b, false);
    JoinedAppend(a, [p], false);
    assert Joined([p], false) == p.transcript by { assert [p][..0] == []; }
  }

  /** Every character of the final transcript comes from some final part. */
  lemma {:induction false} JoinedFromParts(parts: seq<ResultPart>, final: bool, c: char)
    requires c in Joined(parts, final)
    ensures exists i :: 0 <= i < |parts| && parts[i].isFinal == final && c in parts[i].transcript
    decreases |parts|
  {
    var init := parts[..|parts| - 1];
    var last := parts[|parts| - 1];
    if c in Joined(init, final) {
      JoinedFromParts(init, final, c);
      var i :| 0 <= i < |init| && init[i].isFinal == final && c in init[i].transcript;
      assert parts[i] == init[i];
    } else {
      assert last.isFinal == final && c in last.transcript;
    }
  }

  /** The parts the handler visits: `event.results` from `event.resultIndex`
      on (none when the index is past the end). */
  function Pending(results: seq<ResultPart>, resultIndex: nat): (r: seq<ResultPart>)
    ensures |r| == if resultIndex <= |results| then |results| - resultIndex else 0
    ensures forall i :: 0 <= i < |r| ==> r[i] == results[resultIndex + i]
  {
    if resultIndex <= |results| then results[resultIndex..] else []
  }

  /** `recognition.onresult`: the loop accumulates the two transcripts, then
      the final one (and only it) is checked for a wake phrase. */
  method OnResult(results: seq<ResultPart>, resultIndex: nat)
    returns (finalTranscript: string, interimTranscript: string, reaction: Reaction)
    ensures finalTranscript == Joined(Pending(results, resultIndex), true)
    ensures interimTranscript == Joined(Pending(results, resultIndex), false)
    ensures reaction.KeepListening? <==> finalTranscript == ""
    ensures reaction.NoWakeWord? <==> finalTranscript != "" && CheckWakeWord(finalTranscript).None?
    ensures reaction.NoWakeWord? ==> reaction.heard == finalTranscript
    ensures reaction.Dispatch? <==> finalTranscript != "" && CheckWakeWord(finalTranscript).Some?
    ensures reaction.Dispatch? ==> reaction.command == CheckWakeWord(finalTranscript).value
  {
    finalTranscript, interimTranscript := "", "";
    var i := resultIndex;
    while i < |results|
      invariant resultIndex <= i
      invariant i <= |results| ==> finalTranscript == Joined(results[resultIndex..i], true)
      invariant i <= |results| ==> interimTranscript == Joined(results[resultIndex..i], false)
      invariant i > |results| ==> i == resultIndex && finalTranscript == "" && interimTranscript == ""
    {
      var transcriptPart := results[i].transcript;
      if results[i].isFinal {
        finalTranscript := finalTranscript + transcriptPart;
      } else {
        interimTranscript := interimTranscript + transcriptPart;
      }
      assert results[resultIndex..i + 1][..i - resultIndex] == results[resultIndex..i];
      i := i + 1;
    }
    if resultIndex <= |results| {
      assert results[resultIndex..i] == Pending(results, resultIndex);
    }

    reaction := KeepListening;
    if finalTranscript != "" {
      var command := CheckWakeWord(finalTranscript);
      if command.Some? && command.value != "" {
        reaction := Dispatch(command.value);
      } else {
        if command.Some? {
          CheckWakeWordNonEmpty(finalTranscript);
        }
        reaction := NoWakeWord(finalTranscript);
      }
    }
  }
}
