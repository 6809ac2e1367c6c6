/**
 * The speech-recognition hook (src/hooks/use-speech-recognition.ts).
 * The browser engine is an abstract event source: it delivers result lists
 * (a sequence of `(isFinal, text)` pairs and a `resultIndex`), errors and
 * end-of-session events, and receives `start()`/`stop()` commands, which the
 * model records in order instead of performing.
 */
module SpeechRecognition {

  /** One entry of `event.results`: whether it is final, and the text of its first alternative. */
  datatype SpeechResult = SpeechResult(isFinal: bool, transcript: string)

  /** A command sent to the browser engine. */
  datatype EngineCall = Start | Stop

  /** The in-order concatenation of the texts of the final results; interim ones contribute nothing. */
  function FinalText(results: seq<SpeechResult>): string
  {
    if results == [] then ""
    else (if results[0].isFinal then results[0].transcript else "") + FinalText(results[1..])
  }

  /** The results an event asks to be processed: those from `resultIndex` on. */
  function Pending(results: seq<SpeechResult>, resultIndex: nat): seq<SpeechResult>
  {
    if resultIndex <= |results| then results[resultIndex..] else []
  }

  /** The final text of a list split in two is the final text of each part, in order. */
  lemma {:induction false} FinalTextAppend(a: seq<SpeechResult>, b: seq<SpeechResult>)
    ensures FinalText(a + b) == FinalText(a) + FinalText(b)
  {
    if a == [] {
      assert a + b == b;
    } else {
      assert (a + b)[0] == a[0] && (a + b)[1..] == a[1..] + b;
      FinalTextAppend(a[1..], b);
    }
  }

  /** An interim result anywhere in the list leaves the final text as it would be without it. */
  lemma InterimContributesNothing(a: seq<SpeechResult>, text: string, b: seq<SpeechResult>)
    ensures FinalText(a + [SpeechResult(false, text)] + b) == FinalText(a + b)
  {
    FinalTextAppend(a + [SpeechResult(false, text)], b);
    FinalTextAppend(a, [SpeechResult(false, text)]);
    FinalTextAppend(a, b);
  }

  /** A list of interim results only has no final text. */
  lemma {:induction false} OnlyInterimIsEmpty(results: seq<SpeechResult>)
    requires forall i :: 0 <= i < |results| ==> !results[i].isFinal
    ensures FinalText(results) == ""
  {
    if results != [] {
      OnlyInterimIsEmpty(results[1..]);
    }
  }

  /** A final result's text always appears in the final text of a list that holds it. */
  lemma FinalResultAppears(a: seq<SpeechResult>, text: string, b: seq<SpeechResult>)
    ensures FinalText(a + [SpeechResult(true, text)] + b) == FinalText(a) + text + FinalText(b)
  {
    FinalTextAppend(a + [SpeechResult(true, text)], b);
    FinalTextAppend(a, [SpeechResult(true, text)]);
  }

  /** The loop of `onresult`: accumulates the final texts from `resultIndex` to the end. */
  method CollectFinal(results: seq<SpeechResult>, resultIndex: nat) returns (finalTranscript: string)
    ensures finalTranscript == FinalText(Pending(results, resultIndex))
  {
    finalTranscript := "";
    var i := resultIndex;
    while i < |results|
      invariant resultIndex <= i <= |results| || (i == resultIndex && resultIndex > |results|)
      invariant i <= |results| ==> finalTranscript == FinalText(results[resultIndex..i])
      invariant resultIndex > |results| ==> finalTranscript == ""
    {
      FinalTextAppend(results[resultIndex..i], [results[i]]);
      assert results[resultIndex..i + 1] == results[resultIndex..i] + [results[i]];
      if results[i].isFinal {
        finalTranscript := finalTranscript + results[i].transcript;
      }
      i := i + 1;
    }
    assert resultIndex <= |results| ==> results[resultIndex..i] == Pending(results, resultIndex);
  }

  /**
   * The state of one use of the hook: the accumulated `transcript`, the
   * `isListening` flag, whether the page has an engine at all, and the
   * commands sent to that engine so far.
   */
  class Recognizer {
    /** `!!recognition`: an engine was constructed when the module loaded. */
    const supported: bool
    var transcript: string
    var isListening: bool
    var engineCalls: seq<EngineCall>

    /** Without an engine no handler is installed and no command is sent, so nothing ever changes. */
    ghost predicate Valid()
      reads this
    {
      !supported ==> transcript == "" && !isListening && engineCalls == []
    }

    /**
     * Module load and first render: an engine exists iff there is a window
     * offering `SpeechRecognition` or `webkitSpeechRecognition`.
     */
    constructor (hasWindow: bool, hasStandardEngine: bool, hasPrefixedEngine: bool)
      ensures Valid()
      ensures supported <==> hasWindow && (hasStandardEngine || hasPrefixedEngine)
      ensures transcript == "" && !isListening && engineCalls == []
    {
      supported := hasWindow && (hasStandardEngine || hasPrefixedEngine);
      transcript := "";
      isListening := false;
      engineCalls := [];
    }

    /** `hasRecognitionSupport`. */
    function HasRecognitionSupport(): (r: bool)
      requires Valid()
      reads this
      ensures !r ==> transcript == "" && !isListening && engineCalls == []
    {
      supported
    }

    /** `startListening`: with an engine and not yet listening, clear the transcript, start, listen. */
    method StartListening()
      requires Valid()
      modifies this
      ensures Valid()
      ensures if supported && !old(isListening) then
          transcript == "" && isListening && engineCalls == old(engineCalls) + [Start]
        else
          transcript == old(transcript) && isListening == old(isListening) && engineCalls == old(engineCalls)
    {
      if supported && !isListening {
        transcript := "";
        engineCalls := engineCalls + [Start];
        isListening := true;
      }
    }

    /** `stopListening`: with an engine and listening, stop and clear the flag; the transcript is kept. */
    method StopListening()
      requires Valid()
      modifies this
      ensures Valid()
      ensures transcript == old(transcript)
      ensures if supported && old(isListening) then
          !isListening && engineCalls == old(engineCalls) + [Stop]
        else
          isListening == old(isListening) && engineCalls == old(engineCalls)
    {
      if supported && isListening {
        engineCalls := engineCalls + [Stop];
        isListening := false;
      }
    }

    /** `resetTranscript`: empties the transcript whatever the flag. */
    method ResetTranscript()
      requires Valid()
      modifies this
      ensures Valid()
      ensures transcript == "" && isListening == old(isListening) && engineCalls == old(engineCalls)
    {
      transcript := "";
    }

    /**
     * `recognition.onresult`: appends the final texts of the pending results
     * to the transcript. Only installed when an engine exists.
     */
    method OnResult(results: seq<SpeechResult>, resultIndex: nat)
      requires Valid()
      modifies this
      ensures Valid()
      ensures transcript == old(transcript) + (if supported then FinalText(Pending(results, resultIndex)) else "")
      ensures old(transcript) <= transcript
      ensures isListening == old(isListening) && engineCalls == old(engineCalls)
    {
      if !supported {
        return;
      }
      var finalTranscript := CollectFinal(results, resultIndex);
      transcript := transcript + finalTranscript;
    }

    /** `recognition.onerror`: whatever the error, listening ends and the transcript is kept. */
    method OnError(error: string)
      requires Valid()
      modifies this
      ensures Valid()
      ensures !isListening
      ensures transcript == old(transcript) && engineCalls == old(engineCalls)
    {
      if !supported {
        return;
      }
      isListening := false;
    }

    /** `recognition.onend`: listening ends and the transcript is kept. */
    method OnEnd()
      requires Valid()
      modifies this
      ensures Valid()
      ensures !isListening
      ensures transcript == old(transcript) && engineCalls == old(engineCalls)
    {
      if !supported {
        return;
      }
      isListening := false;
    }

    /** The effect's clean-up on unmount: stops the engine, leaving the hook's state as it is. */
    method Unmount()
      requires Valid()
      modifies this
      ensures Valid()
      ensures transcript == old(transcript) && isListening == old(isListening)
      ensures engineCalls == old(engineCalls) + (if supported then [Stop] else [])
    {
      if supported {
        engineCalls := engineCalls + [Stop];
      }
    }
  }

  /** A session as a caller sees it: start, two result events, the engine ends. */
  method ListeningSession(hasEngine: bool)
  {
    var r := new Recognizer(true, hasEngine, false);
    r.StartListening();
    r.OnResult([SpeechResult(true, "hello "), SpeechResult(false, "wor")], 0);
    r.OnResult([SpeechResult(true, "hello "), SpeechResult(true, "world")], 1);
    r.OnEnd();
    assert hasEngine ==> r.transcript == "hello world";
    assert !hasEngine ==> r.transcript == "" && r.engineCalls == [];
    assert !r.isListening;
  }
}
