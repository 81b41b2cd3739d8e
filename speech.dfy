/**
 * The browser speech-recognition wrapper (src/lib/speech.ts): the `isListening`
 * flag machine and the folding of a recognition-results window into one
 * `(transcript, isFinal)` event. The browser engine itself is an input: whether
 * it exists when the wrapper is built.
 */
module Speech {

  /** One entry of `event.results`: its first alternative's transcript and its final flag. */
  datatype RecognitionResult = RecognitionResult(firstAlternative: string, isFinal: bool)

  /** The in-order concatenation of the first alternatives of `results`. */
  function WindowTranscript(results: seq<RecognitionResult>): string {
    if results == [] then [] else results[0].firstAlternative + WindowTranscript(results[1..])
  }

  /** Some result of the window is final. */
  predicate AnyFinal(results: seq<RecognitionResult>) {
    exists j :: 0 <= j < |results| && results[j].isFinal
  }

  lemma {:induction false} WindowTranscriptSnoc(results: seq<RecognitionResult>, r: RecognitionResult)
    ensures WindowTranscript(results + [r]) == WindowTranscript(results) + r.firstAlternative
  {
    if results != [] {
      assert (results + [r])[1..] == results[1..] + [r];
      WindowTranscriptSnoc(results[1..], r);
    }
  }

  lemma AnyFinalSnoc(results: seq<RecognitionResult>, r: RecognitionResult)
    ensures AnyFinal(results + [r]) <==> AnyFinal(results) || r.isFinal
  {
    if r.isFinal { assert (results + [r])[|results|] == r; }
    if AnyFinal(results) {
      var j :| 0 <= j < |results| && results[j].isFinal;
      assert (results + [r])[j] == results[j];
    }
  }

  /**
   * The `onresult` handler's loop: from `resultIndex` to the end of `results`, append
   * each result's first alternative and note whether any of them is final. A window
   * that starts at or after the end yields the empty interim event.
   */
  method AggregateResults(results: seq<RecognitionResult>, resultIndex: nat)
      returns (transcript: string, isFinal: bool)
    ensures resultIndex <= |results| ==> transcript == WindowTranscript(results[resultIndex..])
    ensures resultIndex <= |results| ==> (isFinal <==> AnyFinal(results[resultIndex..]))
    ensures resultIndex > |results| ==> transcript == [] && !isFinal
  {
    transcript := "";
    isFinal := false;
    var i := resultIndex;
    while i < |results|
      invariant resultIndex <= |results| ==> resultIndex <= i <= |results|
      invariant resultIndex > |results| ==> i == resultIndex
      invariant resultIndex <= |results| ==> transcript == WindowTranscript(results[resultIndex..i])
      invariant resultIndex <= |results| ==> (isFinal <==> AnyFinal(results[resultIndex..i]))
      invariant resultIndex > |results| ==> transcript == [] && !isFinal
    {
      WindowTranscriptSnoc(results[resultIndex..i], results[i]);
      AnyFinalSnoc(results[resultIndex..i], results[i]);
      assert results[resultIndex..i + 1] == results[resultIndex..i] + [results[i]];
      transcript := transcript + results[i].firstAlternative;
      if results[i].isFinal {
        isFinal := true;
      }
      i := i + 1;
    }
    if resultIndex <= |results| {
      assert results[resultIndex..i] == results[resultIndex..];
    }
  }

  /** A final event may carry interim text: one final result beside an interim one makes the whole window final. */
  lemma FinalWindowMayHoldInterimText(interim: string, final: string)
    ensures var w := [RecognitionResult(interim, false), RecognitionResult(final, true)];
      AnyFinal(w) && WindowTranscript(w) == interim + final
  {
    var w := [RecognitionResult(interim, false), RecognitionResult(final, true)];
    assert w[1].isFinal;
    assert w[1..][1..] == [];
    assert WindowTranscript(w[1..]) == final;
  }

  /** The `SpeechRecognition` wrapper object. */
  class Recognizer {
    /** A recognition engine was found when the wrapper was built (`this.recognition` is set). */
    const hasEngine: bool
    var isListening: bool

    /** The wrapper is never listening without an engine. */
    predicate Valid()
      reads this
    {
      isListening ==> hasEngine
    }

    /** The engine is present exactly when the window exposes one. */
    constructor (engineAvailable: bool)
      ensures Valid() && hasEngine == engineAvailable && !isListening
    {
      hasEngine := engineAvailable;
      isListening := false;
    }

    /** `isSupported()`: a wrapper that is listening is always a supported one. */
    function IsSupported(): (b: bool)
      reads this
      ensures Valid() && isListening ==> b
    {
      hasEngine
    }

    /**
     * `startListening(onResult, onError)`: ignored without an engine or while
     * listening; otherwise marks the wrapper as listening and starts the engine
     * (`started`).
     */
    method StartListening() returns (started: bool)
      requires Valid()
      modifies this
      ensures Valid()
      ensures started <==> hasEngine && !old(isListening)
      ensures isListening == (old(isListening) || hasEngine)
    {
      if !hasEngine || isListening {
        return false;
      }
      isListening := true;
      started := true;
    }

    /** The engine's `onerror`: the error is handed to the caller's `onError`, then listening stops. */
    method OnError(error: string) returns (reported: string)
      requires Valid()
      modifies this
      ensures Valid()
      ensures reported == error && !isListening
    {
      reported := error;
      isListening := false;
    }

    /** The engine's `onend`. */
    method OnEnd()
      requires Valid()
      modifies this
      ensures Valid()
      ensures !isListening
    {
      isListening := false;
    }

    /** `stopListening()`: stops the engine (`stopped`) only while listening; afterwards not listening. */
    method StopListening() returns (stopped: bool)
      requires Valid()
      modifies this
      ensures Valid()
      ensures stopped <==> hasEngine && old(isListening)
      ensures !isListening
    {
      stopped := hasEngine && isListening;
      if stopped {
        isListening := false;
      }
    }

    /** `getIsListening()`: never true for a wrapper without an engine. */
    function GetIsListening(): (b: bool)
      reads this
      ensures Valid() && b ==> IsSupported()
    {
      isListening
    }
  }

  /** Stopping twice is the same as stopping once: the second call finds nothing to stop. */
  method StopIsIdempotent(r: Recognizer) returns (second: bool)
    requires r.Valid()
    modifies r
    ensures !second && !r.isListening
  {
    var _ := r.StopListening();
    second := r.StopListening();
  }
}
