/**
 * The dictation overlay (src/components/VoiceInputAqua.tsx): recognizer events
 * update a live preview, each accepted final transcript is sent for correction,
 * and each completed correction is appended as one confirmed segment.
 *
 * The `await` inside the result callback is split into two atomic events:
 * `OnResult` accepts a final and records the call as in flight, and
 * `CompleteCorrection` delivers the outcome of one in-flight call. Calls may
 * complete in any order; segments are appended in completion order.
 */
module VoiceInputAqua {
  import opened Wrappers
  import opened Text
  import Gemini
  import Speech

  /** A confirmed piece of the answer. `id` is the counter value behind `segment-<id>`. */
  datatype Segment = Segment(id: nat, text: string, isConfirmed: bool)

  /** How an awaited correction call ended: it resolved with the service outcome, or it threw. */
  datatype CallOutcome = Resolved(service: Gemini.ServiceOutcome) | Rejected

  /**
   * The text a completed correction of the trimmed transcript `raw` contributes: the
   * corrected text, or `raw` itself when the call threw. The correction never fails,
   * so the result is `raw` or a trimmed service reply either way.
   */
  function SegmentText(raw: string, outcome: CallOutcome): (text: string)
    ensures outcome.Rejected? ==> text == raw
    ensures outcome.Resolved? ==> text == Gemini.CorrectTranscription(raw, outcome.service)
    ensures text == raw || (outcome.Resolved? && outcome.service.Replied? && text == Trim(outcome.service.text))
  {
    match outcome
    case Resolved(service) => Gemini.CorrectTranscription(raw, service)
    case Rejected => raw
  }

  /** Prefix of the message shown for a recognizer error. */
  const RECOGNITION_ERROR_PREFIX: string := "音声認識エラー: "

  /** Segment ids increase strictly along the list. */
  predicate IdsIncreasing(segments: seq<Segment>) {
    forall i, j :: 0 <= i < j < |segments| ==> segments[i].id < segments[j].id
  }

  /** Every segment id was handed out by a counter whose next value is `next`. */
  predicate IdsBelow(segments: seq<Segment>, next: nat) {
    forall i :: 0 <= i < |segments| ==> segments[i].id < next
  }

  /** The texts of the segments, in list order. */
  function Texts(segments: seq<Segment>): (texts: seq<string>)
    ensures |texts| == |segments|
    ensures forall i :: 0 <= i < |segments| ==> texts[i] == segments[i].text
  {
    seq(|segments|, i requires 0 <= i < |segments| => segments[i].text)
  }

  /** The answer handed to `onComplete`: the segment texts joined by single spaces. */
  function AnswerText(segments: seq<Segment>): (answer: string)
    ensures segments == [] ==> answer == []
    ensures |segments| == 1 ==> answer == segments[0].text
  {
    Join(Texts(segments), " ")
  }

  /** Appending a segment extends the answer by one space and that segment's text. */
  lemma AnswerAfterAppend(segments: seq<Segment>, s: Segment)
    ensures AnswerText(segments + [s])
      == if segments == [] then s.text else AnswerText(segments) + " " + s.text
  {
    assert Texts(segments + [s]) == Texts(segments) + [s.text];
    JoinSnoc(Texts(segments), s.text, " ");
  }

  /** The segment list of a session whose counter stands at `next`: ids increasing and handed out, all confirmed. */
  predicate SegmentsNumbered(segments: seq<Segment>, next: nat) {
    && IdsIncreasing(segments)
    && IdsBelow(segments, next)
    && (forall i :: 0 <= i < |segments| ==> segments[i].isConfirmed)
  }

  /** A fresh confirmed segment numbered by the counter keeps the list numbered under the bumped counter. */
  lemma AppendKeepsIds(segments: seq<Segment>, next: nat, text: string)
    requires SegmentsNumbered(segments, next)
    ensures SegmentsNumbered(segments + [Segment(next, text, true)], next + 1)
  {
  }

  /** Increasing ids are pairwise distinct. */
  lemma IncreasingIdsAreDistinct(segments: seq<Segment>, i: nat, j: nat)
    requires IdsIncreasing(segments) && i < |segments| && j < |segments| && i != j
    ensures segments[i].id != segments[j].id
  {
    if i > j { assert segments[j].id < segments[i].id; }
  }

  /** The state of one mounted overlay. */
  class CaptureSession {
    var speech: Speech.Recognizer
    var isListening: bool
    var segments: seq<Segment>
    var currentTranscript: string
    var isProcessing: bool
    var error: Option<string>
    /** `lastTranscriptRef`: the last final accepted for correction. */
    var lastTranscript: string
    /** `segmentIdRef`: the id the next segment will get. */
    var nextId: nat
    /** Trimmed transcripts whose correction call is still awaited. */
    var inFlight: seq<string>

    ghost predicate Valid()
      reads this, speech
    {
      && speech.Valid()
      && SegmentsNumbered(segments, nextId)
    }

    /** Mounting: a new recognizer, and a non-empty `initialValue` seeds one confirmed segment. */
    constructor (initialValue: string, engineAvailable: bool)
      ensures Valid() && fresh(speech) && speech.hasEngine == engineAvailable
      ensures segments == (if initialValue != [] then [Segment(0, initialValue, true)] else [])
      ensures nextId == |segments|
      ensures !isListening && !isProcessing && error == None
      ensures currentTranscript == [] && lastTranscript == [] && inFlight == []
    {
      speech := new Speech.Recognizer(engineAvailable);
      isListening := false;
      currentTranscript := "";
      isProcessing := false;
      error := None;
      lastTranscript := "";
      inFlight := [];
      if initialValue != [] {
        segments := [Segment(0, initialValue, true)];
        nextId := 1;
      } else {
        segments := [];
        nextId := 0;
      }
    }

    /**
     * The mount effect running again for a changed `initialValue`: a new recognizer
     * replaces the old one, and a non-empty value replaces the segments by one seed.
     */
    method InitialValueChanged(initialValue: string, engineAvailable: bool)
      requires Valid()
      modifies this
      ensures Valid() && fresh(speech) && speech.hasEngine == engineAvailable && !speech.isListening
      ensures initialValue != [] ==> segments == [Segment(old(nextId), initialValue, true)] && nextId == old(nextId) + 1
      ensures initialValue == [] ==> segments == old(segments) && nextId == old(nextId)
      ensures isListening == old(isListening) && isProcessing == old(isProcessing) && error == old(error)
      ensures currentTranscript == old(currentTranscript) && lastTranscript == old(lastTranscript)
      ensures inFlight == old(inFlight)
    {
      speech := new Speech.Recognizer(engineAvailable);
      if initialValue != [] {
        segments := [Segment(nextId, initialValue, true)];
        nextId := nextId + 1;
      }
    }

    /**
     * `startListening`: clears the preview, the error and the last accepted final,
     * keeps the segments, and asks the recognizer to start. The overlay shows itself
     * as listening even when the recognizer ignores the request.
     */
    method StartListening()
      requires Valid()
      modifies this, speech
      ensures Valid() && speech == old(speech)
      ensures isListening && currentTranscript == [] && error == None && lastTranscript == []
      ensures speech.isListening == (old(speech.isListening) || speech.hasEngine)
      ensures segments == old(segments) && nextId == old(nextId)
      ensures isProcessing == old(isProcessing) && inFlight == old(inFlight)
    {
      isListening := true;
      currentTranscript := "";
      error := None;
      lastTranscript := "";
      var _ := speech.StartListening();
    }

    /**
     * The result callback up to its `await`: every event overwrites the preview; a final
     * whose trimmed text is non-empty and which differs (untrimmed) from the last accepted
     * final is accepted: it becomes the last accepted final, processing starts, and its
     * trimmed text is sent for correction.
     */
    method OnResult(transcript: string, isFinal: bool) returns (accepted: bool)
      requires Valid()
      modifies this
      ensures Valid()
      ensures accepted <==> isFinal && Trim(transcript) != [] && transcript != old(lastTranscript)
      ensures currentTranscript == transcript
      ensures accepted ==> lastTranscript == transcript && isProcessing
      ensures accepted ==> inFlight == old(inFlight) + [Trim(transcript)]
      ensures !accepted ==> lastTranscript == old(lastTranscript) && isProcessing == old(isProcessing)
      ensures !accepted ==> inFlight == old(inFlight)
      ensures segments == old(segments) && nextId == old(nextId) && speech == old(speech)
      ensures isListening == old(isListening) && error == old(error)
    {
      currentTranscript := transcript;
      accepted := isFinal && Trim(transcript) != [] && transcript != lastTranscript;
      if accepted {
        lastTranscript := transcript;
        isProcessing := true;
        inFlight := inFlight + [Trim(transcript)];
      }
    }

    /**
     * The result callback after its `await`, for the in-flight call `k`: one confirmed
     * segment with the next id is appended, holding the corrected text, or the trimmed
     * transcript when the call threw. The preview is cleared and processing ends, even
     * if other calls are still in flight.
     */
    method CompleteCorrection(k: nat, outcome: CallOutcome)
      requires Valid() && k < |inFlight|
      modifies this
      ensures Valid()
      ensures segments == old(segments) + [Segment(old(nextId), SegmentText(old(inFlight[k]), outcome), true)]
      ensures nextId == old(nextId) + 1
      ensures inFlight == old(inFlight[..k] + inFlight[k + 1..])
      ensures currentTranscript == [] && !isProcessing && speech == old(speech)
      ensures isListening == old(isListening) && error == old(error) && lastTranscript == old(lastTranscript)
    {
      var text := SegmentText(inFlight[k], outcome);
      var remaining := inFlight[..k] + inFlight[k + 1..];
      AppendKeepsIds(segments, nextId, text);
      segments := segments + [Segment(nextId, text, true)];
      nextId := nextId + 1;
      inFlight := remaining;
      isProcessing := false;
      currentTranscript := "";
    }

    /** The recognizer's error callback: the error is shown and listening stops. */
    method OnRecognizerError(e: string)
      requires Valid()
      modifies this, speech
      ensures Valid() && speech == old(speech)
      ensures error == Some(RECOGNITION_ERROR_PREFIX + e) && !isListening && !speech.isListening
      ensures segments == old(segments) && nextId == old(nextId) && inFlight == old(inFlight)
      ensures currentTranscript == old(currentTranscript) && lastTranscript == old(lastTranscript)
      ensures isProcessing == old(isProcessing)
    {
      var reported := speech.OnError(e);
      error := Some(RECOGNITION_ERROR_PREFIX + reported);
      isListening := false;
    }

    /** The recognizer ending on its own: only the recognizer's flag drops; the overlay's does not. */
    method OnRecognizerEnd()
      requires Valid()
      modifies speech
      ensures Valid() && !speech.isListening
    {
      speech.OnEnd();
    }

    /**
     * `stopListening`: stops the recognizer, and a preview that is not blank is promoted,
     * trimmed and uncorrected, to a confirmed segment and then cleared.
     */
    method StopListening()
      requires Valid()
      modifies this, speech
      ensures Valid() && speech == old(speech)
      ensures !isListening && !speech.isListening
      ensures Trim(old(currentTranscript)) != [] ==>
        && segments == old(segments) + [Segment(old(nextId), Trim(old(currentTranscript)), true)]
        && nextId == old(nextId) + 1
        && currentTranscript == []
      ensures Trim(old(currentTranscript)) == [] ==>
        segments == old(segments) && nextId == old(nextId) && currentTranscript == old(currentTranscript)
      ensures isProcessing == old(isProcessing) && inFlight == old(inFlight)
      ensures error == old(error) && lastTranscript == old(lastTranscript)
    {
      var _ := speech.StopListening();
      isListening := false;
      var pending := Trim(currentTranscript);
      if pending != [] {
        AppendKeepsIds(segments, nextId, pending);
        segments := segments + [Segment(nextId, pending, true)];
        nextId := nextId + 1;
        currentTranscript := "";
      }
    }

    /**
     * `handleComplete`: stops listening, then hands on the answer built from the
     * segments as they were before the preview was promoted.
     */
    method Complete() returns (answer: string)
      requires Valid()
      modifies this, speech
      ensures Valid() && speech == old(speech)
      ensures answer == AnswerText(old(segments))
      ensures !isListening && !speech.isListening
      ensures Trim(old(currentTranscript)) != [] ==>
        && segments == old(segments) + [Segment(old(nextId), Trim(old(currentTranscript)), true)]
        && nextId == old(nextId) + 1
        && currentTranscript == []
      ensures Trim(old(currentTranscript)) == [] ==>
        segments == old(segments) && nextId == old(nextId) && currentTranscript == old(currentTranscript)
      ensures isProcessing == old(isProcessing) && inFlight == old(inFlight)
      ensures error == old(error) && lastTranscript == old(lastTranscript)
    {
      var before := segments;
      StopListening();
      answer := AnswerText(before);
    }

    /** `handleClear`: empties the segments and forgets the preview and the last final; the id counter keeps counting. */
    method Clear()
      requires Valid()
      modifies this
      ensures Valid()
      ensures segments == [] && currentTranscript == [] && lastTranscript == []
      ensures nextId == old(nextId) && inFlight == old(inFlight) && speech == old(speech)
      ensures isListening == old(isListening) && isProcessing == old(isProcessing) && error == old(error)
    {
      segments := [];
      currentTranscript := "";
      lastTranscript := "";
    }
  }

  /** A fresh listening session that accepted two different finals, both still in flight. */
  method TwoFinalsInFlight(first: string, second: string) returns (session: CaptureSession)
    requires Trim(first) != [] && Trim(second) != [] && first != second
    ensures fresh(session) && session.Valid()
    ensures session.segments == [] && session.nextId == 0
    ensures session.inFlight == [Trim(first), Trim(second)]
  {
    session := new CaptureSession("", true);
    session.StartListening();
    var a := session.OnResult(first, true);
    var b := session.OnResult(second, true);
  }

  /**
   * Two finals accepted in the order "first", "second" whose corrections complete
   * in the opposite order end up in completion order, with ids in creation order.
   */
  method CompletionOrderScenario(first: string, second: string) returns (segments: seq<Segment>)
    requires Trim(first) != [] && Trim(second) != [] && first != second
    ensures |segments| == 2
    ensures segments[0].text == Trim(second) && segments[1].text == Trim(first)
    ensures segments[0].id == 0 && segments[1].id == 1
  {
    var session := TwoFinalsInFlight(first, second);
    session.CompleteCorrection(1, Rejected);
    assert |session.segments| == 1 && session.segments[0].text == Trim(second);
    assert session.inFlight == [Trim(first)];
    session.CompleteCorrection(0, Rejected);
    segments := session.segments;
  }

  /**
   * A final repeated right away is corrected once; the same text after a different
   * final is accepted again, since only the last accepted final is remembered.
   */
  method RepeatedFinalScenario(a: string, b: string) returns (accepted: seq<bool>)
    requires Trim(a) != [] && Trim(b) != [] && a != b
    ensures accepted == [true, false, true, true]
  {
    var session := new CaptureSession("", true);
    session.StartListening();
    var r0 := session.OnResult(a, true);
    var r1 := session.OnResult(a, true);
    var r2 := session.OnResult(b, true);
    var r3 := session.OnResult(a, true);
    accepted := [r0, r1, r2, r3];
  }
}
