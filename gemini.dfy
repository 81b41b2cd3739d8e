/**
 * Transcript correction (src/lib/gemini.ts, `correctTranscription`). The call to
 * the generative-language service is an input: either the text it replied with,
 * or the error it threw.
 */
module Gemini {
  import opened Wrappers
  import opened Text

  /** What the awaited service call produced. */
  datatype ServiceOutcome =
    | Replied(text: string)
      /** The call threw; `message` is present when the thrown value is an `Error`. */
    | Threw(message: Option<string>)

  /** Inputs shorter than this (after trimming) are never sent to the service. */
  const MIN_CORRECTION_LENGTH: nat := 3

  /** The service is consulted only for a non-empty input whose trimmed length is at least three. */
  predicate CallsService(rawText: string) {
    !(rawText == [] || |Trim(rawText)| < MIN_CORRECTION_LENGTH)
  }

  /** `part` occurs in `s` at position `i`. */
  predicate OccursAt(s: string, part: string, i: int) {
    0 <= i <= |s| - |part| && s[i..i + |part|] == part
  }

  /** `s.includes(part)`. */
  predicate Contains(s: string, part: string) {
    exists i | 0 <= i <= |s| - |part| :: OccursAt(s, part, i)
  }

  /** The errors the source singles out as a temporary outage of the service. */
  predicate IsTransientError(message: string) {
    Contains(message, "503") || Contains(message, "429")
    || Contains(message, "quota") || Contains(message, "unavailable")
  }

  /**
   * `correctTranscription(rawText)`: short inputs are returned unchanged, a reply is
   * trimmed, and every error (a temporary outage or anything else) falls back to the
   * raw input.
   */
  function CorrectTranscription(rawText: string, service: ServiceOutcome): (r: string)
    ensures !CallsService(rawText) ==> r == rawText
    ensures CallsService(rawText) && service.Replied? ==> r == Trim(service.text)
    ensures service.Threw? ==> r == rawText
  {
    if !CallsService(rawText) then rawText
    else
      match service
      case Replied(text) => Trim(text)
      case Threw(message) =>
        if message.Some? && IsTransientError(message.value) then rawText
        else rawText
  }

  /** The function never fails: its result is the raw input or a trimmed service reply. */
  lemma NeverFails(rawText: string, service: ServiceOutcome)
    ensures var r := CorrectTranscription(rawText, service);
      r == rawText || (service.Replied? && r == Trim(service.text))
  {
  }

  /** For a short input the service outcome is irrelevant: the service is not consulted. */
  lemma ShortInputIgnoresService(rawText: string, s1: ServiceOutcome, s2: ServiceOutcome)
    requires !CallsService(rawText)
    ensures CorrectTranscription(rawText, s1) == CorrectTranscription(rawText, s2) == rawText
  {
  }

  /** A reply is returned trimmed, so correcting it again with the same reply changes nothing. */
  lemma ReplyIsTrimmed(rawText: string, reply: string)
    requires CallsService(rawText)
    ensures Trim(CorrectTranscription(rawText, Replied(reply))) == CorrectTranscription(rawText, Replied(reply))
  {
    assert CorrectTranscription(rawText, Replied(reply)) == Trim(reply);
    TrimIdempotent(reply);
  }

  /** The emptiness test is subsumed by the length test: the service is consulted iff the trimmed input has three characters or more. */
  lemma CallsServiceIffLongEnough(rawText: string)
    ensures CallsService(rawText) <==> |Trim(rawText)| >= MIN_CORRECTION_LENGTH
  {
    if rawText == [] {
      assert |Trim(rawText)| == 0;
    }
  }

  /** No occurrence of `part` is possible when its first character never appears in `s`. */
  lemma AbsentFirstChar(s: string, part: string)
    requires part != [] && forall i :: 0 <= i < |s| ==> s[i] != part[0]
    ensures !Contains(s, part)
  {
    forall i | 0 <= i <= |s| - |part| ensures !OccursAt(s, part, i) {
      assert s[i..i + |part|][0] == s[i];
    }
  }

  /** Messages naming a status code, the quota or an unavailable service are classed as a temporary outage. */
  lemma TransientErrorExamples()
    ensures IsTransientError("[503 Service Unavailable]")
    ensures IsTransientError("429 Too Many Requests")
    ensures IsTransientError("Resource exhausted: check quota")
    ensures IsTransientError("model unavailable")
  {
    var e := "[503 Service Unavailable]";
    assert e[1] == '5' && e[2] == '0' && e[3] == '3';
    assert e[1..4] == "503";
    assert OccursAt(e, "503", 1);
    assert OccursAt("429 Too Many Requests", "429", 0);
    assert OccursAt("Resource exhausted: check quota", "quota", 26);
    assert OccursAt("model unavailable", "unavailable", 6);
  }

  /** The outage test is a case-sensitive substring test: a capitalised "Unavailable" alone is not singled out. */
  lemma UnavailableIsCaseSensitive()
    ensures !IsTransientError("Service Unavailable")
  {
    var m := "Service Unavailable";
    AbsentFirstChar(m, "503");
    AbsentFirstChar(m, "429");
    AbsentFirstChar(m, "quota");
    AbsentFirstChar(m, "unavailable");
  }

  /** Both classes of error, temporary outage or not, yield the raw input. */
  lemma ErrorClassesAgree(rawText: string, outage: string, other: Option<string>)
    requires IsTransientError(outage)
    ensures CorrectTranscription(rawText, Threw(Some(outage))) == CorrectTranscription(rawText, Threw(other))
  {
  }
}
