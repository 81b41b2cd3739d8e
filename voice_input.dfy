/**
 * Answer collection over the five report questions (src/components/VoiceInput.tsx):
 * the upsert of an answer keyed by question index, the sorted response list, and
 * the handlers that move between questions.
 */
module VoiceInput {
  import opened Wrappers
  import opened Text
  import opened ReportTypes

  /** `responses.findIndex(r => r.questionIndex === q)`: the first position answering `q`, or -1. */
  function FindIndex(responses: seq<VoiceResponse>, q: int): (i: int)
    ensures -1 <= i < |responses|
    ensures 0 <= i ==> responses[i].questionIndex == q
    ensures forall j :: 0 <= j < (if i < 0 then |responses| else i) ==> responses[j].questionIndex != q
  {
    if responses == [] then -1
    else if responses[0].questionIndex == q then 0
    else var i := FindIndex(responses[1..], q); if i < 0 then -1 else i + 1
  }

  /** `findIndex` returns the position of the first match. */
  lemma {:induction false} FindIndexIs(responses: seq<VoiceResponse>, q: int, i: nat)
    requires i < |responses| && responses[i].questionIndex == q
    requires forall j :: 0 <= j < i ==> responses[j].questionIndex != q
    ensures FindIndex(responses, q) == i
  {
    if i > 0 {
      FindIndexIs(responses[1..], q, i - 1);
    }
  }

  /**
   * `responses.find(r => r.questionIndex === q)`: nothing when no response answers `q`,
   * otherwise the first response that does.
   */
  function Find(responses: seq<VoiceResponse>, q: int): (r: Option<VoiceResponse>)
    ensures r.None? <==> !Answered(responses, q)
    ensures r.Some? ==>
      exists i :: 0 <= i < |responses| && responses[i] == r.value && r.value.questionIndex == q
        && forall j :: 0 <= j < i ==> responses[j].questionIndex != q
    ensures r == if FindIndex(responses, q) < 0 then None else Some(responses[FindIndex(responses, q)])
  {
    var i := FindIndex(responses, q);
    if i < 0 then None else Some(responses[i])
  }

  /** Some response answers question `q`. */
  predicate Answered(responses: seq<VoiceResponse>, q: int) {
    exists i :: 0 <= i < |responses| && responses[i].questionIndex == q
  }

  lemma FindIffAnswered(responses: seq<VoiceResponse>, q: int)
    ensures Find(responses, q).Some? <==> Answered(responses, q)
  {
    if Answered(responses, q) {
      var i :| 0 <= i < |responses| && responses[i].questionIndex == q;
    }
  }

  /** Ordered by question index (ties allowed). */
  predicate SortedByIndex(responses: seq<VoiceResponse>) {
    forall i, j :: 0 <= i < j < |responses| ==> responses[i].questionIndex <= responses[j].questionIndex
  }

  /** Strictly ordered by question index: sorted, and at most one response per question. */
  predicate WellFormed(responses: seq<VoiceResponse>) {
    forall i, j :: 0 <= i < j < |responses| ==> responses[i].questionIndex < responses[j].questionIndex
  }

  /** Every response belongs to one of the five questions. */
  predicate InRange(responses: seq<VoiceResponse>) {
    forall i :: 0 <= i < |responses| ==> 0 <= responses[i].questionIndex <= LAST_QUESTION
  }

  /** Stable insertion of `x` into a sorted list: after every element whose index is not larger. */
  function Insert(sorted: seq<VoiceResponse>, x: VoiceResponse): (r: seq<VoiceResponse>)
    ensures |r| == |sorted| + 1
    ensures multiset(r) == multiset(sorted) + multiset{x}
  {
    if sorted == [] then [x]
    else if x.questionIndex < sorted[0].questionIndex then [x] + sorted
    else
      assert sorted == [sorted[0]] + sorted[1..];
      [sorted[0]] + Insert(sorted[1..], x)
  }

  /** An element no larger than the head of a sorted list can be put in front of it. */
  lemma ConsSorted(h: VoiceResponse, rest: seq<VoiceResponse>)
    requires SortedByIndex(rest)
    requires rest != [] ==> h.questionIndex <= rest[0].questionIndex
    ensures SortedByIndex([h] + rest)
  {
    var r := [h] + rest;
    forall i, j | 0 <= i < j < |r| ensures r[i].questionIndex <= r[j].questionIndex {
      assert r[j] == rest[j - 1];
      if i == 0 {
        assert rest[0].questionIndex <= rest[j - 1].questionIndex;
      } else {
        assert r[i] == rest[i - 1];
      }
    }
  }

  /** Insertion keeps a sorted list sorted; the first element is `x` or the old first element. */
  lemma {:induction false} InsertSorted(sorted: seq<VoiceResponse>, x: VoiceResponse)
    requires SortedByIndex(sorted)
    ensures SortedByIndex(Insert(sorted, x))
    ensures Insert(sorted, x)[0] == x || (sorted != [] && Insert(sorted, x)[0] == sorted[0])
  {
    if sorted == [] {
    } else if x.questionIndex < sorted[0].questionIndex {
      ConsSorted(x, sorted);
    } else {
      var tail := sorted[1..];
      assert SortedByIndex(tail) by {
        assert forall i :: 0 <= i < |tail| ==> tail[i] == sorted[i + 1];
      }
      InsertSorted(tail, x);
      var rest := Insert(tail, x);
      assert tail != [] ==> tail[0] == sorted[1];
      ConsSorted(sorted[0], rest);
    }
  }

  /** The stable `Array.prototype.sort` with comparator `a.questionIndex - b.questionIndex`. */
  function SortByIndex(xs: seq<VoiceResponse>): (r: seq<VoiceResponse>)
    ensures SortedByIndex(r)
    ensures multiset(r) == multiset(xs)
  {
    if xs == [] then []
    else
      assert xs == xs[..|xs| - 1] + [xs[|xs| - 1]];
      InsertSorted(SortByIndex(xs[..|xs| - 1]), xs[|xs| - 1]);
      Insert(SortByIndex(xs[..|xs| - 1]), xs[|xs| - 1])
  }

  /** Inserting into a strictly ordered list a response for a question it does not answer keeps it strictly ordered. */
  lemma {:induction false} InsertKeepsWellFormed(sorted: seq<VoiceResponse>, x: VoiceResponse)
    requires WellFormed(sorted) && !Answered(sorted, x.questionIndex)
    ensures WellFormed(Insert(sorted, x))
  {
    if sorted != [] && x.questionIndex >= sorted[0].questionIndex {
      assert x.questionIndex != sorted[0].questionIndex;
      var rest := Insert(sorted[1..], x);
      assert forall i :: 0 <= i < |sorted[1..]| ==> sorted[1..][i] == sorted[i + 1];
      InsertKeepsWellFormed(sorted[1..], x);
      InsertSorted(sorted[1..], x);
      assert rest[0] == x || rest[0] == sorted[1];
    }
  }

  /** Sorting a list that is already sorted changes nothing. */
  lemma {:induction false} SortSorted(xs: seq<VoiceResponse>)
    requires SortedByIndex(xs)
    ensures SortByIndex(xs) == xs
  {
    if xs != [] {
      var init := xs[..|xs| - 1];
      SortSorted(init);
      InsertLast(init, xs[|xs| - 1]);
      assert init + [xs[|xs| - 1]] == xs;
    }
  }

  /** Inserting an element that is not smaller than any element of a sorted list appends it. */
  lemma {:induction false} InsertLast(sorted: seq<VoiceResponse>, x: VoiceResponse)
    requires SortedByIndex(sorted)
    requires forall k :: 0 <= k < |sorted| ==> sorted[k].questionIndex <= x.questionIndex
    ensures Insert(sorted, x) == sorted + [x]
  {
    if sorted != [] {
      InsertLast(sorted[1..], x);
      assert [sorted[0]] + (sorted[1..] + [x]) == sorted + [x];
    }
  }

  /**
   * The save of a new answer `r`: replaces the response for the same question in place
   * when there is one, and otherwise adds `r` and re-sorts by question index.
   */
  function Upsert(responses: seq<VoiceResponse>, r: VoiceResponse): (result: seq<VoiceResponse>)
  {
    var existing := FindIndex(responses, r.questionIndex);
    if existing >= 0 then responses[existing := r]
    else SortByIndex(responses + [r])
  }

  /** When the question is already answered, only that response changes, in place. */
  lemma UpsertReplacesInPlace(responses: seq<VoiceResponse>, r: VoiceResponse)
    requires Answered(responses, r.questionIndex)
    ensures var i := FindIndex(responses, r.questionIndex);
      0 <= i && Upsert(responses, r) == responses[i := r]
  {
    FindIffAnswered(responses, r.questionIndex);
  }

  /** Upserting keeps the list strictly ordered, keeps responses in range, and grows it only for a new question. */
  lemma UpsertKeepsWellFormed(responses: seq<VoiceResponse>, r: VoiceResponse)
    requires WellFormed(responses)
    ensures WellFormed(Upsert(responses, r))
    ensures InRange(responses) && 0 <= r.questionIndex <= LAST_QUESTION ==> InRange(Upsert(responses, r))
    ensures |Upsert(responses, r)| == |responses| + (if Answered(responses, r.questionIndex) then 0 else 1)
  {
    FindIffAnswered(responses, r.questionIndex);
    var result := Upsert(responses, r);
    if !Answered(responses, r.questionIndex) {
      UpsertNewIsInsert(responses, r);
      InsertKeepsWellFormed(responses, r);
      forall k | 0 <= k < |result| ensures result[k] in responses || result[k] == r {
        assert result[k] in multiset(responses) + multiset{r};
      }
    }
  }

  /** A new question's response is inserted at its sorted place, when the list is sorted. */
  lemma UpsertNewIsInsert(responses: seq<VoiceResponse>, r: VoiceResponse)
    requires SortedByIndex(responses) && !Answered(responses, r.questionIndex)
    ensures Upsert(responses, r) == Insert(responses, r)
  {
    FindIffAnswered(responses, r.questionIndex);
    assert (responses + [r])[..|responses|] == responses;
    SortSorted(responses);
  }

  /**
   * On a strictly ordered list, upserting `r` behaves as a map update: question
   * `r.questionIndex` is now answered by `r`, and every other question's answer is as it was.
   */
  lemma UpsertIsMapUpdate(responses: seq<VoiceResponse>, r: VoiceResponse, q: int)
    requires WellFormed(responses)
    ensures Find(Upsert(responses, r), q) == if q == r.questionIndex then Some(r) else Find(responses, q)
  {
    var result := Upsert(responses, r);
    UpsertKeepsWellFormed(responses, r);
    FindIffAnswered(responses, r.questionIndex);
    if Answered(responses, r.questionIndex) {
      var i := FindIndex(responses, r.questionIndex);
      if q != r.questionIndex {
        FindUnchangedByOtherSlot(responses, i, r, q);
      } else {
        FindIndexIs(responses[i := r], q, i);
      }
    } else {
      UpsertNewIsInsert(responses, r);
      FindInWellFormed(result, q);
      FindInWellFormed(responses, q);
      if q == r.questionIndex {
        assert r in multiset(result);
      } else {
        forall k | 0 <= k < |result| ensures result[k].questionIndex == q ==> result[k] in responses {
          assert result[k] in multiset(responses) + multiset{r};
        }
        forall k | 0 <= k < |responses| ensures responses[k] in result {
          assert responses[k] in multiset(result);
        }
      }
    }
  }

  /** In a strictly ordered list, `find` returns the unique response for `q`. */
  lemma FindInWellFormed(responses: seq<VoiceResponse>, q: int)
    requires WellFormed(responses)
    ensures forall k :: 0 <= k < |responses| && responses[k].questionIndex == q ==> Find(responses, q) == Some(responses[k])
    ensures (forall k :: 0 <= k < |responses| ==> responses[k].questionIndex != q) ==> Find(responses, q) == None
  {
    FindIffAnswered(responses, q);
  }

  /** Overwriting a slot that answers another question does not change which response answers `q`. */
  lemma FindUnchangedByOtherSlot(responses: seq<VoiceResponse>, i: nat, r: VoiceResponse, q: int)
    requires i < |responses| && responses[i].questionIndex == r.questionIndex != q
    ensures Find(responses[i := r], q) == Find(responses, q)
  {
    var a := FindIndex(responses, q);
    var b := FindIndex(responses[i := r], q);
    if a >= 0 { FindIndexIs(responses[i := r], q, a); }
    if b >= 0 { assert b != i; FindIndexIs(responses, q, b); }
  }

  /** A strictly ordered list within `[lo, hi]` has at most `hi - lo + 1` entries; the i-th is at least `lo + i`. */
  lemma {:induction false} StrictBounds(responses: seq<VoiceResponse>, lo: int, hi: int)
    requires WellFormed(responses) && lo <= hi + 1
    requires forall k :: 0 <= k < |responses| ==> lo <= responses[k].questionIndex <= hi
    ensures |responses| <= hi - lo + 1
  {
    if responses != [] {
      assert forall k :: 0 <= k < |responses[1..]| ==> responses[1..][k] == responses[k + 1];
      StrictBounds(responses[1..], responses[0].questionIndex + 1, hi);
    }
  }

  /**
   * For a strictly ordered list of in-range responses, having as many responses as there
   * are questions is the same as every question being answered.
   */
  lemma {:induction false} CountMeansAllAnswered(responses: seq<VoiceResponse>)
    requires WellFormed(responses) && InRange(responses)
    ensures |responses| == |REPORT_QUESTIONS| <==> forall q :: 0 <= q <= LAST_QUESTION ==> Answered(responses, q)
  {
    StrictBounds(responses, 0, LAST_QUESTION);
    if |responses| == |REPORT_QUESTIONS| {
      AtPositionWhenFull(responses, |responses|);
      forall q | 0 <= q <= LAST_QUESTION ensures Answered(responses, q) {
        assert responses[q].questionIndex == q;
      }
    } else if forall q :: 0 <= q <= LAST_QUESTION ==> Answered(responses, q) {
      AtPositionWhenCovered(responses, LAST_QUESTION);
    }
  }

  /** A strictly ordered list of `|REPORT_QUESTIONS|` in-range responses answers question `k` at position `k`. */
  lemma {:induction false} AtPositionWhenFull(responses: seq<VoiceResponse>, n: nat)
    requires WellFormed(responses) && InRange(responses) && |responses| == |REPORT_QUESTIONS|
    requires n <= |responses|
    ensures forall k :: 0 <= k < n ==> responses[k].questionIndex == k
  {
    if n > 0 {
      AtPositionWhenFull(responses, n - 1);
      var k := n - 1;
      assert k == 0 || responses[k].questionIndex > responses[k - 1].questionIndex;
      StrictBounds(responses[k..], responses[k].questionIndex, LAST_QUESTION);
    }
  }

  /** If every question up to `m` is answered by a strictly ordered list, it answers question `k` at position `k`. */
  lemma {:induction false} AtPositionWhenCovered(responses: seq<VoiceResponse>, m: nat)
    requires WellFormed(responses) && InRange(responses)
    requires forall q :: 0 <= q <= m ==> Answered(responses, q)
    ensures m < |responses|
    ensures forall k :: 0 <= k <= m ==> responses[k].questionIndex == k
  {
    assert Answered(responses, m);
    var j :| 0 <= j < |responses| && responses[j].questionIndex == m;
    if m > 0 {
      AtPositionWhenCovered(responses, m - 1);
      assert responses[m - 1].questionIndex == m - 1;
      assert j >= m;
      assert responses[m].questionIndex <= responses[j].questionIndex;
    } else {
      assert responses[0].questionIndex <= responses[j].questionIndex;
    }
  }

  /** `Math.max(...responses.map(r => r.questionIndex))`, for a non-empty list. */
  function MaxIndex(responses: seq<VoiceResponse>): (m: int)
    requires responses != []
    ensures forall k :: 0 <= k < |responses| ==> responses[k].questionIndex <= m
    ensures exists k :: 0 <= k < |responses| && responses[k].questionIndex == m
  {
    if |responses| == 1 then responses[0].questionIndex
    else
      var m := MaxIndex(responses[1..]);
      assert forall k :: 1 <= k < |responses| ==> responses[k] == responses[1..][k - 1];
      if responses[0].questionIndex >= m then responses[0].questionIndex else m
  }

  /** Where the collection starts when it is given earlier answers: after the last answered question, but not past the last question. */
  function InitialIndex(initial: seq<VoiceResponse>): (i: int)
    requires initial != [] && InRange(initial)
    ensures 0 <= i <= LAST_QUESTION
    ensures i == LAST_QUESTION || (forall k :: 0 <= k < |initial| ==> initial[k].questionIndex < i)
    ensures i < LAST_QUESTION ==> Answered(initial, i - 1)
    ensures i == LAST_QUESTION ==> exists k :: 0 <= k < |initial| && initial[k].questionIndex >= LAST_QUESTION - 1
  {
    var m := MaxIndex(initial);
    if m + 1 < LAST_QUESTION then m + 1 else LAST_QUESTION
  }

  /** The draft after the initial effect looked at question `shown`: its earlier answer, if any, else `draft`. */
  function LoadEarlier(initial: seq<VoiceResponse>, shown: int, draft: string): (r: string)
    ensures !Answered(initial, shown) ==> r == draft
    ensures Answered(initial, shown) ==>
      exists k :: 0 <= k < |initial| && initial[k].questionIndex == shown && r == initial[k].answer
  {
    FindIffAnswered(initial, shown);
    match Find(initial, shown)
    case Some(a) => a.answer
    case None => draft
  }

  /** The answer collection component's state. */
  class AnswerCollector {
    const initialResponses: seq<VoiceResponse>
    var currentQuestionIndex: int
    var responses: seq<VoiceResponse>
    var isVoiceInputOpen: bool
    var editingAnswer: string

    ghost predicate Valid()
      reads this
    {
      && 0 <= currentQuestionIndex <= LAST_QUESTION
      && WellFormed(responses) && InRange(responses)
      && InRange(initialResponses)
    }

    /**
     * Mounting with earlier answers: the effect moves to `InitialIndex` and loads, into
     * the draft, the earlier answer to the question it was looking at (first question 0,
     * then the new index).
     */
    constructor (initial: seq<VoiceResponse>)
      requires WellFormed(initial) && InRange(initial)
      ensures Valid() && initialResponses == initial && responses == initial && !isVoiceInputOpen
      ensures initial == [] ==> currentQuestionIndex == 0 && editingAnswer == []
      ensures initial != [] ==> currentQuestionIndex == InitialIndex(initial)
      ensures initial != [] ==>
        editingAnswer == LoadEarlier(initial, InitialIndex(initial), LoadEarlier(initial, 0, []))
    {
      initialResponses := initial;
      responses := initial;
      isVoiceInputOpen := false;
      currentQuestionIndex := 0;
      editingAnswer := "";
      new;
      if initial != [] {
        InitialEffect();
        if currentQuestionIndex != 0 {
          InitialEffect();
        }
      }
    }

    /**
     * The effect on `[initialResponses, currentQuestionIndex]`: move to `InitialIndex`,
     * and load the earlier answer to the question being shown, if there is one.
     */
    method InitialEffect()
      requires Valid() && initialResponses != []
      modifies this
      ensures Valid()
      ensures currentQuestionIndex == InitialIndex(initialResponses)
      ensures editingAnswer == LoadEarlier(initialResponses, old(currentQuestionIndex), old(editingAnswer))
      ensures responses == old(responses) && isVoiceInputOpen == old(isVoiceInputOpen)
    {
      var shown := currentQuestionIndex;
      currentQuestionIndex := InitialIndex(initialResponses);
      var earlier := Find(initialResponses, shown);
      if earlier.Some? {
        editingAnswer := earlier.value.answer;
      }
    }

    /** The new response to the current question. */
    function NewResponse(answer: string): (r: VoiceResponse)
      requires Valid()
      reads this
      ensures r.questionIndex == currentQuestionIndex && r.question == REPORT_QUESTIONS[currentQuestionIndex]
      ensures r.answer == Trim(answer)
    {
      VoiceResponse(REPORT_QUESTIONS[currentQuestionIndex], Trim(answer), currentQuestionIndex)
    }

    /** The microphone button. */
    method OpenVoiceInput()
      modifies this
      ensures isVoiceInputOpen
      ensures responses == old(responses) && currentQuestionIndex == old(currentQuestionIndex)
      ensures editingAnswer == old(editingAnswer)
    {
      isVoiceInputOpen := true;
    }

    /** The overlay's cancel. */
    method CancelVoiceInput()
      modifies this
      ensures !isVoiceInputOpen
      ensures responses == old(responses) && currentQuestionIndex == old(currentQuestionIndex)
      ensures editingAnswer == old(editingAnswer)
    {
      isVoiceInputOpen := false;
    }

    /** Typing in the draft. */
    method EditDraft(text: string)
      modifies this
      ensures editingAnswer == text
      ensures responses == old(responses) && currentQuestionIndex == old(currentQuestionIndex)
      ensures isVoiceInputOpen == old(isVoiceInputOpen)
    {
      editingAnswer := text;
    }

    /**
     * `handleVoiceInputComplete`: a blank answer is ignored; otherwise the trimmed answer
     * is saved for the current question and the overlay closes. Before the last question
     * the collection then moves on with an empty draft (the delayed step is taken at
     * once); on the last question the draft holds the saved answer.
     */
    method VoiceInputComplete(answer: string)
      requires Valid()
      modifies this
      ensures Valid()
      ensures Trim(answer) == [] ==>
        responses == old(responses) && currentQuestionIndex == old(currentQuestionIndex)
        && editingAnswer == old(editingAnswer) && isVoiceInputOpen == old(isVoiceInputOpen)
      ensures Trim(answer) != [] ==>
        && responses == Upsert(old(responses), VoiceResponse(REPORT_QUESTIONS[old(currentQuestionIndex)], Trim(answer), old(currentQuestionIndex)))
        && !isVoiceInputOpen
        && (old(currentQuestionIndex) < LAST_QUESTION ==> currentQuestionIndex == old(currentQuestionIndex) + 1 && editingAnswer == [])
        && (old(currentQuestionIndex) == LAST_QUESTION ==> currentQuestionIndex == LAST_QUESTION && editingAnswer == Trim(answer))
    {
      if Trim(answer) == [] {
        return;
      }
      var r := NewResponse(answer);
      UpsertKeepsWellFormed(responses, r);
      responses := Upsert(responses, r);
      editingAnswer := Trim(answer);
      isVoiceInputOpen := false;
      if currentQuestionIndex < LAST_QUESTION {
        currentQuestionIndex := currentQuestionIndex + 1;
        editingAnswer := "";
      }
    }

    /**
     * `handleManualComplete`: the same save from the typed draft; before the last question
     * it moves on with an empty draft, on the last one the draft stays as typed.
     */
    method ManualComplete()
      requires Valid()
      modifies this
      ensures Valid() && isVoiceInputOpen == old(isVoiceInputOpen)
      ensures Trim(old(editingAnswer)) == [] ==>
        responses == old(responses) && currentQuestionIndex == old(currentQuestionIndex) && editingAnswer == old(editingAnswer)
      ensures Trim(old(editingAnswer)) != [] ==>
        && responses == Upsert(old(responses), VoiceResponse(REPORT_QUESTIONS[old(currentQuestionIndex)], Trim(old(editingAnswer)), old(currentQuestionIndex)))
        && (old(currentQuestionIndex) < LAST_QUESTION ==> currentQuestionIndex == old(currentQuestionIndex) + 1 && editingAnswer == [])
        && (old(currentQuestionIndex) == LAST_QUESTION ==> currentQuestionIndex == LAST_QUESTION && editingAnswer == old(editingAnswer))
    {
      if Trim(editingAnswer) == [] {
        return;
      }
      var r := NewResponse(editingAnswer);
      UpsertKeepsWellFormed(responses, r);
      responses := Upsert(responses, r);
      if currentQuestionIndex < LAST_QUESTION {
        currentQuestionIndex := currentQuestionIndex + 1;
        editingAnswer := "";
      }
    }

    /** `goToQuestion`: show question `index` with its saved answer, or an empty draft. */
    method GoToQuestion(index: int)
      requires Valid() && 0 <= index <= LAST_QUESTION
      modifies this
      ensures Valid()
      ensures currentQuestionIndex == index
      ensures editingAnswer == (match Find(responses, index) case Some(a) => a.answer case None => [])
      ensures responses == old(responses) && isVoiceInputOpen == old(isVoiceInputOpen)
    {
      currentQuestionIndex := index;
      var existing := Find(responses, index);
      editingAnswer := if existing.Some? then existing.value.answer else "";
    }

    /**
     * `goToQuestion` as it behaves when earlier answers were given: the index change
     * re-runs the initial effect, which moves back to `InitialIndex` (and runs once
     * more for that change).
     */
    method GoToQuestionAsWritten(index: int)
      requires Valid() && 0 <= index <= LAST_QUESTION
      modifies this
      ensures Valid()
      ensures initialResponses != [] && index != old(currentQuestionIndex) ==>
        currentQuestionIndex == InitialIndex(initialResponses)
      ensures initialResponses == [] || index == old(currentQuestionIndex) ==> currentQuestionIndex == index
      ensures responses == old(responses)
    {
      var before := currentQuestionIndex;
      GoToQuestion(index);
      if initialResponses != [] && currentQuestionIndex != before {
        var shown := currentQuestionIndex;
        InitialEffect();
        if currentQuestionIndex != shown {
          InitialEffect();
        }
      }
    }

    /**
     * The "confirm all" button, shown when there are as many responses as questions:
     * that is, exactly when every question has been answered.
     */
    function CanConfirmAll(): (b: bool)
      requires Valid()
      reads this
      ensures b <==> forall q :: 0 <= q <= LAST_QUESTION ==> Answered(responses, q)
    {
      CountMeansAllAnswered(responses);
      |responses| == |REPORT_QUESTIONS|
    }
  }

  /**
   * Coming back with all five answers and asking for the first question: as written,
   * the collection snaps back to the last question.
   */
  method NavigationSnapsBack(answers: seq<string>) returns (shown: int)
    requires |answers| == |REPORT_QUESTIONS|
    ensures shown == LAST_QUESTION
  {
    var initial := seq(5, k requires 0 <= k < 5 => VoiceResponse(REPORT_QUESTIONS[k], answers[k], k));
    assert initial[LAST_QUESTION].questionIndex == LAST_QUESTION;
    var c := new AnswerCollector(initial);
    c.GoToQuestionAsWritten(0);
    shown := c.currentQuestionIndex;
  }

  /** The intended navigation: asking for the first question shows the first question. */
  method NavigationReachesQuestion(answers: seq<string>, index: int) returns (shown: int)
    requires |answers| == |REPORT_QUESTIONS| && 0 <= index <= LAST_QUESTION
    ensures shown == index
  {
    var initial := seq(5, k requires 0 <= k < 5 => VoiceResponse(REPORT_QUESTIONS[k], answers[k], k));
    var c := new AnswerCollector(initial);
    c.GoToQuestion(index);
    shown := c.currentQuestionIndex;
  }
}
