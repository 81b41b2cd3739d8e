/**
 * The question administration page (src/app/admin/questions/page.tsx): the list logic
 * of adding, editing, deleting and reordering questions, and the built-in fallback
 * list. Every store call is an input: its outcome (and the row it returns) is given.
 */
module AdminQuestions {
  import opened Wrappers
  import opened Text
  import opened ReportTypes

  /** A stored question; the field names follow the `questions` table. */
  datatype Question = Question(id: string, text: string, orderIndex: int, createdAt: string, updatedAt: string)

  /** One `order_index` update sent to the store. */
  datatype OrderUpdate = OrderUpdate(id: string, order: int)

  // ---------------------------------------------------------------------------
  // Fallback lists
  // ---------------------------------------------------------------------------

  const FALLBACK_PREFIX: string := "fallback-"
  const DEFAULT_PREFIX: string := "default-"

  /** The decimal rendering of a one-digit number. */
  function Digit(n: nat): (s: string)
    requires n < 10
    ensures |s| == 1 && '0' <= s[0] <= '9'
  {
    [('0' as int + n) as char]
  }

  /**
   * The list built from the five built-in questions when the table cannot be read:
   * question `i` gets id `<prefix><i>`, position `i + 1`, and the `i`-th built-in text.
   */
  function FallbackQuestions(prefix: string, now: string): (qs: seq<Question>)
    ensures |qs| == |REPORT_QUESTIONS|
    ensures forall i :: 0 <= i < |qs| ==>
      qs[i].id == prefix + Digit(i) && qs[i].orderIndex == i + 1 && qs[i].text == REPORT_QUESTIONS[i]
  {
    seq(|REPORT_QUESTIONS|, i requires 0 <= i < |REPORT_QUESTIONS| =>
      Question(prefix + Digit(i), REPORT_QUESTIONS[i], i + 1, now, now))
  }

  /** Ids of the fallback lists mark them as not backed by the table. */
  predicate IsPlaceholderId(id: string) {
    StartsWith(id, FALLBACK_PREFIX) || StartsWith(id, DEFAULT_PREFIX)
  }

  /** Some entry of the list shown comes from a fallback list; adding is refused while one does. */
  predicate HasPlaceholder(qs: seq<Question>) {
    exists i :: 0 <= i < |qs| && IsPlaceholderId(qs[i].id)
  }

  /** Both fallback lists consist of placeholders only, with distinct ids. */
  lemma FallbackIsPlaceholder(prefix: string, now: string)
    requires prefix == FALLBACK_PREFIX || prefix == DEFAULT_PREFIX
    ensures var qs := FallbackQuestions(prefix, now);
      && (forall i :: 0 <= i < |qs| ==> IsPlaceholderId(qs[i].id))
      && (forall i, j :: 0 <= i < j < |qs| ==> qs[i].id != qs[j].id)
      && HasPlaceholder(qs)
  {
    var qs := FallbackQuestions(prefix, now);
    forall i | 0 <= i < |qs| ensures IsPlaceholderId(qs[i].id) {
      assert (prefix + Digit(i))[..|prefix|] == prefix;
    }
    forall i, j | 0 <= i < j < |qs| ensures qs[i].id != qs[j].id {
      assert qs[i].id[|prefix|] == Digit(i)[0] != Digit(j)[0] == qs[j].id[|prefix|];
    }
    assert IsPlaceholderId(qs[0].id);
  }

  // ---------------------------------------------------------------------------
  // Add, update, delete
  // ---------------------------------------------------------------------------

  /** `Math.max(...questions.map(q => q.order_index), 0)`. */
  function MaxOrder(qs: seq<Question>): (m: int)
    ensures m >= 0
    ensures forall i :: 0 <= i < |qs| ==> qs[i].orderIndex <= m
    ensures m == 0 || exists i :: 0 <= i < |qs| && qs[i].orderIndex == m
  {
    if qs == [] then 0
    else
      var rest := MaxOrder(qs[1..]);
      assert forall i :: 1 <= i < |qs| ==> qs[i] == qs[1..][i - 1];
      if qs[0].orderIndex > rest then qs[0].orderIndex else rest
  }

  /** The row the store returns for an insert of (`text`, `order`) under the id it assigned. */
  function InsertedRow(id: string, text: string, order: int, createdAt: string, updatedAt: string): Question {
    Question(id, text, order, createdAt, updatedAt)
  }

  /** The list after a successful add: the stored row, with trimmed text and the next position, at the end. */
  function AddedList(qs: seq<Question>, text: string, id: string, createdAt: string, updatedAt: string): (r: seq<Question>)
    ensures |r| == |qs| + 1 && r[..|qs|] == qs
    ensures r[|qs|] == Question(id, Trim(text), MaxOrder(qs) + 1, createdAt, updatedAt)
    ensures r[|qs|].orderIndex > 0
    ensures forall i :: 0 <= i < |qs| ==> qs[i].orderIndex < r[|qs|].orderIndex
  {
    qs + [InsertedRow(id, Trim(text), MaxOrder(qs) + 1, createdAt, updatedAt)]
  }

  /** The list after a successful edit: the entries with the edited question's id become it, stamped `now`. */
  function UpdatedList(qs: seq<Question>, edited: Question, now: string): (r: seq<Question>)
    ensures |r| == |qs|
    ensures forall i :: 0 <= i < |qs| ==> r[i] == if qs[i].id == edited.id then edited.(updatedAt := now) else qs[i]
  {
    seq(|qs|, i requires 0 <= i < |qs| => if qs[i].id == edited.id then edited.(updatedAt := now) else qs[i])
  }

  /** An edit keeps every id where it was. */
  lemma UpdateKeepsIds(qs: seq<Question>, edited: Question, now: string)
    ensures Ids(UpdatedList(qs, edited, now)) == Ids(qs)
  {
  }

  /** The ids of a list, in order. */
  function Ids(qs: seq<Question>): (ids: seq<string>)
    ensures |ids| == |qs| && forall i :: 0 <= i < |qs| ==> ids[i] == qs[i].id
  {
    seq(|qs|, i requires 0 <= i < |qs| => qs[i].id)
  }

  /** `questions.filter(q => q.id !== id)`. */
  function DeletedList(qs: seq<Question>, id: string): (r: seq<Question>)
    ensures |r| <= |qs|
    ensures forall q :: q in r <==> q in qs && q.id != id
  {
    if qs == [] then []
    else if qs[0].id == id then DeletedList(qs[1..], id)
    else [qs[0]] + DeletedList(qs[1..], id)
  }

  /** Deleting works piecewise, so the remaining entries keep their relative order. */
  lemma {:induction false} DeleteKeepsOrder(xs: seq<Question>, ys: seq<Question>, id: string)
    ensures DeletedList(xs + ys, id) == DeletedList(xs, id) + DeletedList(ys, id)
  {
    if xs == [] {
      assert xs + ys == ys;
    } else {
      assert (xs + ys)[1..] == xs[1..] + ys;
      DeleteKeepsOrder(xs[1..], ys, id);
      if xs[0].id != id {
        calc {
          DeletedList(xs + ys, id);
          [xs[0]] + DeletedList(xs[1..] + ys, id);
          [xs[0]] + (DeletedList(xs[1..], id) + DeletedList(ys, id));
          ([xs[0]] + DeletedList(xs[1..], id)) + DeletedList(ys, id);
        }
      }
    }
  }

  /** Deleting an id that is not in the list changes nothing. */
  lemma {:induction false} DeleteMissing(qs: seq<Question>, id: string)
    requires forall i :: 0 <= i < |qs| ==> qs[i].id != id
    ensures DeletedList(qs, id) == qs
  {
    if qs != [] {
      DeleteMissing(qs[1..], id);
    }
  }

  // ---------------------------------------------------------------------------
  // Reorder
  // ---------------------------------------------------------------------------

  /** `questions.findIndex(q => q.id === id)`: the first position holding `id`, or -1. */
  function FindById(qs: seq<Question>, id: string): (i: int)
    ensures -1 <= i < |qs|
    ensures 0 <= i ==> qs[i].id == id
    ensures forall j :: 0 <= j < (if i < 0 then |qs| else i) ==> qs[j].id != id
  {
    if qs == [] then -1
    else if qs[0].id == id then 0
    else var i := FindById(qs[1..], id); if i < 0 then -1 else i + 1
  }

  /** Every entry's position is stored as its index plus one. */
  function Renumbered(qs: seq<Question>): (r: seq<Question>)
    ensures |r| == |qs|
    ensures forall k :: 0 <= k < |qs| ==> r[k] == qs[k].(orderIndex := k + 1)
  {
    seq(|qs|, k requires 0 <= k < |qs| => qs[k].(orderIndex := k + 1))
  }

  /** Entries `i` and `t` exchanged. */
  function Swapped(qs: seq<Question>, i: nat, t: nat): (r: seq<Question>)
    requires i < |qs| && t < |qs|
    ensures |r| == |qs| && r[i] == qs[t] && r[t] == qs[i]
    ensures forall k :: 0 <= k < |qs| && k != i && k != t ==> r[k] == qs[k]
  {
    qs[i := qs[t]][t := qs[i]]
  }

  /** The list after a successful move: `i` and `t` swapped, then every position renumbered. */
  function MovedList(qs: seq<Question>, i: nat, t: nat): (r: seq<Question>)
    requires i < |qs| && t < |qs|
    ensures |r| == |qs| && r[i].id == qs[t].id && r[t].id == qs[i].id
    ensures r[i].text == qs[t].text && r[t].text == qs[i].text
    ensures forall k :: 0 <= k < |qs| && k != i && k != t ==> r[k].id == qs[k].id && r[k].text == qs[k].text
    ensures forall k :: 0 <= k < |qs| ==> r[k].orderIndex == k + 1
  {
    Renumbered(Swapped(qs, i, t))
  }

  /** The `order_index` update for every entry of the swapped list. */
  function Updates(qs: seq<Question>): (u: seq<OrderUpdate>)
    ensures |u| == |qs| && forall k :: 0 <= k < |qs| ==> u[k] == OrderUpdate(qs[k].id, k + 1)
  {
    seq(|qs|, k requires 0 <= k < |qs| => OrderUpdate(qs[k].id, k + 1))
  }

  /** A swap permutes the list; renumbering changes positions only. */
  lemma MoveIsPermutation(qs: seq<Question>, i: nat, t: nat)
    requires i < |qs| && t < |qs|
    ensures multiset(Ids(MovedList(qs, i, t))) == multiset(Ids(qs))
    ensures forall k :: 0 <= k < |qs| ==> MovedList(qs, i, t)[k].orderIndex == k + 1
  {
    var s := Swapped(qs, i, t);
    assert Ids(MovedList(qs, i, t)) == Ids(s);
    var ids := Ids(qs);
    if i != t {
      assert Ids(s) == ids[i := ids[t]][t := ids[i]];
      SwapMultiset(ids, i, t);
    } else {
      assert Ids(s) == ids;
    }
  }

  lemma SwapMultiset(xs: seq<string>, i: nat, t: nat)
    requires i < |xs| && t < |xs| && i != t
    ensures multiset(xs[i := xs[t]][t := xs[i]]) == multiset(xs)
  {
    var a := xs[i := xs[t]];
    assert multiset(a) == multiset(xs) - multiset{xs[i]} + multiset{xs[t]};
    assert a[t] == xs[t];
    assert multiset(a[t := xs[i]]) == multiset(a) - multiset{xs[t]} + multiset{xs[i]};
  }

  /** Position of the first update the store rejected, or the number of updates if none was. */
  function FirstFailure(updateOk: seq<bool>): (k: nat)
    ensures k <= |updateOk|
    ensures k < |updateOk| ==> !updateOk[k]
    ensures forall j :: 0 <= j < k ==> updateOk[j]
  {
    if updateOk == [] then 0
    else if !updateOk[0] then 0
    else 1 + FirstFailure(updateOk[1..])
  }

  /** `newQuestions.map((q, index) => ({ id: q.id, order: index + 1 }))` over the array. */
  method OrderUpdates(a: array<Question>) returns (updates: seq<OrderUpdate>)
    ensures updates == Updates(a[..])
  {
    updates := [];
    var k := 0;
    while k < a.Length
      invariant 0 <= k <= a.Length
      invariant |updates| == k
      invariant forall j :: 0 <= j < k ==> updates[j] == OrderUpdate(a[j].id, j + 1)
    {
      updates := updates + [OrderUpdate(a[k].id, k + 1)];
      k := k + 1;
    }
  }

  /**
   * The `for` loop over the updates: each is sent in order and the loop stops at the
   * first one the store rejects (`updateOk[k]` is the store's answer to update `k`).
   * `allSent` tells whether every update was accepted.
   */
  method SendUpdates(updates: seq<OrderUpdate>, updateOk: seq<bool>) returns (sent: seq<OrderUpdate>, allSent: bool)
    requires |updateOk| == |updates|
    ensures allSent <==> FirstFailure(updateOk) == |updates|
    ensures sent == updates[..if allSent then |updates| else FirstFailure(updateOk) + 1]
  {
    sent := [];
    var k := 0;
    while k < |updates|
      invariant 0 <= k <= |updates|
      invariant forall j :: 0 <= j < k ==> updateOk[j]
      invariant sent == updates[..k]
    {
      sent := sent + [updates[k]];
      if !updateOk[k] {
        assert k == FirstFailure(updateOk);
        return sent, false;
      }
      k := k + 1;
    }
    assert FirstFailure(updateOk) == |updates|;
    allSent := true;
  }

  /** `newQuestions.map((q, index) => ({ ...q, order_index: index + 1 }))`, written back into the array. */
  method RenumberInPlace(a: array<Question>)
    modifies a
    ensures a[..] == Renumbered(old(a[..]))
  {
    var k := 0;
    while k < a.Length
      invariant 0 <= k <= a.Length
      invariant forall j :: 0 <= j < k ==> a[j] == old(a[j]).(orderIndex := j + 1)
      invariant forall j :: k <= j < a.Length ==> a[j] == old(a[j])
    {
      a[k] := a[k].(orderIndex := k + 1);
      k := k + 1;
    }
  }

  /**
   * The body of `moveQuestion` once the guards passed: swap slots `i` and `t` of a copy,
   * send one update per entry in list order until the store rejects one, and on
   * success return the renumbered list. `updateOk[k]` is the store's answer to update `k`.
   */
  method Reorder(qs: seq<Question>, i: nat, t: nat, updateOk: seq<bool>)
      returns (result: Option<seq<Question>>, sent: seq<OrderUpdate>)
    requires i < |qs| && t < |qs| && |updateOk| == |qs|
    ensures var f := FirstFailure(updateOk);
      sent == Updates(Swapped(qs, i, t))[..if f < |qs| then f + 1 else |qs|]
    ensures result == if FirstFailure(updateOk) < |qs| then None else Some(MovedList(qs, i, t))
  {
    var copy := new Question[|qs|](k requires 0 <= k < |qs| => qs[k]);
    copy[i], copy[t] := copy[t], copy[i];
    assert copy[..] == Swapped(qs, i, t);

    var updates := OrderUpdates(copy);
    var allSent;
    sent, allSent := SendUpdates(updates, updateOk);
    if !allSent {
      return None, sent;
    }
    RenumberInPlace(copy);
    result := Some(copy[..]);
  }

  // ---------------------------------------------------------------------------
  // The page
  // ---------------------------------------------------------------------------

  /** How the initial `select` ended. */
  datatype FetchOutcome =
    | Fetched(rows: seq<Question>)
      /** The `select` reported an error; the table probe then ran. */
    | SelectFailed(probe: ProbeOutcome)
    | FetchThrew

  /** The probe `select('id').limit(1)`: it returned data, returned none, or threw. */
  datatype ProbeOutcome = ProbeData | ProbeNoData | ProbeThrew

  /** How an insert ended: the row's store-assigned fields, or a failure. */
  datatype InsertOutcome = Inserted(id: string, createdAt: string, updatedAt: string) | InsertFailed

  const FALLBACK_ERROR: string := "質問テーブルが見つかりません。デフォルト質問を表示しています。"
  const MISSING_TABLE_ERROR: string := "questionsテーブルが設定されていません。Supabaseでテーブルを作成してください。"
  const CONNECTION_ERROR: string := "データベース接続に問題があります"
  const ADD_REFUSED_ERROR: string := "questionsテーブルを作成してから質問を追加してください"
  const ADD_ERROR: string := "質問の追加に失敗しました"
  const UPDATE_ERROR: string := "質問の更新に失敗しました"
  const DELETE_ERROR: string := "質問の削除に失敗しました"
  const MOVE_ERROR: string := "質問の順序変更に失敗しました"

  class QuestionsPage {
    var questions: seq<Question>
    var loading: bool
    var error: Option<string>
    var editingQuestion: Option<Question>
    var newQuestionText: string
    var isAddingNew: bool

    constructor ()
      ensures questions == [] && loading && error == None && editingQuestion == None
      ensures newQuestionText == [] && !isAddingNew
    {
      questions := [];
      loading := true;
      error := None;
      editingQuestion := None;
      newQuestionText := "";
      isAddingNew := false;
    }

    /**
     * `fetchQuestions`: the rows on success; on a `select` error, the `default-` list
     * when the probe finds no data, or a connection error when it throws; on an
     * exception, the `fallback-` list. Loading ends in every case.
     */
    method FetchQuestions(outcome: FetchOutcome, now: string)
      modifies this
      ensures !loading
      ensures outcome.Fetched? ==> questions == outcome.rows && error == old(error)
      ensures outcome == SelectFailed(ProbeNoData) ==>
        questions == FallbackQuestions(DEFAULT_PREFIX, now) && error == Some(MISSING_TABLE_ERROR)
      ensures outcome == SelectFailed(ProbeData) ==> questions == old(questions) && error == old(error)
      ensures outcome == SelectFailed(ProbeThrew) ==> questions == old(questions) && error == Some(CONNECTION_ERROR)
      ensures outcome.FetchThrew? ==> questions == FallbackQuestions(FALLBACK_PREFIX, now) && error == Some(FALLBACK_ERROR)
      ensures editingQuestion == old(editingQuestion) && newQuestionText == old(newQuestionText)
      ensures isAddingNew == old(isAddingNew)
    {
      match outcome {
        case Fetched(rows) =>
          questions := rows;
        case SelectFailed(probe) =>
          match probe {
            case ProbeNoData =>
              questions := FallbackQuestions(DEFAULT_PREFIX, now);
              error := Some(MISSING_TABLE_ERROR);
            case ProbeData =>
            case ProbeThrew =>
              error := Some(CONNECTION_ERROR);
          }
        case FetchThrew =>
          questions := FallbackQuestions(FALLBACK_PREFIX, now);
          error := Some(FALLBACK_ERROR);
      }
      loading := false;
    }

    /**
     * `addQuestion`: blank text is ignored; while a placeholder list is shown the add
     * is refused; otherwise the stored row is appended and the form resets, or an
     * error is shown when the insert fails.
     */
    method AddQuestion(outcome: InsertOutcome)
      modifies this
      ensures Trim(old(newQuestionText)) == [] ==>
        questions == old(questions) && error == old(error) && newQuestionText == old(newQuestionText) && isAddingNew == old(isAddingNew)
      ensures Trim(old(newQuestionText)) != [] && HasPlaceholder(old(questions)) ==>
        && questions == old(questions) && error == Some(ADD_REFUSED_ERROR)
        && newQuestionText == old(newQuestionText) && isAddingNew == old(isAddingNew)
      ensures Trim(old(newQuestionText)) != [] && !HasPlaceholder(old(questions)) && outcome.Inserted? ==>
        && questions == AddedList(old(questions), old(newQuestionText), outcome.id, outcome.createdAt, outcome.updatedAt)
        && newQuestionText == [] && !isAddingNew && error == old(error)
      ensures Trim(old(newQuestionText)) != [] && !HasPlaceholder(old(questions)) && outcome.InsertFailed? ==>
        && questions == old(questions) && error == Some(ADD_ERROR)
        && newQuestionText == old(newQuestionText) && isAddingNew == old(isAddingNew)
      ensures editingQuestion == old(editingQuestion) && loading == old(loading)
    {
      if Trim(newQuestionText) == [] {
        return;
      }
      if HasPlaceholder(questions) {
        error := Some(ADD_REFUSED_ERROR);
        return;
      }
      match outcome {
        case Inserted(id, createdAt, updatedAt) =>
          questions := AddedList(questions, newQuestionText, id, createdAt, updatedAt);
          newQuestionText := "";
          isAddingNew := false;
        case InsertFailed =>
          error := Some(ADD_ERROR);
      }
    }

    /** `updateQuestion`: on success the matching entries become the edited question and editing ends. */
    method UpdateQuestion(edited: Question, now: string, updateSucceeds: bool)
      modifies this
      ensures updateSucceeds ==> questions == UpdatedList(old(questions), edited, now) && editingQuestion == None && error == old(error)
      ensures !updateSucceeds ==> questions == old(questions) && editingQuestion == old(editingQuestion) && error == Some(UPDATE_ERROR)
      ensures newQuestionText == old(newQuestionText) && isAddingNew == old(isAddingNew) && loading == old(loading)
    {
      if updateSucceeds {
        questions := UpdatedList(questions, edited, now);
        editingQuestion := None;
      } else {
        error := Some(UPDATE_ERROR);
      }
    }

    /** `deleteQuestion`: nothing without the user's confirmation; on success the entries with that id go. */
    method DeleteQuestion(id: string, confirmed: bool, deleteSucceeds: bool)
      modifies this
      ensures !confirmed ==> questions == old(questions) && error == old(error)
      ensures confirmed && deleteSucceeds ==> questions == DeletedList(old(questions), id) && error == old(error)
      ensures confirmed && !deleteSucceeds ==> questions == old(questions) && error == Some(DELETE_ERROR)
      ensures editingQuestion == old(editingQuestion) && newQuestionText == old(newQuestionText)
      ensures isAddingNew == old(isAddingNew) && loading == old(loading)
    {
      if !confirmed {
        return;
      }
      if deleteSucceeds {
        questions := DeletedList(questions, id);
      } else {
        error := Some(DELETE_ERROR);
      }
    }

    /**
     * `moveQuestion`: nothing for an unknown id or a neighbour outside the list;
     * otherwise the entry trades places with its neighbour and positions are renumbered,
     * unless the store rejects one of the updates, which leaves the list as it was.
     */
    method MoveQuestion(id: string, up: bool, updateOk: seq<bool>) returns (sent: seq<OrderUpdate>)
      requires |updateOk| == |questions|
      modifies this
      ensures var i := FindById(old(questions), id);
        var t := if up then i - 1 else i + 1;
        if i < 0 || t < 0 || t >= |old(questions)| then
          questions == old(questions) && error == old(error) && sent == []
        else if FirstFailure(updateOk) < |old(questions)| then
          && questions == old(questions) && error == Some(MOVE_ERROR)
          && sent == Updates(Swapped(old(questions), i, t))[..FirstFailure(updateOk) + 1]
        else
          && questions == MovedList(old(questions), i, t) && error == old(error)
          && sent == Updates(Swapped(old(questions), i, t))
      ensures editingQuestion == old(editingQuestion) && newQuestionText == old(newQuestionText)
      ensures isAddingNew == old(isAddingNew) && loading == old(loading)
    {
      var i := FindById(questions, id);
      if i == -1 {
        return [];
      }
      var t := if up then i - 1 else i + 1;
      if t < 0 || t >= |questions| {
        return [];
      }
      var result;
      result, sent := Reorder(questions, i, t, updateOk);
      match result {
        case Some(moved) => questions := moved;
        case None => error := Some(MOVE_ERROR);
      }
    }
  }
}
