/**
 * The report wizard (src/app/report/page.tsx): name selection, voice input, preview
 * and completion, with the store's insert outcome and today's date as inputs.
 */
module ReportPage {
  import opened Wrappers
  import opened ReportTypes
  import ReportPreview

  datatype Step = NameSelection | VoiceInputStep | PreviewStep | Completed

  /** Position of a step along the wizard. */
  function Rank(step: Step): nat {
    match step
    case NameSelection => 0
    case VoiceInputStep => 1
    case PreviewStep => 2
    case Completed => 3
  }

  /** One step indicator's flags. */
  datatype Indicator = Indicator(active: bool, completed: bool)

  /**
   * The flags of indicator `n` (1 to 3) as the page computes them; indicator `n` is
   * active on the `n`-th step and completed once the wizard is past it.
   */
  function StepIndicator(step: Step, n: nat): (ind: Indicator)
    requires 1 <= n <= 3
    ensures ind.active <==> Rank(step) == n - 1
    ensures ind.completed <==> Rank(step) >= n
  {
    if n == 1 then Indicator(step == NameSelection, step != NameSelection)
    else if n == 2 then Indicator(step == VoiceInputStep, step == PreviewStep || step == Completed)
    else Indicator(step == PreviewStep, step == Completed)
  }

  /** No indicator is both active and completed, at most one is active, and completion is monotone. */
  lemma IndicatorsConsistent(step: Step, n: nat, m: nat)
    requires 1 <= n <= 3 && 1 <= m <= 3
    ensures !(StepIndicator(step, n).active && StepIndicator(step, n).completed)
    ensures StepIndicator(step, n).active && StepIndicator(step, m).active ==> n == m
    ensures n <= m && StepIndicator(step, m).completed ==> StepIndicator(step, n).completed
  {
  }

  /** The message shown when the insert fails. */
  const SUBMIT_ERROR: string := "日報の送信に失敗しました"

  /** The row sent to the `reports` table. */
  datatype ReportInsert = ReportInsert(staffId: string, date: string, rawResponses: seq<VoiceResponse>, formattedReport: string)

  class Page {
    var step: Step
    var selectedStaff: Option<Staff>
    var responses: seq<VoiceResponse>
    var error: Option<string>

    /** The wizard starts at name selection with nothing chosen. */
    constructor ()
      ensures step == NameSelection && selectedStaff == None && responses == [] && error == None
    {
      step := NameSelection;
      selectedStaff := None;
      responses := [];
      error := None;
    }

    /** `handleNameSelect`. */
    method NameSelect(staff: Staff)
      modifies this
      ensures selectedStaff == Some(staff) && step == VoiceInputStep
      ensures responses == old(responses) && error == old(error)
    {
      selectedStaff := Some(staff);
      step := VoiceInputStep;
    }

    /** `handleVoiceComplete`. */
    method VoiceComplete(voiceResponses: seq<VoiceResponse>)
      modifies this
      ensures responses == voiceResponses && step == PreviewStep
      ensures selectedStaff == old(selectedStaff) && error == old(error)
    {
      responses := voiceResponses;
      step := PreviewStep;
    }

    /**
     * `handleReportSubmit`: without a selected staff member nothing happens; otherwise the
     * row is sent, and the wizard completes on success or shows an error on failure.
     */
    method ReportSubmit(payload: ReportPreview.SubmitPayload, today: string, insertSucceeds: bool)
        returns (sent: Option<ReportInsert>)
      modifies this
      ensures old(selectedStaff) == None ==> sent == None && step == old(step) && error == old(error)
      ensures old(selectedStaff).Some? ==>
        sent == Some(ReportInsert(old(selectedStaff).value.id, today, payload.rawResponses, payload.formattedReport))
      ensures old(selectedStaff).Some? && insertSucceeds ==> step == Completed && error == old(error)
      ensures old(selectedStaff).Some? && !insertSucceeds ==> step == old(step) && error == Some(SUBMIT_ERROR)
      ensures selectedStaff == old(selectedStaff) && responses == old(responses)
    {
      if selectedStaff == None {
        return None;
      }
      sent := Some(ReportInsert(selectedStaff.value.id, today, payload.rawResponses, payload.formattedReport));
      if insertSucceeds {
        step := Completed;
      } else {
        error := Some(SUBMIT_ERROR);
      }
    }

    /** `handleBackToVoiceInput`: back to the questions, which receive the kept responses. */
    method BackToVoiceInput()
      modifies this
      ensures step == VoiceInputStep
      ensures responses == old(responses) && selectedStaff == old(selectedStaff) && error == old(error)
    {
      step := VoiceInputStep;
    }

    /** `handleStartOver`: everything back to the initial state. */
    method StartOver()
      modifies this
      ensures step == NameSelection && selectedStaff == None && responses == [] && error == None
    {
      step := NameSelection;
      selectedStaff := None;
      responses := [];
      error := None;
    }

    /** The error banner's close button. */
    method DismissError()
      modifies this
      ensures error == None
      ensures step == old(step) && selectedStaff == old(selectedStaff) && responses == old(responses)
    {
      error := None;
    }
  }

  /** A report that fails to store can be sent again from the preview, and then completes. */
  method RetryAfterFailure(staff: Staff, answers: seq<VoiceResponse>, payload: ReportPreview.SubmitPayload, today: string)
      returns (first: Option<ReportInsert>, second: Option<ReportInsert>, finalStep: Step)
    ensures first == second == Some(ReportInsert(staff.id, today, payload.rawResponses, payload.formattedReport))
    ensures finalStep == Completed
  {
    var page := new Page();
    page.NameSelect(staff);
    page.VoiceComplete(answers);
    first := page.ReportSubmit(payload, today, false);
    assert page.step == PreviewStep;
    second := page.ReportSubmit(payload, today, true);
    finalStep := page.step;
  }
}
