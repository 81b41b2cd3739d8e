/**
 * The report preview (src/components/ReportPreview.tsx): the formatted report, an
 * edit buffer, and the payload handed to the page on submit. The rendered date of
 * today is an input.
 */
module ReportPreview {
  import opened ReportTypes
  import ReportFormatter

  /** What `onSubmit` receives. */
  datatype SubmitPayload = SubmitPayload(formattedReport: string, rawResponses: seq<VoiceResponse>)

  class Preview {
    const responses: seq<VoiceResponse>
    const staff: Staff
    /** Today's date as `formatReport` renders it. */
    const formattedDate: string
    var isEditing: bool
    var editedReport: string
    var isSubmitting: bool

    /** The report rendered from the responses, freshly on every render. */
    function FormattedReport(): string {
      ReportFormatter.FormatReport(responses, staff.name, formattedDate)
    }

    constructor (responses: seq<VoiceResponse>, staff: Staff, formattedDate: string)
      ensures this.responses == responses && this.staff == staff && this.formattedDate == formattedDate
      ensures !isEditing && editedReport == [] && !isSubmitting
    {
      this.responses := responses;
      this.staff := staff;
      this.formattedDate := formattedDate;
      isEditing := false;
      editedReport := "";
      isSubmitting := false;
    }

    /** `handleEditToggle`: entering edit mode loads the formatted report; leaving keeps the buffer. */
    method EditToggle()
      modifies this
      ensures isEditing == !old(isEditing)
      ensures editedReport == if old(isEditing) then old(editedReport) else FormattedReport()
      ensures isSubmitting == old(isSubmitting)
    {
      if !isEditing {
        editedReport := FormattedReport();
      }
      isEditing := !isEditing;
    }

    /** Typing in the edit buffer. */
    method EditText(text: string)
      modifies this
      ensures editedReport == text && isEditing == old(isEditing) && isSubmitting == old(isSubmitting)
    {
      editedReport := text;
    }

    /** `handleSaveEdit`: the buffer goes to `onEdit` and edit mode ends. */
    method SaveEdit() returns (saved: string)
      modifies this
      ensures saved == old(editedReport) && !isEditing
      ensures editedReport == old(editedReport) && isSubmitting == old(isSubmitting)
    {
      saved := editedReport;
      isEditing := false;
    }

    /** The cancel button: edit mode ends and nothing is reported. */
    method CancelEdit()
      modifies this
      ensures !isEditing && editedReport == old(editedReport) && isSubmitting == old(isSubmitting)
    {
      isEditing := false;
    }

    /**
     * `handleSubmit` up to its `await`: submission starts, and the payload carries the
     * buffer only while editing, otherwise the freshly formatted report.
     */
    method BeginSubmit() returns (payload: SubmitPayload)
      modifies this
      ensures isSubmitting
      ensures payload.formattedReport == if isEditing then editedReport else FormattedReport()
      ensures payload.rawResponses == responses
      ensures isEditing == old(isEditing) && editedReport == old(editedReport)
    {
      isSubmitting := true;
      payload := SubmitPayload(if isEditing then editedReport else FormattedReport(), responses);
    }

    /** `handleSubmit` after its `await`: submission ends whether or not `onSubmit` threw. */
    method EndSubmit(threw: bool)
      modifies this
      ensures !isSubmitting
      ensures isEditing == old(isEditing) && editedReport == old(editedReport)
    {
      isSubmitting := false;
    }
  }

  /**
   * A saved edit is not what gets submitted: after Save leaves edit mode, the payload
   * is the formatted report again.
   */
  method SavedEditIsNotSubmitted(responses: seq<VoiceResponse>, staff: Staff, formattedDate: string, text: string)
      returns (saved: string, payload: SubmitPayload)
    ensures saved == text
    ensures payload.formattedReport == ReportFormatter.FormatReport(responses, staff.name, formattedDate)
    ensures payload.rawResponses == responses
  {
    var p := new Preview(responses, staff, formattedDate);
    p.EditToggle();
    p.EditText(text);
    saved := p.SaveEdit();
    payload := p.BeginSubmit();
    p.EndSubmit(false);
  }
}
