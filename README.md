# Salon daily report: a Dafny model

This project models the browser-side logic of a salon's daily-report application. A
staff member picks their name and answers five fixed questions, by voice or by typing.
Each final speech-recognition result is sent to a text-correction service, and the
corrected pieces are joined into the answer. The answers are formatted into a
plain-text report, which can be edited and reviewed before it is stored.
Administrators see the stored reports, filtered by date with three counters, and
maintain the list of questions.

One Dafny module per source file:

- `Speech` (`src/lib/speech.ts`): the recognizer wrapper's `isListening` flag, and the
  loop that folds a results window into one `(transcript, isFinal)` event.
- `Gemini` (`src/lib/gemini.ts`): `correctTranscription`. It skips short inputs, trims
  the reply, and falls back to the raw text on any error.
- `VoiceInputAqua` (`src/components/VoiceInputAqua.tsx`): the dictation overlay, a
  class `CaptureSession`. The source awaits each correction inside the result
  callback, so the model splits that callback into two events. `OnResult` accepts a
  final and records the call as in flight. `CompleteCorrection` delivers that call's
  outcome. Calls may complete in any order.
- `VoiceInput` (`src/components/VoiceInput.tsx`): the answer collection, a class
  `AnswerCollector`. It covers the upsert keyed by question index, the stable sort,
  the moves between questions and the initial-index effect.
- `ReportFormatter` (`src/lib/reportFormatter.ts`): `formatReport`.
- `ReportPreview` (`src/components/ReportPreview.tsx`): the edit buffer and the submit
  payload.
- `ReportPage` (`src/app/report/page.tsx`): the four-step wizard and its step
  indicators.
- `AdminQuestions` (`src/app/admin/questions/page.tsx`): the list logic of adding,
  editing, deleting and reordering questions, and the fallback lists. The reorder
  keeps the source's array copy and loops.
- `AdminReportList` (`src/components/AdminReportList.tsx`): the date filter and the
  today/month/total counters.
- Shared modules: `Text` (ECMAScript `trim`, `startsWith`, `slice` and `join` on
  `seq<char>`), `ReportTypes` (`src/types/report.ts`) and `Wrappers` (`Option`).

Every call to the data store, the correction service or the browser is an input to
the model: its outcome is a parameter. The same holds for the clock (today's date,
the current ISO timestamp) and the user's `confirm` answer.

Three behaviours of the code are worth stating plainly, because a reader might expect otherwise:

- **Segment order.** Each corrected segment is appended when its correction completes (`src/components/VoiceInputAqua.tsx:82-89`). Nothing holds back an early completion until the calls before it finish. Segments therefore appear in completion order, while their ids follow creation order. `VoiceInputAqua.CompletionOrderScenario` proves this.
- **No cancellation.** In-flight calls carry no session tag, and `handleClear` (`src/components/VoiceInputAqua.tsx:139-143`) does not discard them. A completion that arrives after a clear still appends its segment.
- **No edit flag.** The answer buffer has no "manually edited" marker. The only text the overlay hands on is the joined segments.

## Model

| member | source | states |
|---|---|---|
| Text.Trim | src/lib/gemini.ts:9 | `trim` never lengthens its input |
| Text.TrimStartSpec | src/components/VoiceInputAqua.tsx:68 | `trimStart` removes exactly a blank prefix; what remains does not start with white space |
| Text.TrimEndSpec | src/components/VoiceInputAqua.tsx:68 | `trimEnd` removes exactly a blank suffix; what remains does not end with white space |
| Text.TrimSpec | src/components/VoiceInputAqua.tsx:68 | `trim` returns the infix left after stripping blank ends; it neither starts nor ends with white space |
| Text.TrimEmptyIffBlank | src/components/VoiceInput.tsx:33 | `!s.trim()` holds exactly when every character of `s` is white space |
| Text.TrimIdempotent | src/lib/gemini.ts:33 | trimming a trimmed string changes nothing |
| Text.Prefix | src/components/AdminReportList.tsx:123 | `slice(0, n)` has length `min(n, |s|)` and is a prefix of `s` |
| Text.Join | src/components/VoiceInputAqua.tsx:135 | joining no strings gives ""; joining one string gives that string |
| Text.JoinSnoc | src/components/VoiceInputAqua.tsx:135 | adding one more element to a join adds the separator and that element |
| Gemini.CorrectTranscription | src/lib/gemini.ts:7-54 | the input comes back unchanged when it is empty or shorter than 3 after trimming; otherwise a reply is returned trimmed; a thrown error gives back the raw input |
| Gemini.NeverFails | src/lib/gemini.ts:36-53 | the result is always the raw input or the trimmed reply |
| Gemini.ShortInputIgnoresService | src/lib/gemini.ts:9-11 | for a short input the service's behaviour cannot change the result |
| Gemini.CallsServiceIffLongEnough | src/lib/gemini.ts:9 | the emptiness test is subsumed: the service is consulted iff the trimmed input has at least three characters |
| Gemini.ReplyIsTrimmed | src/lib/gemini.ts:33-35 | a corrected text never starts or ends with white space |
| Gemini.ErrorClassesAgree | src/lib/gemini.ts:40-52 | a temporary outage (503, 429, quota, unavailable) and any other error give the same result |
| Gemini.TransientErrorExamples | src/lib/gemini.ts:42-45 | messages containing `503`, `429`, `quota` or `unavailable` are classed as a temporary outage |
| Gemini.UnavailableIsCaseSensitive | src/lib/gemini.ts:42-45 | the test is case-sensitive: "Service Unavailable" alone is not classed as an outage |
| Speech.WindowTranscriptSnoc | src/lib/speech.ts:33-34 | one more result appends its first alternative to the window transcript |
| Speech.AnyFinalSnoc | src/lib/speech.ts:35-37 | one more result makes the window final iff it was final already or the new result is |
| Speech.AggregateResults | src/lib/speech.ts:29-41 | the loop returns the concatenated first alternatives from `resultIndex` on, and `isFinal` iff one of those results is final; an index past the end gives `""` and not final |
| Speech.FinalWindowMayHoldInterimText | src/lib/speech.ts:33-38 | a window with one interim and one final result yields a final event carrying both texts |
| Speech.Recognizer.constructor | src/lib/speech.ts:5-15 | the engine is present iff the window offers one; not listening |
| Speech.Recognizer.IsSupported | src/lib/speech.ts:17-19 | a wrapper that is listening always reports itself supported |
| Speech.Recognizer.StartListening | src/lib/speech.ts:21-27 | starts iff there is an engine and it was not listening; never listening without an engine |
| Speech.Recognizer.OnError | src/lib/speech.ts:43-46 | the error is reported to the caller and listening stops |
| Speech.Recognizer.OnEnd | src/lib/speech.ts:48-50 | listening stops |
| Speech.Recognizer.StopListening | src/lib/speech.ts:55-60 | stops the engine iff it was listening; afterwards not listening |
| Speech.Recognizer.GetIsListening | src/lib/speech.ts:62-64 | a wrapper that reports itself listening is a supported one |
| Speech.StopIsIdempotent | src/lib/speech.ts:55-60 | a second stop finds nothing to stop |
| VoiceInputAqua.SegmentText | src/components/VoiceInputAqua.tsx:74-100 | a completed call contributes the corrected text, or the trimmed transcript when the call threw; either way the raw text or a trimmed reply |
| VoiceInputAqua.Texts | src/components/VoiceInputAqua.tsx:135 | `segments.map(seg => seg.text)`: same length, element by element |
| VoiceInputAqua.AnswerText | src/components/VoiceInputAqua.tsx:135 | no segments give the empty answer, and one segment gives its own text; AnswerAfterAppend gives the rest |
| VoiceInputAqua.AnswerAfterAppend | src/components/VoiceInputAqua.tsx:135 | appending a segment extends the answer by one space and that segment's text |
| VoiceInputAqua.AppendKeepsIds | src/components/VoiceInputAqua.tsx:82-89 | a segment numbered by the counter keeps ids strictly increasing and below the bumped counter |
| VoiceInputAqua.IncreasingIdsAreDistinct | src/components/VoiceInputAqua.tsx:31 | counter-issued ids are pairwise distinct |
| VoiceInputAqua.CaptureSession.constructor | src/components/VoiceInputAqua.tsx:33-45 | a non-empty initial value seeds exactly one confirmed segment with id 0; otherwise no segments |
| VoiceInputAqua.CaptureSession.InitialValueChanged | src/components/VoiceInputAqua.tsx:33-45 | a changed initial value builds a new recognizer. A non-empty value replaces the segments by one seed with the next id. An empty value leaves the segments alone |
| VoiceInputAqua.CaptureSession.StartListening | src/components/VoiceInputAqua.tsx:54-62 | clears the preview, the error and the last accepted final; keeps the segments; marks the overlay listening |
| VoiceInputAqua.CaptureSession.OnResult | src/components/VoiceInputAqua.tsx:63-72 | every event overwrites the preview. A call starts iff the event is final, its trimmed text is non-empty, and its untrimmed text differs from the last accepted final. An accepted final becomes the last final, sets processing, and its trimmed text goes in flight. Segments, counter, listening flag, error and recognizer are unchanged |
| VoiceInputAqua.CaptureSession.CompleteCorrection | src/components/VoiceInputAqua.tsx:74-104 | exactly one confirmed segment with the next id goes at the end, holding `SegmentText`; earlier segments are unchanged; that call leaves the in-flight list; the preview is cleared and processing ends; listening flag, error, last final and recognizer are unchanged |
| VoiceInputAqua.CaptureSession.OnRecognizerError | src/components/VoiceInputAqua.tsx:107-110 | the prefixed error message is shown and listening stops |
| VoiceInputAqua.CaptureSession.OnRecognizerEnd | src/lib/speech.ts:48-50 | only the recognizer's flag drops; the overlay still shows itself listening |
| VoiceInputAqua.CaptureSession.StopListening | src/components/VoiceInputAqua.tsx:114-131 | listening stops. A non-blank preview becomes one trimmed, uncorrected segment, and the preview is cleared. A blank preview changes no segment |
| VoiceInputAqua.CaptureSession.Complete | src/components/VoiceInputAqua.tsx:133-137 | the answer is the segment texts joined by single spaces, as they were before the preview was promoted. The new state is that of `StopListening`: a non-blank preview becomes one segment with the next id, and the preview is cleared. Processing, in-flight calls, error, last final and recognizer are unchanged |
| VoiceInputAqua.CaptureSession.Clear | src/components/VoiceInputAqua.tsx:139-143 | segments, preview and last final are reset; the id counter, in-flight calls, flags, error and recognizer are not |
| VoiceInputAqua.TwoFinalsInFlight | src/components/VoiceInputAqua.tsx:63-72 | two different finals accepted in turn leave both trimmed texts in flight, in acceptance order |
| VoiceInputAqua.CompletionOrderScenario | src/components/VoiceInputAqua.tsx:74-104 | two corrections that complete in reverse order leave segments in completion order, with ids in creation order |
| VoiceInputAqua.RepeatedFinalScenario | src/components/VoiceInputAqua.tsx:68-69 | a final repeated at once is not corrected again; the same text after a different final is |
| VoiceInput.FindIndex | src/components/VoiceInput.tsx:42 | the first position answering the question, or -1 when none does |
| VoiceInput.FindIndexIs | src/components/VoiceInput.tsx:42 | the first matching position is the one returned |
| VoiceInput.Find | src/components/VoiceInput.tsx:93 | `find` returns nothing iff no response answers the question, and otherwise the first response that does |
| VoiceInput.FindIffAnswered | src/components/VoiceInput.tsx:93-94 | a saved answer is found iff some response answers the question |
| VoiceInput.Insert | src/components/VoiceInput.tsx:48 | insertion adds exactly the new response (multiset) |
| VoiceInput.InsertSorted | src/components/VoiceInput.tsx:48 | insertion into a sorted list keeps it sorted by question index |
| VoiceInput.SortByIndex | src/components/VoiceInput.tsx:48 | the sort is ordered by question index and a permutation of its input |
| VoiceInput.InsertKeepsWellFormed | src/components/VoiceInput.tsx:47-49 | a response for an unanswered question keeps the list strictly ordered |
| VoiceInput.SortSorted | src/components/VoiceInput.tsx:48 | the stable sort leaves a sorted list unchanged |
| VoiceInput.InsertLast | src/components/VoiceInput.tsx:48 | an element not smaller than any other is appended by the stable sort |
| VoiceInput.UpsertReplacesInPlace | src/components/VoiceInput.tsx:42-46 | an answered question's response is replaced at its position, nothing else changes |
| VoiceInput.UpsertKeepsWellFormed | src/components/VoiceInput.tsx:42-49 | the contract of `Upsert`, continued: the save keeps at most one response per question, in order, in range; the list grows only for a new question |
| VoiceInput.UpsertNewIsInsert | src/components/VoiceInput.tsx:47-49 | a new question's response lands at its sorted place |
| VoiceInput.UpsertIsMapUpdate | src/components/VoiceInput.tsx:41-51 | the contract of `Upsert`: after the save the question maps to the new response, and every other question's answer is as before |
| VoiceInput.FindInWellFormed | src/components/VoiceInput.tsx:93 | in a strictly ordered list the response holding a question index is the one found |
| VoiceInput.FindUnchangedByOtherSlot | src/components/VoiceInput.tsx:44-46 | replacing another question's slot does not change what is found for this one |
| VoiceInput.StrictBounds | src/components/VoiceInput.tsx:229 | a strictly ordered list within `[lo, hi]` has at most `hi - lo + 1` responses |
| VoiceInput.CountMeansAllAnswered | src/components/VoiceInput.tsx:229-238 | confirm-all is shown (five responses) exactly when all five questions are answered |
| VoiceInput.AtPositionWhenFull | src/components/VoiceInput.tsx:229 | a full list answers question `k` at position `k` |
| VoiceInput.AtPositionWhenCovered | src/components/VoiceInput.tsx:229 | answering questions 0 to `m` puts question `k` at position `k` |
| VoiceInput.MaxIndex | src/components/VoiceInput.tsx:21 | the largest answered index: no response is above it and one holds it |
| VoiceInput.InitialIndex | src/components/VoiceInput.tsx:20-22 | `min(max + 1, 4)`: below the cap it is past every earlier answer and the question before it is answered; at the cap some earlier answer is to question 3 or later |
| VoiceInput.LoadEarlier | src/components/VoiceInput.tsx:25-28 | the draft becomes the earlier answer to the question the effect looked at, if there is one; otherwise it is left as it was |
| VoiceInput.AnswerCollector.constructor | src/components/VoiceInput.tsx:13-30 | mounting without earlier answers shows question 0. With earlier answers it moves to `InitialIndex` and loads the earlier answers it looks up on the way |
| VoiceInput.AnswerCollector.InitialEffect | src/components/VoiceInput.tsx:18-30 | one run of the effect moves to `InitialIndex` and loads the earlier answer to the question being shown |
| VoiceInput.AnswerCollector.OpenVoiceInput | src/components/VoiceInput.tsx:132 | opens the overlay, nothing else changes |
| VoiceInput.AnswerCollector.CancelVoiceInput | src/components/VoiceInput.tsx:245 | closes the overlay, nothing else changes |
| VoiceInput.AnswerCollector.EditDraft | src/components/VoiceInput.tsx:147 | the draft becomes the typed text |
| VoiceInput.AnswerCollector.VoiceInputComplete | src/components/VoiceInput.tsx:32-62 | a blank answer changes nothing. Otherwise the trimmed answer is upserted and the overlay closes. Before the last question it moves on with an empty draft; on the last the draft keeps the answer |
| VoiceInput.AnswerCollector.ManualComplete | src/components/VoiceInput.tsx:64-89 | the same save from the typed draft; it advances with an empty draft except on the last question |
| VoiceInput.AnswerCollector.GoToQuestion | src/components/VoiceInput.tsx:91-95 | shows the chosen question with its saved answer, or an empty draft |
| VoiceInput.AnswerCollector.GoToQuestionAsWritten | src/components/VoiceInput.tsx:18-30 | with earlier answers, choosing another question ends back at `InitialIndex` |
| VoiceInput.AnswerCollector.CanConfirmAll | src/components/VoiceInput.tsx:229 | the button shown on a full count is offered exactly when every one of the five questions has been answered |
| VoiceInput.NavigationSnapsBack | src/components/VoiceInput.tsx:30 | with five earlier answers, asking for question 0 shows question 4 |
| VoiceInput.NavigationReachesQuestion | src/components/VoiceInput.tsx:91-95 | the intended navigation shows the chosen question |
| ReportFormatter.Blocks | src/lib/reportFormatter.ts:19-37 | header line, the five headings each with its section, then the closing section |
| ReportFormatter.FormatIsJoinedBlocks | src/lib/reportFormatter.ts:3-38 | the contract of `formatReport` (`FormatReport`): the report is exactly the seven blocks joined by blank lines |
| ReportFormatter.FormatFrame | src/lib/reportFormatter.ts:19-37 | the report starts with 【日報】, the date, a full-width space and the staff name; it ends with "■ その他・連絡事項\nなし" |
| ReportFormatter.LaterResponsesIgnored | src/lib/reportFormatter.ts:11-17 | responses after the fifth do not change the report |
| ReportFormatter.SectionsArePositional | src/lib/reportFormatter.ts:11-17 | two response lists with the same answers at the same positions give the same report, whatever question texts and indices they carry; positions without a response give empty sections |
| ReportFormatter.SingleAnswerLandsFirst | src/lib/reportFormatter.ts:11-12 | a single answer to the second question appears under the first heading, and the second section is empty |
| ReportPreview.Preview.constructor | src/components/ReportPreview.tsx:22-24 | not editing, empty buffer, not submitting |
| ReportPreview.Preview.EditToggle | src/components/ReportPreview.tsx:29-34 | entering edit mode copies the formatted report into the buffer; leaving keeps the buffer |
| ReportPreview.Preview.EditText | src/components/ReportPreview.tsx:72 | the buffer becomes the typed text |
| ReportPreview.Preview.SaveEdit | src/components/ReportPreview.tsx:36-39 | the buffer is handed to `onEdit` and edit mode ends |
| ReportPreview.Preview.CancelEdit | src/components/ReportPreview.tsx:84 | edit mode ends; nothing is reported |
| ReportPreview.Preview.BeginSubmit | src/components/ReportPreview.tsx:41-47 | submitting starts; the payload holds the buffer only while editing, otherwise the formatted report, and the responses unchanged |
| ReportPreview.Preview.EndSubmit | src/components/ReportPreview.tsx:48-52 | submitting ends whether or not `onSubmit` threw |
| ReportPreview.SavedEditIsNotSubmitted | src/components/ReportPreview.tsx:36-47 | after a save the submitted report is the formatted one, not the edit |
| ReportPage.StepIndicator | src/app/report/page.tsx:112-131 | indicator `n` is active iff the wizard is on step `n`, completed iff it is past it |
| ReportPage.IndicatorsConsistent | src/app/report/page.tsx:112-131 | no indicator is both active and completed; at most one is active; completion is monotone |
| ReportPage.Page.constructor | src/app/report/page.tsx:14-17 | name selection, no staff, no responses, no error |
| ReportPage.Page.NameSelect | src/app/report/page.tsx:20-23 | stores the staff member and moves to voice input |
| ReportPage.Page.VoiceComplete | src/app/report/page.tsx:25-28 | stores the responses and moves to the preview |
| ReportPage.Page.ReportSubmit | src/app/report/page.tsx:35-60 | without a staff member nothing happens. Otherwise the row (staff id, today, responses, text) is sent. Success completes the wizard; failure keeps the step and shows the error |
| ReportPage.Page.BackToVoiceInput | src/app/report/page.tsx:62-64 | back to voice input; the responses are kept and passed back |
| ReportPage.Page.StartOver | src/app/report/page.tsx:66-71 | back to the initial state |
| ReportPage.Page.DismissError | src/app/report/page.tsx:98 | the error is cleared, nothing else changes |
| ReportPage.RetryAfterFailure | src/app/report/page.tsx:35-60 | a failed submission can be repeated from the preview and then completes with the same row |
| AdminQuestions.FallbackQuestions | src/app/admin/questions/page.tsx:35-41 | five entries: entry `i` has id prefix + `i`, position `i + 1` and the `i`-th built-in question |
| AdminQuestions.FallbackIsPlaceholder | src/app/admin/questions/page.tsx:60-66 | both fallback lists consist of placeholder ids only, pairwise distinct, and are recognised by `HasPlaceholder` (the test of line 85), so adding is refused while one is shown |
| AdminQuestions.MaxOrder | src/app/admin/questions/page.tsx:91 | `Math.max(...orders, 0)`: at least 0, no entry above it, and 0 or held by an entry |
| AdminQuestions.AddedList | src/app/admin/questions/page.tsx:91-103 | the stored row goes at the end with the trimmed text and position `MaxOrder + 1`, which is above every existing one; the rest is unchanged |
| AdminQuestions.UpdatedList | src/app/admin/questions/page.tsx:125-127 | only entries with the edited id change, to the edited question stamped now |
| AdminQuestions.UpdateKeepsIds | src/app/admin/questions/page.tsx:125-127 | an edit keeps every id in place |
| AdminQuestions.DeletedList | src/app/admin/questions/page.tsx:147 | the result holds exactly the entries with another id |
| AdminQuestions.DeleteKeepsOrder | src/app/admin/questions/page.tsx:147 | deletion works piecewise, so the remaining entries keep their order |
| AdminQuestions.DeleteMissing | src/app/admin/questions/page.tsx:147 | deleting an absent id changes nothing |
| AdminQuestions.FindById | src/app/admin/questions/page.tsx:156 | the first position holding the id, or -1 |
| AdminQuestions.Swapped | src/app/admin/questions/page.tsx:162-163 | the two entries trade places; the others stay |
| AdminQuestions.Renumbered | src/app/admin/questions/page.tsx:181 | every entry's position becomes its index plus one; nothing else changes |
| AdminQuestions.MovedList | src/app/admin/questions/page.tsx:162-181 | the moved entry and its neighbour trade ids and texts, every other entry keeps its own, and positions run 1, 2, 3, ... |
| AdminQuestions.Updates | src/app/admin/questions/page.tsx:166-169 | one `(id, index + 1)` update per entry, in list order |
| AdminQuestions.MoveIsPermutation | src/app/admin/questions/page.tsx:162-181 | a move permutes the ids and numbers the positions 1, 2, 3, ... |
| AdminQuestions.FirstFailure | src/app/admin/questions/page.tsx:172-179 | the first rejected update: all before it were accepted |
| AdminQuestions.OrderUpdates | src/app/admin/questions/page.tsx:166-169 | the loop builds the per-entry updates of the swapped copy |
| AdminQuestions.SendUpdates | src/app/admin/questions/page.tsx:171-179 | updates are sent in order up to and including the first rejected one; all sent iff none was rejected |
| AdminQuestions.RenumberInPlace | src/app/admin/questions/page.tsx:181 | the array is renumbered in place |
| AdminQuestions.Reorder | src/app/admin/questions/page.tsx:162-185 | sends the updates of the swapped list until the first rejection. It returns nothing if one was rejected, otherwise the swapped and renumbered list |
| AdminQuestions.QuestionsPage.constructor | src/app/admin/questions/page.tsx:8-13 | empty list, loading, no error, no edit, empty form |
| AdminQuestions.QuestionsPage.FetchQuestions | src/app/admin/questions/page.tsx:17-74 | rows on success. A select error with no probe data gives the `default-` list and an error; one whose probe throws gives a connection error. An exception gives the `fallback-` list. Loading ends in every case |
| AdminQuestions.QuestionsPage.AddQuestion | src/app/admin/questions/page.tsx:81-110 | blank text is ignored, and a placeholder list refuses with an error. On success the row is appended (position `MaxOrder + 1`) and the form resets. On failure the list is unchanged and the error is shown. The form stays open in every branch but success |
| AdminQuestions.QuestionsPage.UpdateQuestion | src/app/admin/questions/page.tsx:113-133 | on success the matching entries are replaced and editing ends; on failure the list is unchanged and the error is shown |
| AdminQuestions.QuestionsPage.DeleteQuestion | src/app/admin/questions/page.tsx:136-152 | nothing without confirmation; on success the id's entries go; on failure an error |
| AdminQuestions.QuestionsPage.MoveQuestion | src/app/admin/questions/page.tsx:155-186 | a missing id or an out-of-range neighbour changes nothing and sends nothing. Otherwise the updates of the swapped list are sent in order. A rejected update ends the sending after it, leaves the list unchanged and shows the error. When all are accepted, the list is swapped and renumbered |
| AdminReportList.DateMatches | src/components/AdminReportList.tsx:49 | exactly the reports dated on that day |
| AdminReportList.FilteredReports | src/components/AdminReportList.tsx:47-50 | an empty filter keeps every report in order; otherwise exactly those of that date |
| AdminReportList.FilterKeepsOrder | src/components/AdminReportList.tsx:47-50 | filtering works piecewise, so kept reports keep their relative order |
| AdminReportList.MatchesSplit | src/components/AdminReportList.tsx:49 | matching by date distributes over concatenation |
| AdminReportList.PrefixMatches | src/components/AdminReportList.tsx:123 | exactly the reports whose date starts with the prefix |
| AdminReportList.BeforeFirst | src/components/AdminReportList.tsx:117 | `split('T')[0]`: the prefix before the first `T`, or everything |
| AdminReportList.TodayKey | src/components/AdminReportList.tsx:117 | today's key is the prefix of the ISO rendering before its first `T` |
| AdminReportList.MonthKey | src/components/AdminReportList.tsx:123 | the month key is the first seven characters of the ISO rendering, or all of a shorter one |
| AdminReportList.Statistics | src/components/AdminReportList.tsx:113-129 | the today and month counts are at most the total, and the total is the list length |
| AdminReportList.HeaderCount | src/components/AdminReportList.tsx:136 | the header counts the shown reports: all of them with an empty filter |
| AdminReportList.TodayIsInMonth | src/components/AdminReportList.tsx:117-123 | a report dated today is a report of this month |
| AdminReportList.DayCountBelowMonthCount | src/components/AdminReportList.tsx:117-123 | the today count never exceeds the month count |
| AdminReportList.StatisticsOrdered | src/components/AdminReportList.tsx:113-129 | today <= month <= total |
| AdminReportList.HeaderFollowsFilter | src/components/AdminReportList.tsx:117-136 | filtering by today's date shows as many reports as the today counter; the counters ignore the filter |

## Left out

- Data-store calls (Supabase `select`, `insert`, `update`, `delete`, `src/lib/supabase.ts`): network I/O. Each outcome is a parameter. For a reorder, the parameter is one accept/reject answer per update.
- `AdminReportList.tsx` `fetchReports`: network I/O. Its loading and error states and its retry button are not modelled. Only the fetched list is.
- `formatReportWithAI`, the correction prompt and the model name: the service's output cannot be specified. A reply is an input text.
- `Gemini.CorrectTranscription`: the overlay passes the question text as a second argument, and `correctTranscription` ignores it. The model does not pass it.
- Browser speech recognition: the engine's own behaviour and its `continuous`, `interimResults` and `lang` settings. The engine's start and stop calls are reduced to a result (`started`, `stopped`).
- Concurrency: each `await` is two atomic events. React's batching of state updates, and render-time values captured in callbacks, are not modelled: every handler sees the current state.
- Dates and clocks: `Date.now()` timestamps on segments, `toLocaleDateString` and `toISOString` are inputs or omitted. The admin fallback lists use one timestamp for both of their time fields.
- Segment ids are the counter value `N` behind the string `segment-N`.
- The 500 ms `setTimeout` before advancing to the next question is taken at once. Events inside that window are not modelled.
- The progress percentage: floating point.
- UI: JSX, styling, the auto-scroll effect, modals and the selected-report view, `alert`, the clipboard and the SQL panel, `router.push`, and `handleReportEdit`, which only logs.
- String lengths count Unicode code points, not UTF-16 code units. The two differ only outside the Basic Multilingual Plane, for the three-character threshold in `gemini.ts`.
- The `Question` type is not declared in the shipped `src/types/report.ts`. Its fields are taken from their use in the questions page.
- VoiceInput.AnswerCollector.GoToQuestionAsWritten: this contract states only where the index ends up. It says nothing about the draft left by the effect's reruns.
- VoiceInput.AnswerCollector.VoiceInputComplete: this contract models the advance after a save without the effect rerun that the index change triggers when earlier answers exist. That is the corrected behaviour of the finding below.
- VoiceInput.AnswerCollector.ManualComplete: same as `VoiceInputComplete`. The advance is modelled without the effect rerun.
- VoiceInput.AnswerCollector.constructor: requires the earlier answers to be strictly ordered by question and within the five questions. The wizard only ever passes back a list this component produced.

## Findings

| source | as written | input that shows it | evidently intended | confidence | as-written member | corrected member |
|---|---|---|---|---|---|---|
| src/components/VoiceInput.tsx:18-30 | The initial-index effect lists `currentQuestionIndex` as a dependency, so with earlier answers every change of the current question re-runs it. Each run moves back to `min(max + 1, 4)`. | Going back from the preview with all five answers and choosing question 1 (`goToQuestion(0)`) shows question 5 (index 4). | The effect runs on mount only, and `goToQuestion(i)` shows question `i`. | not executed | VoiceInput.NavigationSnapsBack | VoiceInput.NavigationReachesQuestion |
