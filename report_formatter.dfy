/**
 * The plain-text daily report (src/lib/reportFormatter.ts, `formatReport`). The date
 * arrives already rendered (the `toLocaleDateString` output), as a string.
 */
module ReportFormatter {
  import opened Text
  import opened ReportTypes

  /** The headings of the report's body, in order. */
  const HEADINGS: seq<string> := [
    "■ 本日の業務実績",
    "■ 印象に残った接客",
    "■ 売上・目標達成状況",
    "■ 課題・改善点",
    "■ 明日への目標・意気込み"
  ]

  /** The closing section, which always reads "none". */
  const CLOSING: string := "■ その他・連絡事項\nなし"

  /** The first line: title, date, a full-width space, and the staff name. */
  function HeaderLine(formattedDate: string, staffName: string): string {
    "【日報】" + formattedDate + "\U{3000}スタッフ名: " + staffName
  }

  /** Section `k`: the answer of the `k`-th response by position, or empty when there is none. */
  function Section(responses: seq<VoiceResponse>, k: nat): string {
    if k < |responses| then responses[k].answer else []
  }

  /** Heading `k` with its section text on the line below it. */
  function Block(responses: seq<VoiceResponse>, k: nat): string
    requires k < |HEADINGS|
  {
    HEADINGS[k] + "\n" + Section(responses, k)
  }

  /** `formatReport(responses, staffName, date)`, as its template literal reads. */
  function FormatReport(responses: seq<VoiceResponse>, staffName: string, formattedDate: string): string {
    HeaderLine(formattedDate, staffName)
    + "\n\n" + Block(responses, 0)
    + "\n\n" + Block(responses, 1)
    + "\n\n" + Block(responses, 2)
    + "\n\n" + Block(responses, 3)
    + "\n\n" + Block(responses, 4)
    + "\n\n" + CLOSING
  }

  /** The report as a list of blocks: the header, each heading with its section, and the closing section. */
  function Blocks(responses: seq<VoiceResponse>, staffName: string, formattedDate: string): (b: seq<string>)
    ensures |b| == |HEADINGS| + 2
    ensures b[0] == HeaderLine(formattedDate, staffName) && b[|b| - 1] == CLOSING
    ensures forall k :: 0 <= k < |HEADINGS| ==> b[k + 1] == HEADINGS[k] + "\n" + Section(responses, k)
  {
    [HeaderLine(formattedDate, staffName),
     Block(responses, 0), Block(responses, 1), Block(responses, 2), Block(responses, 3), Block(responses, 4),
     CLOSING]
  }

  /** Joining a list with a first element in front. */
  lemma JoinCons(x: string, xs: seq<string>, sep: string)
    requires xs != []
    ensures Join([x] + xs, sep) == x + sep + Join(xs, sep)
  {
    assert ([x] + xs)[1..] == xs;
  }

  /** Seven strings joined: each one followed by the separator, except the last. */
  lemma JoinSeven(a: seq<string>, sep: string)
    requires |a| == 7
    ensures Join(a, sep) == a[0] + sep + a[1] + sep + a[2] + sep + a[3] + sep + a[4] + sep + a[5] + sep + a[6]
  {
    JoinCons(a[5], a[6..], sep);
    assert a[5..] == [a[5]] + a[6..];
    JoinCons(a[4], a[5..], sep);
    assert a[4..] == [a[4]] + a[5..];
    JoinCons(a[3], a[4..], sep);
    assert a[3..] == [a[3]] + a[4..];
    JoinCons(a[2], a[3..], sep);
    assert a[2..] == [a[2]] + a[3..];
    JoinCons(a[1], a[2..], sep);
    assert a[1..] == [a[1]] + a[2..];
    JoinCons(a[0], a[1..], sep);
    assert a == [a[0]] + a[1..];
  }

  /** The template is exactly the list of blocks joined by blank lines. */
  lemma FormatIsJoinedBlocks(responses: seq<VoiceResponse>, staffName: string, formattedDate: string)
    ensures FormatReport(responses, staffName, formattedDate) == Join(Blocks(responses, staffName, formattedDate), "\n\n")
  {
    JoinSeven(Blocks(responses, staffName, formattedDate), "\n\n");
  }

  /** The report opens with the header line and ends with the fixed closing section. */
  lemma FormatFrame(responses: seq<VoiceResponse>, staffName: string, formattedDate: string)
    ensures var r := FormatReport(responses, staffName, formattedDate);
      var h := HeaderLine(formattedDate, staffName);
      && |h| + |CLOSING| <= |r|
      && r[..|h|] == h
      && r[|r| - |CLOSING|..] == CLOSING
  {
    var r := FormatReport(responses, staffName, formattedDate);
    var h := HeaderLine(formattedDate, staffName);
    var before := r[..|r| - |CLOSING|];
    assert r == before + CLOSING;
    assert before[..|h|] == h;
  }

  /** Only the first five responses matter: anything after them leaves the report unchanged. */
  lemma LaterResponsesIgnored(responses: seq<VoiceResponse>, extra: seq<VoiceResponse>, staffName: string, formattedDate: string)
    requires |responses| >= |HEADINGS|
    ensures FormatReport(responses + extra, staffName, formattedDate) == FormatReport(responses, staffName, formattedDate)
  {
    forall k | 0 <= k < |HEADINGS| ensures Block(responses + extra, k) == Block(responses, k) {
      assert (responses + extra)[k] == responses[k];
    }
  }

  /**
   * Sections are taken by position, not by question index: two response lists with the
   * same answers in the same places give the same report, whatever questions and
   * indices they carry; positions without a response give empty sections.
   */
  lemma SectionsArePositional(r1: seq<VoiceResponse>, r2: seq<VoiceResponse>, staffName: string, formattedDate: string)
    requires |r1| == |r2| && forall i :: 0 <= i < |r1| ==> r1[i].answer == r2[i].answer
    ensures FormatReport(r1, staffName, formattedDate) == FormatReport(r2, staffName, formattedDate)
    ensures forall k :: |r1| <= k < |HEADINGS| ==> Section(r1, k) == []
  {
    forall k | 0 <= k < |HEADINGS| ensures Block(r1, k) == Block(r2, k) {
      assert Section(r1, k) == Section(r2, k);
    }
  }

  /** For instance, a single answer to the second question lands under the first heading. */
  lemma SingleAnswerLandsFirst(answer: string)
    ensures var r := [VoiceResponse(REPORT_QUESTIONS[1], answer, 1)];
      Section(r, 0) == answer && Section(r, 1) == []
  {
  }
}
