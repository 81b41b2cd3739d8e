/** The records exchanged between the report pages and the data store (src/types/report.ts). */
module ReportTypes {

  /** A member of staff who writes reports. */
  datatype Staff = Staff(id: string, name: string, createdAt: string)

  /** One answered question: the question text, the answer and the question's position. */
  datatype VoiceResponse = VoiceResponse(question: string, answer: string, questionIndex: int)

  /** A stored daily report. */
  datatype Report = Report(
    id: string,
    staffId: string,
    date: string,
    rawResponses: seq<VoiceResponse>,
    formattedReport: string,
    createdAt: string)

  /** The five fixed questions, in the order they are asked. */
  const REPORT_QUESTIONS: seq<string> := [
    "今日はどんなお客様の対応をしましたか？",
    "印象に残ったお客様はいらっしゃいましたか？",
    "今日の売上目標の達成状況はいかがでしたか？",
    "何か困ったことや気になったことはありましたか？",
    "明日に向けて意気込みや目標があれば教えてください"
  ]

  /** Index of the last question. */
  const LAST_QUESTION: nat := |REPORT_QUESTIONS| - 1
}
