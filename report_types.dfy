/**
 * The report vocabulary shared by the bot and the generators: the three C#
 * enums and the report body details. A C# enum is an Int32 underneath, so a
 * cast or Enum.TryParse of a numeral yields values outside the named members;
 * each enum is a newtype over the Int32 range with its members as constants.
 */
module ReportTypes {
  import opened Wrappers
  import opened GraphModels
  import opened DotNetText

  /** ReportFormatType: HTML, PDF, JSON, TXT numbered from 0. */
  newtype ReportFormatType = x: int | -0x8000_0000 <= x < 0x8000_0000

  const HTML: ReportFormatType := 0
  const PDF: ReportFormatType := 1
  const JSON: ReportFormatType := 2
  const TXT: ReportFormatType := 3

  /** The ReportFormatType members. */
  predicate IsDefined(format: ReportFormatType) {
    format == HTML || format == PDF || format == JSON || format == TXT
  }

  /** The enum's ToString: the member name, or the numeral of an undefined value. */
  function FormatName(format: ReportFormatType): string {
    if format == HTML then "HTML"
    else if format == PDF then "PDF"
    else if format == JSON then "JSON"
    else if format == TXT then "TXT"
    else Int32ToString(format as int)
  }

  /** ReportSourceType: which messages a report covers. */
  newtype ReportSourceType = x: int | -0x8000_0000 <= x < 0x8000_0000

  const Chat: ReportSourceType := 1
  const Conversation: ReportSourceType := 2
  const Channel: ReportSourceType := 3

  /** ReportPeriodType: how far back a report reaches. */
  newtype ReportPeriodType = x: int | -0x8000_0000 <= x < 0x8000_0000

  const LastDay: ReportPeriodType := 1
  const Last7Days: ReportPeriodType := 2
  const AllTime: ReportPeriodType := 3

  /** IReportBodyDetails: everything a generator renders. Times are integers. */
  datatype ReportBodyDetails = ReportBodyDetails(
    since: Option<int>,
    till: int,
    teamName: Option<string>,
    teamId: Option<string>,
    channelName: Option<string>,
    isChannel: bool,
    author: Option<string>,
    messages: seq<Message>,
    isConversation: bool,
    isGroupChat: bool)
}
