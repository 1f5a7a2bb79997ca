/**
 * HistoryReportService: preparing a report and putting it into the user's
 * OneDrive, in four stages: fetch the messages, gather the report body details,
 * render the document, upload it.
 *
 * The Graph history call, the Teams lookups, the clock (as ticks and as the
 * formatted file-name stamp), the General channel's localised title, the
 * renderers of the other formats, the encoded size of a document and the
 * drive's answers to the upload are inputs. A stage that throws ends the
 * operation with its exception.
 */
module HistoryReportService {
  import opened Wrappers
  import opened DotNetText
  import opened GraphModels
  import opened ReportTypes
  import opened TeamsBotModels
  import MSGraphClient
  import OneDriveService
  import Provider = ReportGeneratorsProvider

  /** DateTimeOffset ticks in a day; AddDays(-n) moves back n times this. */
  const TicksPerDay: int := 864_000_000_000

  /** Constants.ChannelConversationType. */
  const ChannelConversationType: string := "channel"

  /** The Graph history call: team id, conversation id, root message id and start give the messages, or the exception a read throws. */
  type HistoryCall<E> = (Option<string>, Option<string>, Option<string>, Option<int>) -> Result<seq<Message>, E>

  /**
   * GetMessagesHistoryAsync: Till becomes now; Since goes back one day for
   * LastDay and seven for Last7Days, and is left as it was for any other
   * period; then the Graph history is fetched with those parameters, and its
   * exception, if it throws, is the operation's.
   */
  method GetMessagesHistory<E>(parameters: ReportParameters, now: int, history: HistoryCall<E>) returns (details: Result<seq<Message>, E>)
    modifies parameters
    ensures parameters.till == now
    ensures parameters.reportPeriod == LastDay ==> parameters.since == Some(now - TicksPerDay)
    ensures parameters.reportPeriod == Last7Days ==> parameters.since == Some(now - 7 * TicksPerDay)
    ensures parameters.reportPeriod != LastDay && parameters.reportPeriod != Last7Days ==> parameters.since == old(parameters.since)
    ensures parameters.isChannel == old(parameters.isChannel) && parameters.teamId == old(parameters.teamId)
    ensures parameters.conversationId == old(parameters.conversationId) && parameters.replyToMessageId == old(parameters.replyToMessageId)
    ensures parameters.messageId == old(parameters.messageId) && parameters.reportType == old(parameters.reportType)
    ensures parameters.reportPeriod == old(parameters.reportPeriod) && parameters.format == old(parameters.format)
    ensures details == history(parameters.teamId, parameters.conversationId, parameters.replyToMessageId, parameters.since)
  {
    parameters.till := now;
    if parameters.reportPeriod == LastDay {
      parameters.since := Some(parameters.till - 1 * TicksPerDay);
    } else if parameters.reportPeriod == Last7Days {
      parameters.since := Some(parameters.till - 7 * TicksPerDay);
    }
    var data := history(parameters.teamId, parameters.conversationId, parameters.replyToMessageId, parameters.since);
    if data.Failure? {
      return Failure(data.error);
    }
    assert [] + data.value == data.value;
    details := Success([] + data.value);
  }

  // ---------------------------------------------------------------------------
  // GetReportBodyDetailsAsync
  // ---------------------------------------------------------------------------

  /** What TeamsInfo.GetTeamChannelsAsync yields: an exception, or the list, possibly null. */
  datatype ChannelsLookup = ChannelsThrew | Channels(channels: Option<seq<ChannelInfo>>)

  /** The team name, team id and channel name of the details. */
  datatype TeamPart = TeamPart(teamName: Option<string>, teamId: Option<string>, channelName: Option<string>)

  /** FirstOrDefault(x => channelId.Equals(x.Id))?.Name. */
  function ChannelNameIn(channelId: string, cs: seq<ChannelInfo>): (r: Option<string>)
    ensures r.Some? ==> exists i :: 0 <= i < |cs| && cs[i].id == Some(channelId) && cs[i].name == r
    ensures (forall i :: 0 <= i < |cs| ==> cs[i].id != Some(channelId)) ==> r.None?
  {
    if |cs| == 0 then None
    else if cs[0].id == Some(channelId) then cs[0].name
    else
      var r := ChannelNameIn(channelId, cs[1..]);
      assert forall i :: 1 <= i < |cs| ==> cs[i] == cs[1..][i - 1];
      r
  }

  /**
   * The try block and its catch: the team's details replace the name and id;
   * with no channel name yet the channel list supplies it. Any exception inside
   * (the bot is not in the team, or Equals called on a null channel id) makes
   * the team id stand for both name and id.
   */
  function TeamLookupPart(team: TeamInfo, channel: ChannelInfo, lookup: TeamLookup, channels: ChannelsLookup,
                          channelName: Option<string>): TeamPart {
    var caught := TeamPart(team.id, team.id, channelName);
    match lookup
    case LookupThrew => caught
    case NoTeamDetails => TeamPart(None, None, channelName)
    case TeamDetails(name, aadGroupId) =>
      if !IsNullOrEmpty(channelName) then TeamPart(name, aadGroupId, channelName)
      else
        match channels
        case ChannelsThrew => caught
        case Channels(None) => TeamPart(name, aadGroupId, None)
        case Channels(Some(cs)) =>
          if channel.id.None? && |cs| > 0 then caught
          else if channel.id.None? then TeamPart(name, aadGroupId, None)
          else TeamPart(name, aadGroupId, ChannelNameIn(channel.id.value, cs))
  }

  /** The channel conversation branch: the channel's name or the General title, the lookups, then the id fallback. */
  function ChannelTeamPart(team: TeamInfo, channel: ChannelInfo, lookup: TeamLookup, channels: ChannelsLookup,
                           generalTitle: string): TeamPart {
    var initial := if team.id == channel.id then Some(generalTitle) else channel.name;
    var looked := TeamLookupPart(team, channel, lookup, channels, initial);
    if IsNullOrEmpty(looked.channelName) then looked.(channelName := channel.id) else looked
  }

  /**
   * GetReportBodyDetailsAsync: the scope flags from the report type, the
   * messages, the window and the author; in a channel conversation also the
   * team and channel names, read from the channel data's Team and Channel
   * before the try, so that a null one of them throws.
   */
  function GetReportBodyDetails(messages: seq<Message>, parameters: ReportParameters, author: Option<string>,
                                conversationType: Option<string>, channelData: Option<TeamsChannelData>,
                                lookup: TeamLookup, channels: ChannelsLookup, generalTitle: string): (d: Result<ReportBodyDetails, Thrown>)
    reads parameters
    ensures d.Failure? <==>
      conversationType == Some(ChannelConversationType) && (TeamOf(channelData).None? || ChannelOf(channelData).None?)
    ensures d.Failure? ==> d.error == NullReferenceException
    ensures d.Success? ==>
      && (d.value.isChannel <==> parameters.reportType == Channel)
      && (d.value.isConversation <==> parameters.reportType == Conversation)
      && (d.value.isGroupChat <==> parameters.reportType == Chat)
      && d.value.messages == messages && d.value.since == parameters.since && d.value.till == parameters.till
      && d.value.author == author
    ensures d.Success? && conversationType != Some(ChannelConversationType) ==>
      d.value.teamName.None? && d.value.teamId.None? && d.value.channelName.None?
    ensures d.Success? && conversationType == Some(ChannelConversationType) ==>
      var team, channel := TeamOf(channelData).value, ChannelOf(channelData).value;
      && (!IsNullOrEmpty(channel.id) ==> !IsNullOrEmpty(d.value.channelName))
      && (team.id == channel.id && generalTitle != "" ==> d.value.channelName == Some(generalTitle))
      && (lookup.LookupThrew? ==> d.value.teamName == team.id && d.value.teamId == team.id)
      && (lookup.NoTeamDetails? ==> d.value.teamName.None? && d.value.teamId.None?)
      && (lookup.TeamDetails? && !channels.ChannelsThrew? && channel.id.Some? ==>
            d.value.teamName == lookup.name && d.value.teamId == lookup.aadGroupId)
  {
    var d := ReportBodyDetails(
      since := parameters.since,
      till := parameters.till,
      teamName := None,
      teamId := None,
      channelName := None,
      isChannel := parameters.reportType == Channel,
      author := author,
      messages := messages,
      isConversation := parameters.reportType == Conversation,
      isGroupChat := parameters.reportType == Chat);
    if conversationType == Some(ChannelConversationType) then
      if channelData.None? || channelData.value.team.None? || channelData.value.channel.None? then
        Failure(NullReferenceException)
      else
        var part := ChannelTeamPart(channelData.value.team.value, channelData.value.channel.value, lookup, channels, generalTitle);
        Success(d.(teamName := part.teamName, teamId := part.teamId, channelName := part.channelName))
    else Success(d)
  }

  /** The three report types set exactly one scope flag; any other value of the enum sets none. */
  lemma ScopeFlagsExclusive(messages: seq<Message>, parameters: ReportParameters, author: Option<string>,
                            conversationType: Option<string>, channelData: Option<TeamsChannelData>, lookup: TeamLookup,
                            channels: ChannelsLookup, generalTitle: string)
    ensures var d := GetReportBodyDetails(messages, parameters, author, conversationType, channelData, lookup, channels, generalTitle);
      d.Success? ==>
        var n := (if d.value.isChannel then 1 else 0) + (if d.value.isConversation then 1 else 0) + (if d.value.isGroupChat then 1 else 0);
        && (parameters.reportType in {Chat, Conversation, Channel} <==> n == 1)
        && (parameters.reportType !in {Chat, Conversation, Channel} <==> n == 0)
  {
  }

  // ---------------------------------------------------------------------------
  // GenerateReportByteArray and UploadReportAsync
  // ---------------------------------------------------------------------------

  /** The renderers of the formats other than TXT. */
  type Renderer = (Provider.Generator, ReportBodyDetails) -> string

  /** GenerateReportByteArray: images are fetched for HTML and PDF only; then the provider renders the document. */
  method GenerateReportByteArray(details: ReportBodyDetails, format: ReportFormatType, now: int, fmt: int -> string, render: Renderer)
    returns (downloadsImages: bool, document: Provider.Outcome)
    ensures downloadsImages <==> format == HTML || format == PDF
    ensures document == Provider.ProvidedDocument(details, format, now, fmt, render)
  {
    downloadsImages := format == HTML || format == PDF;
    document := Provider.PrepareDocument(details, format, now, fmt, render);
  }

  /** The extension the format's switch appends; nothing for a value outside the enum. */
  function Extension(format: ReportFormatType): string {
    if format == TXT then "_.txt"
    else if format == JSON then "_.json"
    else if format == HTML then "_.html"
    else if format == PDF then "_.pdf"
    else ""
  }

  /** The report's file name: the stamp, "_history_report" and the format's extension. */
  function ReportFileName(stamp: string, format: ReportFormatType): string {
    stamp + "_history_report" + Extension(format)
  }

  /** The upload folder: nothing, or the configured folder and a slash. */
  function FolderPrefix(reportsFolderName: Option<string>): (r: string)
    ensures r == "" || r[|r| - 1] == '/'
    ensures IsNullOrEmpty(reportsFolderName) <==> r == ""
  {
    if IsNullOrEmpty(reportsFolderName) then "" else reportsFolderName.value + "/"
  }

  /**
   * UploadReportAsync with UploadFile: the document goes up under the folder
   * into the user's OneDrive; the upload's exception is the operation's, and
   * the returned file's FileName is set to the name without the folder.
   */
  method UploadReport<S>(reportsFolderName: Option<string>, stamp: string, format: ReportFormatType, length: nat,
                         answers: OneDriveService.DriveAnswers<S, MSGraphClient.DriveItem>)
    returns (file: Result<MSGraphClient.DriveItemResponse, string>, uploadPath: string)
    requires OneDriveService.Fits(answers, length)
    ensures uploadPath == FolderPrefix(reportsFolderName) + ReportFileName(stamp, format)
    ensures var up := OneDriveService.Answered(answers, length);
      && (up.Failure? ==> file == Failure(up.error))
      && (up.Success? ==>
            && file.Success? && fresh(file.value)
            && file.value.fileName == Some(ReportFileName(stamp, format))
            && MSGraphClient.MappedFields(file.value, up.value))
  {
    var folderName := if IsNullOrEmpty(reportsFolderName) then "" else reportsFolderName.value + "/";
    var fileName := stamp + "_history_report";
    if format == TXT {
      fileName := fileName + "_.txt";
    } else if format == JSON {
      fileName := fileName + "_.json";
    } else if format == HTML {
      fileName := fileName + "_.html";
    } else if format == PDF {
      fileName := fileName + "_.pdf";
    } else {
      assert fileName + Extension(format) == fileName;
    }
    uploadPath := folderName + fileName;
    var sent;
    file, sent := MSGraphClient.UploadFileInPersonalOneDrive(length, uploadPath, answers);
    if file.Success? {
      file.value.fileName := Some(fileName);
    }
  }

  /** Two formats of the enum never give the same file name for the same stamp. */
  lemma FileNamesDistinct(stamp: string, f: ReportFormatType, g: ReportFormatType)
    requires f in {HTML, PDF, JSON, TXT} && g in {HTML, PDF, JSON, TXT} && f != g
    ensures ReportFileName(stamp, f) != ReportFileName(stamp, g)
  {
    var base := stamp + "_history_report";
    assert ReportFileName(stamp, f)[|base|..] == Extension(f);
    assert ReportFileName(stamp, g)[|base|..] == Extension(g);
  }

  // ---------------------------------------------------------------------------
  // PrepareReportInOneDrive
  // ---------------------------------------------------------------------------

  /** The four stages, in the order the service awaits them. */
  datatype Stage = Fetch | Details | Render | Upload

  /** The upload request for a rendered report: the path it is put at and the document. */
  datatype ReportUpload = ReportUpload(uploadPath: string, content: string)

  /** The exception that ends PrepareReportInOneDrive, by the stage that threw it. */
  datatype Failed<+E> =
    | FetchFailed(error: E)
    | DetailsFailed(exception: Thrown)
    | RenderFailed(outcome: Provider.Outcome)
    | UploadFailed(message: string)

  /**
   * The first three stages: the exception of the fetch or of the details, or
   * the document made of the request, the Teams data and the clock.
   */
  function ReportDocument<E>(parameters: ReportParameters, history: HistoryCall<E>, author: Option<string>,
                             conversationType: Option<string>, channelData: Option<TeamsChannelData>, lookup: TeamLookup,
                             channels: ChannelsLookup, generalTitle: string, now: int, fmt: int -> string,
                             render: Renderer): Result<Provider.Outcome, Failed<E>>
    reads parameters
  {
    match history(parameters.teamId, parameters.conversationId, parameters.replyToMessageId, parameters.since)
    case Failure(e) => Failure(FetchFailed(e))
    case Success(messages) =>
      match GetReportBodyDetails(messages, parameters, author, conversationType, channelData, lookup, channels, generalTitle)
      case Failure(x) => Failure(DetailsFailed(x))
      case Success(details) => Success(Provider.ProvidedDocument(details, parameters.format, now, fmt, render))
  }

  /**
   * The fetch and details stages: the report body details of the window
   * GetMessagesHistory sets, or the exception of the fetch or of the details.
   */
  method FetchDetails<E>(parameters: ReportParameters, now: int, history: HistoryCall<E>, author: Option<string>,
                         conversationType: Option<string>, channelData: Option<TeamsChannelData>, lookup: TeamLookup,
                         channels: ChannelsLookup, generalTitle: string)
    returns (details: Result<ReportBodyDetails, Failed<E>>)
    modifies parameters
    ensures parameters.till == now && parameters.format == old(parameters.format)
    ensures var fetched := history(parameters.teamId, parameters.conversationId, parameters.replyToMessageId, parameters.since);
      && (fetched.Failure? ==> details == Failure(FetchFailed(fetched.error)))
      && (fetched.Success? ==>
            var d := GetReportBodyDetails(fetched.value, parameters, author, conversationType, channelData, lookup, channels, generalTitle);
            && (d.Failure? ==> details == Failure(DetailsFailed(d.error)))
            && (d.Success? ==> details == Success(d.value)))
  {
    var messages := GetMessagesHistory(parameters, now, history);
    if messages.Failure? {
      return Failure(FetchFailed(messages.error));
    }
    var d := GetReportBodyDetails(messages.value, parameters, author, conversationType, channelData, lookup, channels, generalTitle);
    if d.Failure? {
      return Failure(DetailsFailed(d.error));
    }
    details := Success(d.value);
  }

  /** The fetch, details and render stages, in that order; the first that throws is the last stage run. */
  method FetchAndRender<E>(parameters: ReportParameters, now: int, history: HistoryCall<E>, author: Option<string>,
                           conversationType: Option<string>, channelData: Option<TeamsChannelData>, lookup: TeamLookup,
                           channels: ChannelsLookup, generalTitle: string, fmt: int -> string, render: Renderer)
    returns (stages: seq<Stage>, document: Result<Provider.Outcome, Failed<E>>)
    modifies parameters
    ensures parameters.till == now && parameters.format == old(parameters.format)
    ensures document.Failure? ==> document.error.FetchFailed? || document.error.DetailsFailed?
    ensures document.Failure? && document.error.FetchFailed? ==> stages == [Fetch]
    ensures document.Failure? && document.error.DetailsFailed? ==> stages == [Fetch, Details]
    ensures document.Success? ==> stages == [Fetch, Details, Render]
    ensures document == ReportDocument(parameters, history, author, conversationType, channelData, lookup, channels, generalTitle, now, fmt, render)
  {
    var reportBodyDetails := FetchDetails(parameters, now, history, author, conversationType, channelData, lookup, channels, generalTitle);
    if reportBodyDetails.Failure? {
      stages := if reportBodyDetails.error.FetchFailed? then [Fetch] else [Fetch, Details];
      return stages, Failure(reportBodyDetails.error);
    }
    var downloadsImages, rendered := GenerateReportByteArray(reportBodyDetails.value, parameters.format, now, fmt, render);
    stages, document := [Fetch, Details, Render], Success(rendered);
  }

  /**
   * How the operation ends for the outcome of the first three stages: a failed
   * fetch, details or render stage is the exception, with nothing uploaded; a document is
   * uploaded under the folder and its file name, and the upload's exception
   * or the uploaded file, named, is the result.
   */
  ghost predicate Concludes<E, S>(document: Result<Provider.Outcome, Failed<E>>, stamp: string, format: ReportFormatType,
                            reportsFolderName: Option<string>, encodedLength: string -> nat,
                            drive: nat -> OneDriveService.DriveAnswers<S, MSGraphClient.DriveItem>,
                            upload: Option<ReportUpload>, outcome: Result<MSGraphClient.DriveItemResponse, Failed<E>>)
    reads if outcome.Success? then {outcome.value} else {}
  {
    && (document.Failure? ==> upload.None? && outcome == Failure(document.error))
    && (document.Success? && !document.value.Document? ==> upload.None? && outcome == Failure(RenderFailed(document.value)))
    && (document.Success? && document.value.Document? ==>
          var length := encodedLength(document.value.text);
          var up := OneDriveService.Answered(drive(length), length);
          && upload == Some(ReportUpload(FolderPrefix(reportsFolderName) + ReportFileName(stamp, format), document.value.text))
          && (up.Failure? ==> outcome == Failure(UploadFailed(up.error)))
          && (up.Success? ==>
                && outcome.Success?
                && outcome.value.fileName == Some(ReportFileName(stamp, format))
                && MSGraphClient.MappedFields(outcome.value, up.value)))
  }

  /** What follows the render stage: the exception of a failed stage, or the upload of the document. */
  method ConcludeReport<E, S>(document: Result<Provider.Outcome, Failed<E>>, stamp: string, format: ReportFormatType,
                              reportsFolderName: Option<string>, encodedLength: string -> nat,
                              drive: nat -> OneDriveService.DriveAnswers<S, MSGraphClient.DriveItem>)
    returns (uploaded: bool, upload: Option<ReportUpload>, outcome: Result<MSGraphClient.DriveItemResponse, Failed<E>>)
    requires forall n :: OneDriveService.Fits(drive(n), n)
    ensures uploaded <==> document.Success? && document.value.Document?
    ensures outcome.Success? ==> fresh(outcome.value)
    ensures Concludes(document, stamp, format, reportsFolderName, encodedLength, drive, upload, outcome)
  {
    if document.Failure? {
      return false, None, Failure(document.error);
    }
    if !document.value.Document? {
      return false, None, Failure(RenderFailed(document.value));
    }
    var text := document.value.text;
    var length := encodedLength(text);
    var file, uploadPath := UploadReport(reportsFolderName, stamp, format, length, drive(length));
    uploaded := true;
    upload := Some(ReportUpload(uploadPath, text));
    if file.Failure? {
      return uploaded, upload, Failure(UploadFailed(file.error));
    }
    outcome := Success(file.value);
  }

  /**
   * PrepareReportInOneDrive: the stages run strictly one after another and
   * the first that throws ends the operation; the uploaded content is the
   * rendered document, and the result is the uploaded file with its name.
   * encodedLength gives the size in bytes of a document, and drive the drive's
   * answers to an upload of that size.
   */
  method PrepareReportInOneDrive<E, S>(parameters: ReportParameters, now: int, stamp: string, history: HistoryCall<E>,
                                       author: Option<string>, conversationType: Option<string>, channelData: Option<TeamsChannelData>,
                                       lookup: TeamLookup, channels: ChannelsLookup, generalTitle: string,
                                       fmt: int -> string, render: Renderer, reportsFolderName: Option<string>,
                                       encodedLength: string -> nat,
                                       drive: nat -> OneDriveService.DriveAnswers<S, MSGraphClient.DriveItem>)
    returns (stages: seq<Stage>, upload: Option<ReportUpload>, outcome: Result<MSGraphClient.DriveItemResponse, Failed<E>>)
    requires forall n :: OneDriveService.Fits(drive(n), n)
    modifies parameters
    ensures parameters.till == now
    ensures var document := ReportDocument(parameters, history, author, conversationType, channelData, lookup, channels, generalTitle, now, fmt, render);
      && (document.Failure? && document.error.FetchFailed? ==> stages == [Fetch])
      && (document.Failure? && document.error.DetailsFailed? ==> stages == [Fetch, Details])
      && (document.Success? && !document.value.Document? ==> stages == [Fetch, Details, Render])
      && (document.Success? && document.value.Document? ==> stages == [Fetch, Details, Render, Upload])
      && Concludes(document, stamp, parameters.format, reportsFolderName, encodedLength, drive, upload, outcome)
    ensures outcome.Success? ==> fresh(outcome.value)
  {
    var document;
    stages, document := FetchAndRender(parameters, now, history, author, conversationType, channelData, lookup, channels, generalTitle, fmt, render);
    var uploaded;
    uploaded, upload, outcome := ConcludeReport(document, stamp, parameters.format, reportsFolderName, encodedLength, drive);
    if uploaded {
      stages := stages + [Upload];
    }
  }
}
