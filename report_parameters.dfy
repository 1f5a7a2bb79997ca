/**
 * The bot's report request (ReportParameters) and the Teams data it is filled
 * from. FillRestDetailsFromActivity assigns its fields in place, so it is a
 * class; the activity's conversation id, its Teams channel data and the answer
 * of the team-details lookup are inputs. Reading a property of a null channel
 * data, Team or Channel throws NullReferenceException.
 */
module TeamsBotModels {
  import opened Wrappers
  import opened DotNetText
  import opened ReportTypes

  /** The team of a Teams activity (TeamInfo): its id and name. */
  datatype TeamInfo = TeamInfo(id: Option<string>, name: Option<string>)

  /** A channel of a team (ChannelInfo): its id and name. */
  datatype ChannelInfo = ChannelInfo(id: Option<string>, name: Option<string>)

  /**
   * TeamsChannelData of the activity: the Team and the Channel, each possibly
   * null. GetChannelData yields it, or null, as an Option.
   */
  datatype TeamsChannelData = TeamsChannelData(team: Option<TeamInfo>, channel: Option<ChannelInfo>)

  /** channelData?.Team: the team, None when the channel data or its Team is null. */
  function TeamOf(channelData: Option<TeamsChannelData>): Option<TeamInfo> {
    if channelData.Some? then channelData.value.team else None
  }

  /** channelData?.Channel: the channel, None when the channel data or its Channel is null. */
  function ChannelOf(channelData: Option<TeamsChannelData>): Option<ChannelInfo> {
    if channelData.Some? then channelData.value.channel else None
  }

  /** What TeamsInfo.GetTeamDetailsAsync yields: an exception (the bot is not in the team), null, or the details. */
  datatype TeamLookup = LookupThrew | NoTeamDetails | TeamDetails(name: Option<string>, aadGroupId: Option<string>)

  /** An exception that escapes and ends the operation. */
  datatype Thrown = NullReferenceException | ArgumentOutOfRangeException

  /** The marker in a thread's conversation id before the root message's id. */
  const MessageIdToken: string := ";messageid="

  /** GetTeamAadId: the AAD group id of the team's details, and "" when the lookup throws or yields null. */
  function TeamAadId(lookup: TeamLookup): (r: Option<string>)
    ensures lookup.TeamDetails? ==> r == lookup.aadGroupId
    ensures !lookup.TeamDetails? ==> r == Some("")
  {
    match lookup
    case TeamDetails(_, aadGroupId) => aadGroupId
    case _ => Some("")
  }

  /**
   * cId.Substring(cId.IndexOf(";messageid=") + 11): the text after the first
   * marker; without a marker the -1 index makes it drop ten characters, and
   * the substring throws when there are fewer.
   */
  function MessageIdOf(cId: string): Option<string> {
    Substring(cId, IndexOf(cId, MessageIdToken) + |MessageIdToken|)
  }

  /** A conversation id made of a channel id without ';', the marker and a message id yields that message id. */
  lemma MessageIdRoundTrip(channelId: string, messageId: string)
    requires ';' !in channelId
    ensures MessageIdOf(channelId + MessageIdToken + messageId) == Some(messageId)
  {
    var cId := channelId + MessageIdToken + messageId;
    assert OccursAt(cId, MessageIdToken, |channelId|) by {
      assert cId[|channelId|..|channelId| + |MessageIdToken|] == MessageIdToken;
    }
    forall i | 0 <= i < |channelId|
      ensures !OccursAt(cId, MessageIdToken, i)
    {
      assert cId[i] == channelId[i];
    }
    var k := IndexOf(cId, MessageIdToken);
    assert k == |channelId|;
    assert cId[k + |MessageIdToken|..] == messageId;
  }

  /** Without the marker, the first ten characters are dropped, and a shorter id throws. */
  lemma MessageIdWithoutToken(cId: string)
    requires forall i :: !OccursAt(cId, MessageIdToken, i)
    ensures MessageIdOf(cId) == if |cId| >= 10 then Some(cId[10..]) else None
  {
  }

  class ReportParameters {
    var isChannel: bool
    var teamId: Option<string>
    var conversationId: Option<string>
    var replyToMessageId: Option<string>
    var messageId: Option<string>
    var reportType: ReportSourceType
    var reportPeriod: ReportPeriodType
    var since: Option<int>
    var till: int
    var format: ReportFormatType

    /** The C# defaults: false, null, the zero enum values and the zero time. */
    constructor ()
      ensures !isChannel && teamId.None? && conversationId.None? && replyToMessageId.None? && messageId.None?
      ensures reportType == 0 && reportPeriod == 0 && since.None? && till == 0 && format == 0
    {
      isChannel := false;
      teamId := None;
      conversationId := None;
      replyToMessageId := None;
      messageId := None;
      reportType := 0;
      reportPeriod := 0;
      since := None;
      till := 0;
      format := 0;
    }

    /**
     * FillRestDetailsFromActivity: a chat takes the activity's conversation id;
     * a channel or a thread takes the team's AAD group id (looked up by
     * channelData.Team.Id) and then channelData.Channel.Id, and a thread also
     * the root message id from the conversation id. An exception leaves the
     * fields assigned before it: a null channel data or Team throws before the
     * team id is set, a null Channel after it.
     */
    method FillRestDetailsFromActivity(activityConversationId: Option<string>, channelData: Option<TeamsChannelData>, lookup: TeamLookup)
      returns (thrown: Option<Thrown>)
      modifies this
      ensures reportType == old(reportType) && reportPeriod == old(reportPeriod) && format == old(format)
      ensures since == old(since) && till == old(till) && messageId == old(messageId)
      ensures reportType == Chat ==>
        && conversationId == activityConversationId && !isChannel
        && teamId == old(teamId) && replyToMessageId == old(replyToMessageId) && thrown.None?
      ensures reportType != Chat ==> isChannel
      ensures reportType != Chat && TeamOf(channelData).None? ==>
        && thrown == Some(NullReferenceException)
        && teamId == old(teamId) && conversationId == old(conversationId) && replyToMessageId == old(replyToMessageId)
      ensures reportType != Chat && TeamOf(channelData).Some? ==> teamId == TeamAadId(lookup)
      ensures reportType != Chat && TeamOf(channelData).Some? && ChannelOf(channelData).None? ==>
        && thrown == Some(NullReferenceException)
        && conversationId == old(conversationId) && replyToMessageId == old(replyToMessageId)
      ensures reportType != Chat && TeamOf(channelData).Some? && ChannelOf(channelData).Some? ==>
        conversationId == ChannelOf(channelData).value.id
      ensures reportType != Chat && reportType != Conversation && TeamOf(channelData).Some? && ChannelOf(channelData).Some? ==>
        replyToMessageId == old(replyToMessageId) && thrown.None?
      ensures reportType == Conversation && TeamOf(channelData).Some? && ChannelOf(channelData).Some? ==>
        if activityConversationId.None? then thrown == Some(NullReferenceException) && replyToMessageId == old(replyToMessageId)
        else if MessageIdOf(activityConversationId.value).None? then thrown == Some(ArgumentOutOfRangeException) && replyToMessageId == old(replyToMessageId)
        else thrown.None? && replyToMessageId == MessageIdOf(activityConversationId.value)
    {
      thrown := None;
      if reportType == Chat {
        conversationId := activityConversationId;
        isChannel := false;
      } else {
        isChannel := true;
        if channelData.None? || channelData.value.team.None? {
          return Some(NullReferenceException);
        }
        teamId := TeamAadId(lookup);
        if channelData.value.channel.None? {
          return Some(NullReferenceException);
        }
        conversationId := channelData.value.channel.value.id;
        if reportType == Conversation {
          if activityConversationId.None? {
            return Some(NullReferenceException);
          }
          var cId := activityConversationId.value;
          var suffix := Substring(cId, IndexOf(cId, MessageIdToken) + |MessageIdToken|);
          if suffix.None? {
            return Some(ArgumentOutOfRangeException);
          }
          replyToMessageId := suffix;
        }
      }
    }
  }
}
