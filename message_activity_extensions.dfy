/**
 * IMessageActivityExtensions.AddMentionToText: checks the mentioned user,
 * lets a given mention text rename the user, writes the <at>name</at> token in
 * front of or after the activity's text, and adds a Mention entity. The
 * activity and the user are objects the method changes in place, so they are
 * classes.
 */
module IMessageActivityExtensions {
  import opened Wrappers
  import opened DotNetText

  /** ChannelAccount: the user's id and display name. */
  class ChannelAccount {
    var id: Option<string>
    var name: Option<string>

    constructor (id: Option<string>, name: Option<string>)
      ensures this.id == id && this.name == name
    {
      this.id := id;
      this.name := name;
    }
  }

  /** An entity of an activity: a Mention of a user with its text, or any other entity. */
  datatype Entity = Mention(text: string, mentioned: ChannelAccount) | OtherEntity(entityType: string)

  /** IMessageActivity: the text and the entities list, both possibly null. */
  class MessageActivity {
    var text: Option<string>
    var entities: Option<seq<Entity>>

    constructor (text: Option<string>, entities: Option<seq<Entity>>)
      ensures this.text == text && this.entities == entities
    {
      this.text := text;
      this.entities := entities;
    }
  }

  /** The exceptions the method throws: ArgumentNullException and ArgumentException. */
  datatype MentionError = ArgumentNull | InvalidArgument

  /**
   * The checks on a non-null user: a null or empty id is an
   * ArgumentNullException; a null or empty name with a null or empty mention
   * text is an ArgumentException.
   */
  function ArgumentError(userId: Option<string>, userName: Option<string>, mentionText: Option<string>): (e: Option<MentionError>)
    ensures e == Some(ArgumentNull) <==> IsNullOrEmpty(userId)
    ensures e == Some(InvalidArgument) <==> !IsNullOrEmpty(userId) && IsNullOrEmpty(userName) && IsNullOrEmpty(mentionText)
  {
    if IsNullOrEmpty(userId) then Some(ArgumentNull)
    else if IsNullOrEmpty(userName) && IsNullOrEmpty(mentionText) then Some(InvalidArgument)
    else None
  }

  /** The user's name after the method: a mention text that is not blank replaces it. */
  function MentionedName(userName: Option<string>, mentionText: Option<string>): Option<string> {
    if !IsNullOrWhiteSpace(mentionText) then mentionText else userName
  }

  const MentionOpen: string := "<at>"
  const MentionClose: string := "</at>"

  /** string.Format("<at>{0}</at>", name); a null name formats as nothing. */
  function MentionToken(name: Option<string>): string {
    MentionOpen + Str(name) + MentionClose
  }

  /** The name inside a mention token. */
  function TokenName(token: string): Option<string> {
    if |token| >= |MentionOpen| + |MentionClose| && token[..|MentionOpen|] == MentionOpen
       && token[|token| - |MentionClose|..] == MentionClose
    then Some(token[|MentionOpen|..|token| - |MentionClose|])
    else None
  }

  /** The activity's new text: the token, a space and the old text, or the old text, a space and the token. */
  function TextWithMention(text: Option<string>, token: string, prependMention: bool): string {
    if prependMention then token + " " + Str(text) else Str(text) + " " + token
  }

  /** The token names the user: its inside is the name, or "" for null. */
  lemma TokenRoundTrip(name: Option<string>)
    ensures TokenName(MentionToken(name)) == Some(Str(name))
  {
    var t := MentionToken(name);
    assert t[..|MentionOpen|] == MentionOpen;
    assert t[|t| - |MentionClose|..] == MentionClose;
    assert t[|MentionOpen|..|t| - |MentionClose|] == Str(name);
  }

  /** The new text is the token and the old text, separated by one space, in the order asked for. */
  lemma TextWithMentionParts(text: Option<string>, token: string, prependMention: bool)
    ensures var r := TextWithMention(text, token, prependMention);
      |r| == |token| + 1 + |Str(text)|
      && (prependMention ==> r[..|token|] == token && r[|token|] == ' ' && r[|token| + 1..] == Str(text))
      && (!prependMention ==> r[..|Str(text)|] == Str(text) && r[|Str(text)|] == ' ' && r[|Str(text)| + 1..] == token)
  {
    var r := TextWithMention(text, token, prependMention);
    if prependMention {
      assert r == token + (" " + Str(text));
    } else {
      assert r == Str(text) + (" " + token);
    }
  }

  /**
   * A call that passes the checks writes a non-empty name in the token when
   * the user has a name or the mention text is not blank; a blank but
   * non-empty mention text with an empty name passes and writes <at></at>.
   */
  lemma MentionedNameAfterChecks(userId: Option<string>, userName: Option<string>, mentionText: Option<string>)
    requires ArgumentError(userId, userName, mentionText).None?
    ensures !IsNullOrEmpty(userName) || !IsNullOrWhiteSpace(mentionText) ==> Str(MentionedName(userName, mentionText)) != ""
    ensures IsNullOrEmpty(userName) && IsNullOrWhiteSpace(mentionText) ==>
      !IsNullOrEmpty(mentionText) && MentionToken(MentionedName(userName, mentionText)) == "<at></at>"
  {
  }

  /**
   * AddMentionToText: a null user, or the failed checks, throw before
   * anything changes; otherwise the user may be renamed, the text gets the
   * token, a null entities list is created, one Mention of the user with the
   * token is appended, and the same activity is returned.
   */
  method AddMentionToText(activity: MessageActivity, mentionedUser: ChannelAccount?, prependMention: bool,
                          mentionText: Option<string>)
    returns (result: Result<MessageActivity, MentionError>)
    modifies activity, mentionedUser
    ensures mentionedUser == null ==> result == Failure(ArgumentNull)
    ensures mentionedUser != null && ArgumentError(old(mentionedUser.id), old(mentionedUser.name), mentionText).Some? ==>
      result == Failure(ArgumentError(old(mentionedUser.id), old(mentionedUser.name), mentionText).value)
    ensures result.Failure? ==> unchanged(activity) && (mentionedUser != null ==> unchanged(mentionedUser))
    ensures result.Success? ==>
      && mentionedUser != null
      && ArgumentError(old(mentionedUser.id), old(mentionedUser.name), mentionText).None?
      && result.value == activity
      && mentionedUser.id == old(mentionedUser.id)
      && mentionedUser.name == MentionedName(old(mentionedUser.name), mentionText)
      && activity.text == Some(TextWithMention(old(activity.text), MentionToken(mentionedUser.name), prependMention))
      && activity.entities == Some(old(activity.entities).GetOr([]) + [Mention(MentionToken(mentionedUser.name), mentionedUser)])
  {
    if mentionedUser == null || IsNullOrEmpty(mentionedUser.id) {
      return Failure(ArgumentNull);
    }
    if IsNullOrEmpty(mentionedUser.name) && IsNullOrEmpty(mentionText) {
      return Failure(InvalidArgument);
    }
    if !IsNullOrWhiteSpace(mentionText) {
      mentionedUser.name := mentionText;
    }
    var str := MentionToken(mentionedUser.name);
    if !prependMention {
      activity.text := Some(Str(activity.text) + " " + str);
    } else {
      activity.text := Some(str + " " + Str(activity.text));
    }
    if activity.entities.None? {
      activity.entities := Some([]);
    }
    var entities := activity.entities.value;
    activity.entities := Some(entities + [Mention(str, mentionedUser)]);
    return Success(activity);
  }
}
