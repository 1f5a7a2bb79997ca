/**
 * The Microsoft Graph chat-message resource as the core reads it: a message,
 * its sender identities, body, attachments, mentions and reactions, and a page
 * of a paged message collection. Every C# reference that Graph may leave out
 * is an Option; timestamps are integers (ticks of a DateTimeOffset).
 */
module GraphModels {
  import opened Wrappers

  /** IIdentity: a display name and an id. */
  datatype Identity = Identity(displayName: Option<string>, id: Option<string>)

  /** IMessageIdentitySet: who sent a message; any part may be missing. */
  datatype IdentitySet = IdentitySet(
    application: Option<Identity>,
    conversation: Option<Identity>,
    device: Option<Identity>,
    user: Option<Identity>)

  /** IMessageBody */
  datatype Body = Body(content: Option<string>, contentType: Option<string>)

  /** IMessageAttachment */
  datatype Attachment = Attachment(
    id: Option<string>,
    contentType: Option<string>,
    contentUrl: Option<string>,
    content: Option<string>,
    name: Option<string>,
    thumbnailUrl: Option<string>)

  /** IMessageReaction */
  datatype Reaction = Reaction(createdDateTime: int, reactionType: Option<string>, user: Option<IdentitySet>)

  /** IMessageMention */
  datatype Mention = Mention(id: int, mentionText: Option<string>, mentioned: Option<IdentitySet>)

  /** IMessageDetails: one chat message. A null ReplyToId marks a thread's first message. */
  datatype Message = Message(
    id: Option<string>,
    replyToId: Option<string>,
    etag: Option<string>,
    createdDateTime: int,
    lastModifiedDateTime: Option<int>,
    deletedDateTime: Option<int>,
    subject: Option<string>,
    summary: Option<string>,
    importance: Option<string>,
    locale: Option<string>,
    from: Option<IdentitySet>,
    body: Option<Body>,
    attachments: Option<seq<Attachment>>,
    mentions: Option<seq<Mention>>,
    reactions: Option<seq<Reaction>>)

  /** MessageDetailsResponse: the "value" array and the "@odata.nextLink" cursor of one page. */
  datatype Page = Page(messages: seq<Message>, nextLink: Option<string>)

  /** The sort key of a message: its creation time. */
  function Created(m: Message): int {
    m.createdDateTime
  }
}
