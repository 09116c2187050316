/**
 * The message record of the messaging core: its fields, the rule that text
 * messages need content, its defaults, and the `otherParticipant` getter
 * (backend/models/Message.js).
 */
module Messages {
  import opened Common

  datatype MessageType = Text | Image | File

  /** The string stored for a message type. */
  function TypeName(t: MessageType): string {
    match t
    case Text => "text"
    case Image => "image"
    case File => "file"
  }

  /** The `enum` validator of `messageType`: only the three names are accepted. */
  function ParseMessageType(s: string): (r: Option<MessageType>)
    ensures r.Some? <==> s == "text" || s == "image" || s == "file"
    ensures r.Some? ==> TypeName(r.value) == s
  {
    if s == "text" then Some(Text)
    else if s == "image" then Some(Image)
    else if s == "file" then Some(File)
    else None
  }

  lemma ParseTypeNameRoundTrip(t: MessageType)
    ensures ParseMessageType(TypeName(t)) == Some(t)
  {
  }

  datatype Attachment = Attachment(
    fileName: Option<string>,
    fileUrl: Option<string>,
    fileType: Option<string>,
    fileSize: Option<int>)

  datatype Message = Message(
    conversationId: string,
    sender: UserId,
    recipient: UserId,
    content: Option<string>,
    messageType: MessageType,
    attachments: seq<Attachment>,
    isRead: bool,
    readAt: Option<nat>,
    isDeleted: bool,
    deletedBy: seq<UserId>,
    createdAt: nat)

  /** `content` is a required field exactly for text messages. */
  predicate ContentRequired(t: MessageType) {
    t == Text
  }

  /**
   * `Message.create` with the schema's validation and defaults: the
   * conversation key is required, the type must be one of the enum (absent
   * means text), and a text message needs non-empty content. The new message
   * is unread, not deleted, and deleted by nobody.
   */
  function NewMessage(conversationId: string, sender: UserId, recipient: UserId,
                      content: Option<string>, messageType: Option<string>,
                      attachments: seq<Attachment>, now: nat): (r: Option<Message>)
    ensures r.Some? <==>
      && conversationId != ""
      && ParseMessageType(messageType.GetOr("text")).Some?
      && (messageType.GetOr("text") == "text" ==> Present(content))
    ensures r.Some? ==>
      && r.value.conversationId == conversationId
      && r.value.sender == sender && r.value.recipient == recipient
      && r.value.content == content && r.value.attachments == attachments
      && TypeName(r.value.messageType) == messageType.GetOr("text")
      && !r.value.isRead && r.value.readAt == None
      && !r.value.isDeleted && r.value.deletedBy == []
      && r.value.createdAt == now
  {
    match ParseMessageType(messageType.GetOr("text"))
    case None => None
    case Some(t) =>
      if conversationId == "" || (ContentRequired(t) && !Present(content)) then None
      else Some(Message(conversationId, sender, recipient, content, t, attachments,
                        false, None, false, [], now))
  }

  /** Without a type the message is a text message, so its content is required. */
  lemma DefaultTypeNeedsContent(conversationId: string, sender: UserId, recipient: UserId,
                                attachments: seq<Attachment>, now: nat)
    ensures NewMessage(conversationId, sender, recipient, None, None, attachments, now) == None
    ensures NewMessage(conversationId, sender, recipient, Some(""), None, attachments, now) == None
  {
  }

  /**
   * The `otherParticipant` getter: seen by `currentUser`, the other party of
   * the message.
   */
  function OtherParticipant(m: Message, currentUser: UserId): (u: UserId)
    ensures u == m.sender || u == m.recipient
    ensures currentUser != m.sender ==> u == m.sender
    ensures m.sender != m.recipient && currentUser in {m.sender, m.recipient} ==> u != currentUser
  {
    if m.sender == currentUser then m.recipient else m.sender
  }
}
