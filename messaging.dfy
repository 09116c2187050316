/**
 * The message handlers of backend/controllers/messageController.js over the
 * conversations and messages collections: sending (gated on an accepted
 * mentorship), the conversation list, paginated threads, mark-read, soft
 * delete, the unread total and search.
 */
module Messaging {
  import opened Common
  import opened Ordering
  import opened Messages
  import opened Conversations
  import opened Mentorship

  /** The caption of a non-text message in the conversation snapshot. */
  const CaptionPrefix: string := "Sent a "

  /** The `lastMessage` snapshot written by `sendMessage`. */
  function Snapshot(m: Message): (s: LastMessage)
    ensures s.sender == m.sender && s.createdAt == m.createdAt && s.messageType == m.messageType
    ensures m.messageType == Text ==> s.content == m.content.GetOr("")
  {
    LastMessage(
      if m.messageType == Text then m.content.GetOr("") else CaptionPrefix + TypeName(m.messageType),
      m.sender, m.createdAt, m.messageType)
  }

  /** The caption of an image or file message names its type, which can be read back from it. */
  lemma CaptionNamesType(m: Message)
    requires m.messageType != Text
    ensures var c := Snapshot(m).content;
      |CaptionPrefix| <= |c| && c[..|CaptionPrefix|] == CaptionPrefix
      && ParseMessageType(c[|CaptionPrefix|..]) == Some(m.messageType)
  {
    var c := Snapshot(m).content;
    assert c[|CaptionPrefix|..] == TypeName(m.messageType);
    ParseTypeNameRoundTrip(m.messageType);
  }

  /**
   * The conversation update of `sendMessage`: the snapshot and its time, and
   * the recipient's unread counter (absent counting as 0) raised by one.
   */
  function RecordSend(c: Conversation, m: Message): (r: Conversation)
    ensures r.participants == c.participants && r.isArchived == c.isArchived && r.createdAt == c.createdAt
    ensures Unread(r, m.recipient) == Unread(c, m.recipient) + 1
    ensures forall u :: u != m.recipient ==> Unread(r, u) == Unread(c, u)
    ensures r.lastMessageAt == m.createdAt
    ensures r.lastMessage == Some(Snapshot(m))
  {
    c.(lastMessage := Some(Snapshot(m)), lastMessageAt := m.createdAt,
       unreadCount := c.unreadCount[m.recipient := Unread(c, m.recipient) + 1])
  }

  /**
   * The checks `sendMessage` makes before it touches anything: a recipient
   * id, content for a text message, an existing recipient, and an accepted
   * request between the two in either orientation.
   */
  function SendGate(sender: UserId, recipientId: Option<string>, content: Option<string>,
                    messageType: Option<string>, users: set<UserId>,
                    requests: seq<MentorshipRequest>): (r: Reply<UserId>)
    ensures r.Ok? <==>
      && Present(recipientId)
      && (messageType.GetOr("text") == "text" ==> Present(content))
      && recipientId.value in users
      && HasAcceptedConnection(requests, sender, recipientId.value)
    ensures r.Ok? ==> r.value == recipientId.value
    ensures r == BadRequest <==>
      !Present(recipientId) || (messageType.GetOr("text") == "text" && !Present(content))
    ensures r == NotFound <==>
      && Present(recipientId)
      && (messageType.GetOr("text") == "text" ==> Present(content))
      && recipientId.value !in users
    ensures r == Forbidden <==>
      && Present(recipientId)
      && (messageType.GetOr("text") == "text" ==> Present(content))
      && recipientId.value in users
      && !HasAcceptedConnection(requests, sender, recipientId.value)
    ensures !r.ServerError?
  {
    if !Present(recipientId) then BadRequest
    else if messageType.GetOr("text") == "text" && !Present(content) then BadRequest
    else if recipientId.value !in users then NotFound
    else if !HasAcceptedConnection(requests, sender, recipientId.value) then Forbidden
    else Ok(recipientId.value)
  }

  /**
   * Once the gate is passed, creating the message fails (the handler's catch,
   * 500) exactly when the type is not one of the enum: the key is never empty
   * and text content was already checked.
   */
  lemma SendFailsOnlyOnBadType(sender: UserId, recipientId: Option<string>, content: Option<string>,
                               messageType: Option<string>, users: set<UserId>,
                               requests: seq<MentorshipRequest>, attachments: seq<Attachment>, now: nat)
    requires SendGate(sender, recipientId, content, messageType, users, requests).Ok?
    ensures var recipient := recipientId.value;
      NewMessage(ConversationKey(sender, recipient), sender, recipient, content, messageType, attachments, now).None?
      <==> ParseMessageType(messageType.GetOr("text")).None?
  {
  }

  /** A message's `deletedBy` and `isDeleted` agree, and only its sender ever appears in `deletedBy`. */
  predicate DeleteConsistent(m: Message) {
    && (m.isDeleted <==> |m.deletedBy| >= 2)
    && forall u :: u in m.deletedBy ==> u == m.sender
  }

  /** `deleteMessage` after its checks: push the caller, fully delete once two entries are recorded. */
  function SoftDelete(m: Message, user: UserId): (r: Message)
    ensures r == m.(deletedBy := r.deletedBy, isDeleted := r.isDeleted)
    ensures r.deletedBy == m.deletedBy + [user]
    ensures r.isDeleted <==> m.isDeleted || |m.deletedBy| + 1 == 2
  {
    var deletedBy := m.deletedBy + [user];
    m.(deletedBy := deletedBy, isDeleted := m.isDeleted || |deletedBy| == 2)
  }

  lemma NewMessageConsistent(conversationId: string, sender: UserId, recipient: UserId,
                             content: Option<string>, messageType: Option<string>,
                             attachments: seq<Attachment>, now: nat)
    requires NewMessage(conversationId, sender, recipient, content, messageType, attachments, now).Some?
    ensures DeleteConsistent(NewMessage(conversationId, sender, recipient, content, messageType, attachments, now).value)
  {
  }

  /** A delete by the sender keeps `deletedBy` and `isDeleted` consistent. */
  lemma SoftDeleteKeepsConsistent(m: Message)
    requires DeleteConsistent(m)
    ensures DeleteConsistent(SoftDelete(m, m.sender))
  {
  }

  /**
   * Because the push is unconditional, a fresh message deleted once by its
   * sender is still visible, and deleted twice by its sender is fully deleted.
   */
  lemma SecondDeleteBySenderDeletes(m: Message)
    requires m.deletedBy == [] && !m.isDeleted
    ensures !SoftDelete(m, m.sender).isDeleted
    ensures SoftDelete(SoftDelete(m, m.sender), m.sender).isDeleted
  {
  }

  /** The `updateMany` filter of `markAsRead`: unread messages of this conversation from `other` to `reader`. */
  predicate ReadTarget(m: Message, key: string, reader: UserId, other: UserId) {
    m.conversationId == key && m.recipient == reader && m.sender == other && !m.isRead
  }

  /** The messages after `markAsRead`: each target is read at `now`, every other message is unchanged. */
  function MarkedRead(ms: seq<Message>, key: string, reader: UserId, other: UserId, now: nat): (r: seq<Message>)
    ensures |r| == |ms|
    ensures forall i :: 0 <= i < |ms| && ReadTarget(ms[i], key, reader, other) ==>
      r[i] == ms[i].(isRead := true, readAt := Some(now))
    ensures forall i :: 0 <= i < |ms| && !ReadTarget(ms[i], key, reader, other) ==> r[i] == ms[i]
  {
    seq(|ms|, i requires 0 <= i < |ms| =>
      if ReadTarget(ms[i], key, reader, other) then ms[i].(isRead := true, readAt := Some(now)) else ms[i])
  }

  /** After marking, no message from `other` to `reader` in that conversation is unread. */
  lemma MarkedReadClears(ms: seq<Message>, key: string, reader: UserId, other: UserId, now: nat)
    ensures var r := MarkedRead(ms, key, reader, other, now);
      forall i :: 0 <= i < |r| ==> !ReadTarget(r[i], key, reader, other)
  {
  }

  /** Marking twice changes nothing the second time, not even the read times. */
  lemma MarkedReadIdempotent(ms: seq<Message>, key: string, reader: UserId, other: UserId, now1: nat, now2: nat)
    ensures var r := MarkedRead(ms, key, reader, other, now1);
      MarkedRead(r, key, reader, other, now2) == r
  {
    var r := MarkedRead(ms, key, reader, other, now1);
    var r2 := MarkedRead(r, key, reader, other, now2);
    assert forall i :: 0 <= i < |r| ==> r2[i] == r[i];
  }

  /** Delete state and the other fields `deleteMessage` relies on are untouched by marking. */
  lemma MarkedReadKeepsConsistent(ms: seq<Message>, key: string, reader: UserId, other: UserId, now: nat)
    requires forall i :: 0 <= i < |ms| ==> DeleteConsistent(ms[i])
    ensures var r := MarkedRead(ms, key, reader, other, now);
      forall i :: 0 <= i < |r| ==> DeleteConsistent(r[i]) && r[i].sender == ms[i].sender
  {
  }

  /** The lookup `{ participants: { $all: [a, b] } }` of `markAsRead` (no size constraint). */
  predicate ContainsBoth(c: Conversation, a: UserId, b: UserId) {
    a in c.participants && b in c.participants
  }

  /** The first conversation from `from` on that contains both users. */
  function FirstContainingFrom(cs: seq<Conversation>, a: UserId, b: UserId, from: nat): (r: Option<nat>)
    requires from <= |cs|
    ensures r.Some? ==> from <= r.value < |cs| && ContainsBoth(cs[r.value], a, b)
    ensures r.Some? ==> forall j :: from <= j < r.value ==> !ContainsBoth(cs[j], a, b)
    ensures r.None? ==> forall j :: from <= j < |cs| ==> !ContainsBoth(cs[j], a, b)
    decreases |cs| - from
  {
    if from == |cs| then None
    else if ContainsBoth(cs[from], a, b) then Some(from)
    else FirstContainingFrom(cs, a, b, from + 1)
  }

  /** The reader's unread counter set to 0; nobody else's counter changes. */
  function ResetUnread(c: Conversation, reader: UserId): (r: Conversation)
    ensures r.participants == c.participants && r.lastMessage == c.lastMessage
    ensures r.lastMessageAt == c.lastMessageAt
    ensures Unread(r, reader) == 0
    ensures forall u :: u != reader ==> Unread(r, u) == Unread(c, u)
  {
    c.(unreadCount := c.unreadCount[reader := 0])
  }

  /** What `markAsRead` does to the conversations: reset the reader's counter in the first one holding both. */
  function ResetFirstContaining(cs: seq<Conversation>, reader: UserId, other: UserId): (r: seq<Conversation>)
    ensures |r| == |cs|
    ensures FirstContainingFrom(cs, reader, other, 0).None? ==> r == cs
    ensures FirstContainingFrom(cs, reader, other, 0).Some? ==>
      var i := FirstContainingFrom(cs, reader, other, 0).value;
      r == cs[i := ResetUnread(cs[i], reader)]
  {
    match FirstContainingFrom(cs, reader, other, 0)
    case None => cs
    case Some(i) => cs[i := ResetUnread(cs[i], reader)]
  }

  /** The contribution of one conversation to the unread total of `user`. */
  function UnreadIn(c: Conversation, user: UserId): nat {
    if user in c.participants then Unread(c, user) else 0
  }

  /** The total `getUnreadCount` reports: the user's counters over the conversations they take part in. */
  function SumUnread(cs: seq<Conversation>, user: UserId): (n: nat)
    ensures forall i :: 0 <= i < |cs| ==> UnreadIn(cs[i], user) <= n
    ensures n == 0 <==> forall i :: 0 <= i < |cs| ==> UnreadIn(cs[i], user) == 0
    decreases |cs|
  {
    if cs == [] then 0
    else
      var init := cs[..|cs| - 1];
      assert forall i :: 0 <= i < |init| ==> init[i] == cs[i];
      SumUnread(init, user) + UnreadIn(cs[|cs| - 1], user)
  }

  /** Replacing one conversation changes the total by the difference of its contributions. */
  lemma {:induction false} SumUnreadUpdate(cs: seq<Conversation>, i: nat, c: Conversation, user: UserId)
    requires i < |cs|
    ensures SumUnread(cs[i := c], user) + UnreadIn(cs[i], user) == SumUnread(cs, user) + UnreadIn(c, user)
    decreases |cs|
  {
    var cs' := cs[i := c];
    var n := |cs| - 1;
    assert SumUnread(cs, user) == SumUnread(cs[..n], user) + UnreadIn(cs[n], user);
    assert SumUnread(cs', user) == SumUnread(cs'[..n], user) + UnreadIn(cs'[n], user);
    if i < n {
      assert cs'[..n] == cs[..n][i := c];
      SumUnreadUpdate(cs[..n], i, c, user);
    } else {
      assert cs'[..n] == cs[..n];
    }
  }

  /** A conversation appended with zero counters leaves every total unchanged. */
  lemma SumUnreadAppendFresh(cs: seq<Conversation>, c: Conversation, user: UserId)
    requires Unread(c, user) == 0
    ensures SumUnread(cs + [c], user) == SumUnread(cs, user)
  {
    assert (cs + [c])[..|cs|] == cs;
  }

  /**
   * A successful send raises the recipient's unread total by exactly one and
   * leaves every other user's total unchanged, whether the conversation was
   * found or created.
   */
  lemma SendRaisesUnreadTotal(cs: seq<Conversation>, sender: UserId, m: Message, now: nat, u: UserId)
    ensures var (cs1, idx) := FindOrCreateSpec(cs, sender, m.recipient, now);
      SumUnread(cs1[idx := RecordSend(cs1[idx], m)], u)
        == SumUnread(cs, u) + (if u == m.recipient then 1 else 0)
  {
    var (cs1, idx) := FindOrCreateSpec(cs, sender, m.recipient, now);
    if FirstMatch(cs, sender, m.recipient).None? {
      SumUnreadAppendFresh(cs, NewConversation(sender, m.recipient, now), u);
    }
    assert SumUnread(cs1, u) == SumUnread(cs, u);
    RecordSendRaises(cs1[idx], m, u);
    SumUnreadUpdate(cs1, idx, RecordSend(cs1[idx], m), u);
  }

  /** Recording a send in a conversation of the recipient adds one to the recipient's contribution only. */
  lemma RecordSendRaises(c: Conversation, m: Message, u: UserId)
    requires m.recipient in c.participants
    ensures UnreadIn(RecordSend(c, m), u) == UnreadIn(c, u) + (if u == m.recipient then 1 else 0)
  {
  }

  /**
   * After `markAsRead` the reader's total drops by what the reset
   * conversation held for them, and every other user's total is unchanged.
   */
  lemma MarkReadLowersUnreadTotal(cs: seq<Conversation>, reader: UserId, other: UserId, u: UserId)
    requires FirstContainingFrom(cs, reader, other, 0).Some?
    ensures var i := FirstContainingFrom(cs, reader, other, 0).value;
      SumUnread(ResetFirstContaining(cs, reader, other), u)
        == SumUnread(cs, u) - (if u == reader then Unread(cs[i], reader) else 0)
  {
    var i := FirstContainingFrom(cs, reader, other, 0).value;
    SumUnreadUpdate(cs, i, ResetUnread(cs[i], reader), u);
  }

  /** One row of the conversation list. */
  datatype ConversationView = ConversationView(
    id: nat,
    conversationId: string,
    participant: UserId,
    lastMessage: Option<LastMessage>,
    lastMessageAt: nat,
    unreadCount: nat,
    createdAt: nat)

  /** `participants.find(p => p != user)`: the first participant other than `user`. */
  function OtherOf(participants: seq<UserId>, user: UserId): (r: Option<UserId>)
    ensures r.None? ==> forall p :: p in participants ==> p == user
    ensures r.Some? ==> r.value in participants && r.value != user
  {
    if participants == [] then None
    else
      assert participants == [participants[0]] + participants[1..];
      if participants[0] != user then Some(participants[0])
      else OtherOf(participants[1..], user)
  }

  function ByLastMessage(e: (nat, Conversation)): Rank {
    Rank(e.1.lastMessageAt, 0)
  }

  /** The conversations of `user`. */
  function Mine(user: UserId): ((nat, Conversation)) -> bool {
    (e: (nat, Conversation)) => user in e.1.participants
  }

  /**
   * The query of `getConversations`: the user's conversations, latest
   * activity first, as many as there are but at most 50.
   */
  function LatestConversations(cs: seq<Conversation>, user: UserId): (r: seq<(nat, Conversation)>)
    ensures |r| == Min(Count(Indexed(cs), Mine(user)), 50)
    ensures Descending(r, ByLastMessage)
    ensures forall e :: e in r ==> e.0 < |cs| && cs[e.0] == e.1 && user in e.1.participants
  {
    Top(Filter(Indexed(cs), Mine(user)), ByLastMessage, 50)
  }

  /** No conversation of the user left out of the 50 fetched had later activity than one fetched. */
  lemma LatestConversationsHoldLatest(cs: seq<Conversation>, user: UserId, x: (nat, Conversation), y: (nat, Conversation))
    requires x in LatestConversations(cs, user)
    requires y in Indexed(cs) && user in y.1.participants && y !in LatestConversations(cs, user)
    ensures y.1.lastMessageAt <= x.1.lastMessageAt
  {
    TopHoldsLargest(Filter(Indexed(cs), Mine(user)), ByLastMessage, 50, x, y);
  }

  /** A user with at most 50 conversations has all of them fetched. */
  lemma LatestConversationsAllWhenFew(cs: seq<Conversation>, user: UserId, y: (nat, Conversation))
    requires Count(Indexed(cs), Mine(user)) <= 50
    requires y in Indexed(cs) && user in y.1.participants
    ensures y in LatestConversations(cs, user)
  {
    TopAllWhenFew(Filter(Indexed(cs), Mine(user)), ByLastMessage, 50, y);
  }

  /** The row shown for a conversation whose other participant is `other`. */
  function ViewOf(e: (nat, Conversation), user: UserId, other: UserId): ConversationView {
    ConversationView(e.0, ConversationKey(user, other), other, e.1.lastMessage, e.1.lastMessageAt,
                     Unread(e.1, user), e.1.createdAt)
  }

  /** Every conversation of `top` has a participant other than `user`. */
  predicate AllHaveOther(top: seq<(nat, Conversation)>, user: UserId) {
    forall e :: e in top ==> OtherOf(e.1.participants, user).Some?
  }

  /** The other participant of the conversation has an accepted request with `user`. */
  function AcceptedOther(requests: seq<MentorshipRequest>, user: UserId): ((nat, Conversation)) -> bool {
    (e: (nat, Conversation)) => HasAcceptedConnection(requests, user, OtherOf(e.1.participants, user).GetOr(user))
  }

  /** The row of a conversation, named by its other participant. */
  function RowOf(user: UserId): ((nat, Conversation)) -> ConversationView {
    (e: (nat, Conversation)) => ViewOf(e, user, OtherOf(e.1.participants, user).GetOr(user))
  }

  /**
   * The rows of `getConversations` over the fetched conversations: one row
   * for each conversation whose other participant has an accepted request
   * with the user, in the fetched order, and no other. A conversation
   * without another participant makes the handler fail.
   */
  function ConversationRows(top: seq<(nat, Conversation)>, user: UserId,
                            requests: seq<MentorshipRequest>): (r: Reply<seq<ConversationView>>)
    ensures r.Ok? <==> AllHaveOther(top, user)
    ensures !r.Ok? ==> r == ServerError
    ensures r.Ok? ==> r.value == Map(Filter(top, AcceptedOther(requests, user)), RowOf(user))
    ensures r.Ok? ==> |r.value| <= |top|
    ensures r.Ok? ==> forall i :: 0 <= i < |r.value| ==>
      exists e :: e in top && r.value[i] == ViewOf(e, user, OtherOf(e.1.participants, user).GetOr(user))
    ensures r.Ok? ==> forall i :: 0 <= i < |r.value| ==>
      r.value[i].participant != user && HasAcceptedConnection(requests, user, r.value[i].participant)
  {
    if !AllHaveOther(top, user) then ServerError
    else
      var kept := Filter(top, AcceptedOther(requests, user));
      var rows := Map(kept, RowOf(user));
      forall i | 0 <= i < |rows|
        ensures exists e :: e in top && rows[i] == ViewOf(e, user, OtherOf(e.1.participants, user).GetOr(user))
        ensures rows[i].participant != user && HasAcceptedConnection(requests, user, rows[i].participant)
      {
        assert kept[i] in kept;
      }
      Ok(rows)
  }

  /**
   * Every fetched conversation whose other participant has an accepted
   * request with the user is listed, with its own row.
   */
  lemma ConversationRowsComplete(top: seq<(nat, Conversation)>, user: UserId, requests: seq<MentorshipRequest>,
                                 y: (nat, Conversation))
    requires ConversationRows(top, user, requests).Ok?
    requires y in top && AcceptedOther(requests, user)(y)
    ensures var rows := ConversationRows(top, user, requests).value;
      exists i :: 0 <= i < |rows| && rows[i] == RowOf(user)(y) && rows[i].id == y.0
  {
    var kept := Filter(top, AcceptedOther(requests, user));
    assert y in kept;
    var k :| 0 <= k < |kept| && kept[k] == y;
    var rows := Map(kept, RowOf(user));
    assert rows[k] == RowOf(user)(y);
  }

  /** `getConversations` lists each kept conversation with the user's own unread counter, latest first. */
  lemma ConversationRowsDescribe(cs: seq<Conversation>, user: UserId, requests: seq<MentorshipRequest>)
    requires ConversationRows(LatestConversations(cs, user), user, requests).Ok?
    ensures var rows := ConversationRows(LatestConversations(cs, user), user, requests).value;
      && |rows| <= 50
      && (forall i :: 0 <= i < |rows| ==>
            && rows[i].id < |cs|
            && user in cs[rows[i].id].participants
            && rows[i].participant in cs[rows[i].id].participants
            && rows[i].unreadCount == Unread(cs[rows[i].id], user)
            && rows[i].conversationId == ConversationKey(user, rows[i].participant))
  {
    var top := LatestConversations(cs, user);
    var rows := ConversationRows(top, user, requests).value;
    forall i | 0 <= i < |rows|
      ensures rows[i].id < |cs| && user in cs[rows[i].id].participants
      ensures rows[i].participant in cs[rows[i].id].participants
      ensures rows[i].unreadCount == Unread(cs[rows[i].id], user)
      ensures rows[i].conversationId == ConversationKey(user, rows[i].participant)
    {
      var e :| e in top && rows[i] == ViewOf(e, user, OtherOf(e.1.participants, user).GetOr(user));
      assert OtherOf(e.1.participants, user).Some?;
    }
  }

  /** The rows keep the order of the fetched conversations: latest activity first. */
  lemma {:induction false} ConversationRowsLatestFirst(cs: seq<Conversation>, user: UserId, requests: seq<MentorshipRequest>)
    requires ConversationRows(LatestConversations(cs, user), user, requests).Ok?
    ensures var rows := ConversationRows(LatestConversations(cs, user), user, requests).value;
      forall i, j :: 0 <= i < j < |rows| ==> rows[j].lastMessageAt <= rows[i].lastMessageAt
  {
    var top := LatestConversations(cs, user);
    FilterKeepsDescending(top, AcceptedOther(requests, user), ByLastMessage);
  }

  /** `hasMore` of `getMessages` and the page it came with. */
  datatype MessagePage = MessagePage(messages: seq<(nat, Message)>, count: nat, hasMore: bool)

  /** The query of `getMessages`: this conversation, not fully deleted, older than the cursor if one is given. */
  predicate InThread(e: (nat, Message), key: string, before: Option<nat>) {
    e.1.conversationId == key && !e.1.isDeleted && (before.None? || e.1.createdAt < before.value)
  }

  function ByCreated(e: (nat, Message)): Rank {
    Rank(e.1.createdAt, 0)
  }

  /** The messages of the conversation `key` shown by `getMessages`. */
  function InThreadOf(key: string, before: Option<nat>): ((nat, Message)) -> bool {
    (e: (nat, Message)) => InThread(e, key, before)
  }

  /** The messages of the thread, newest first. */
  function ThreadNewestFirst(ms: seq<Message>, key: string, before: Option<nat>): (r: seq<(nat, Message)>)
    ensures Descending(r, ByCreated)
    ensures forall e :: e in r <==> e in Indexed(ms) && InThread(e, key, before)
    ensures |r| == Count(Indexed(ms), InThreadOf(key, before))
  {
    var matching := Filter(Indexed(ms), InThreadOf(key, before));
    SortDescSameMembers(matching, ByCreated);
    SortDesc(matching, ByCreated)
  }

  /**
   * The page `getMessages` returns: the `limit` newest, turned back to
   * oldest first; a full page when the thread holds that many.
   */
  function ThreadPage(ms: seq<Message>, key: string, before: Option<nat>, limit: int): (r: seq<(nat, Message)>)
    ensures limit != 0 ==> |r| == Min(Count(Indexed(ms), InThreadOf(key, before)), Abs(limit))
    ensures limit == 0 ==> |r| == Count(Indexed(ms), InThreadOf(key, before))
  {
    Reverse(Limit(ThreadNewestFirst(ms, key, before), limit))
  }

  /** Every message of the page belongs to the thread, and the page is in ascending time order. */
  lemma ThreadPageSoundAndAscending(ms: seq<Message>, key: string, before: Option<nat>, limit: int)
    ensures var r := ThreadPage(ms, key, before, limit);
      && (forall e :: e in r ==> e.0 < |ms| && ms[e.0] == e.1 && InThread(e, key, before))
      && (forall i, j :: 0 <= i < j < |r| ==> r[i].1.createdAt <= r[j].1.createdAt)
  {
    var all := ThreadNewestFirst(ms, key, before);
    var top := Limit(all, limit);
    var r := Reverse(top);
    LimitDescending(all, ByCreated, limit);
    ReverseMembers(top);
    forall e | e in r
      ensures e.0 < |ms| && ms[e.0] == e.1 && InThread(e, key, before)
    {
      assert e in all;
    }
    ReverseAscending(top, ByCreated, r);
  }

  /** No message of the thread left off the page is newer than one on it. */
  lemma ThreadPageHoldsNewest(ms: seq<Message>, key: string, before: Option<nat>, limit: int,
                              x: (nat, Message), y: (nat, Message))
    requires x in ThreadPage(ms, key, before, limit)
    requires y in Indexed(ms) && InThread(y, key, before) && y !in ThreadPage(ms, key, before, limit)
    ensures y.1.createdAt <= x.1.createdAt
  {
    var all := ThreadNewestFirst(ms, key, before);
    var top := Limit(all, limit);
    ReverseMembers(top);
    var k := |top|;
    assert top == all[..k];
    PrefixHoldsLargest(all, ByCreated, k, x, y);
  }

  /** JavaScript's white space and line terminators, which `trim` removes. */
  predicate IsJsSpace(c: char) {
    || c == '\t' || c == '\n' || c == '\U{B}' || c == '\U{C}' || c == '\r' || c == ' '
    || c == '\U{A0}' || c == '\U{1680}' || ('\U{2000}' <= c <= '\U{200A}')
    || c == '\U{2028}' || c == '\U{2029}' || c == '\U{202F}' || c == '\U{205F}'
    || c == '\U{3000}' || c == '\U{FEFF}'
  }

  function TrimStart(s: string): (r: string)
    ensures |r| <= |s| && r == s[|s| - |r|..]
    ensures r == [] || !IsJsSpace(r[0])
    ensures forall i :: 0 <= i < |s| - |r| ==> IsJsSpace(s[i])
  {
    if s == [] || !IsJsSpace(s[0]) then s else TrimStart(s[1..])
  }

  function TrimEnd(s: string): (r: string)
    ensures |r| <= |s| && r == s[..|r|]
    ensures r == [] || !IsJsSpace(r[|r| - 1])
    ensures forall i :: |r| <= i < |s| ==> IsJsSpace(s[i])
  {
    if s == [] || !IsJsSpace(s[|s| - 1]) then s else TrimEnd(s[..|s| - 1])
  }

  /** `s.trim()`. */
  function Trim(s: string): (r: string)
    ensures |r| <= |s|
    ensures r == [] <==> forall i :: 0 <= i < |s| ==> IsJsSpace(s[i])
    ensures r != [] ==> !IsJsSpace(r[0]) && !IsJsSpace(r[|r| - 1])
  {
    TrimEnd(TrimStart(s))
  }

  /** `q.trim().length === 0` holds exactly when every character of `q` is white space. */
  lemma TrimEmptyIffBlank(q: string)
    ensures |Trim(q)| == 0 <==> forall i :: 0 <= i < |q| ==> IsJsSpace(q[i])
  {
  }

  /** The query of `searchMessages`: the user's own non-deleted messages whose content matches. */
  predicate SearchHit(e: (nat, Message), user: UserId, q: string, matches: (string, string) -> bool) {
    (e.1.sender == user || e.1.recipient == user) && !e.1.isDeleted
    && e.1.content.Some? && matches(q, e.1.content.value)
  }

  function HitOf(user: UserId, q: string, matches: (string, string) -> bool): ((nat, Message)) -> bool {
    (e: (nat, Message)) => SearchHit(e, user, q, matches)
  }

  /** The query is missing or only white space. */
  predicate BlankQuery(q: Option<string>) {
    q.None? || |Trim(q.value)| == 0
  }

  /**
   * `searchMessages`: nothing for a missing or blank query; otherwise the
   * matching messages, newest first, as many as there are but at most 50.
   * The regular-expression match of `q` against the content is the
   * parameter `matches`.
   */
  function Search(ms: seq<Message>, user: UserId, q: Option<string>,
                  matches: (string, string) -> bool): (r: seq<(nat, Message)>)
    ensures BlankQuery(q) ==> r == []
    ensures !BlankQuery(q) ==> |r| == Min(Count(Indexed(ms), HitOf(user, q.value, matches)), 50)
    ensures Descending(r, ByCreated)
    ensures forall e :: e in r ==> q.Some? && e.0 < |ms| && ms[e.0] == e.1 && SearchHit(e, user, q.value, matches)
  {
    if BlankQuery(q) then []
    else Top(Filter(Indexed(ms), HitOf(user, q.value, matches)), ByCreated, 50)
  }

  /** No matching message left out of the results is newer than one returned. */
  lemma SearchHoldsNewest(ms: seq<Message>, user: UserId, q: Option<string>, matches: (string, string) -> bool,
                          x: (nat, Message), y: (nat, Message))
    requires x in Search(ms, user, q, matches)
    requires !BlankQuery(q) && y in Indexed(ms) && SearchHit(y, user, q.value, matches)
    requires y !in Search(ms, user, q, matches)
    ensures y.1.createdAt <= x.1.createdAt
  {
    TopHoldsLargest(Filter(Indexed(ms), HitOf(user, q.value, matches)), ByCreated, 50, x, y);
  }

  /** With at most 50 matches, every matching message is returned. */
  lemma SearchAllWhenFew(ms: seq<Message>, user: UserId, q: Option<string>, matches: (string, string) -> bool,
                         y: (nat, Message))
    requires !BlankQuery(q) && Count(Indexed(ms), HitOf(user, q.value, matches)) <= 50
    requires y in Indexed(ms) && SearchHit(y, user, q.value, matches)
    ensures y in Search(ms, user, q, matches)
  {
    TopAllWhenFew(Filter(Indexed(ms), HitOf(user, q.value, matches)), ByCreated, 50, y);
  }

  /** What a successful `sendMessage` answers with. */
  datatype Sent = Sent(conversationId: string, messageId: nat)

  /** The messages collection, next to the conversation directory it keeps up to date. */
  class MessageStore {
    const directory: ConversationDirectory
    var messages: seq<Message>

    /** Every stored message keeps its delete state consistent. */
    ghost predicate Valid()
      reads this
    {
      forall i :: 0 <= i < |messages| ==> DeleteConsistent(messages[i])
    }

    constructor ()
      ensures Valid() && messages == [] && fresh(directory) && directory.conversations == []
    {
      directory := new ConversationDirectory();
      messages := [];
    }

    /**
     * `sendMessage`: run the checks, find or create the conversation, store
     * the message, then update the snapshot and the recipient's counter.
     */
    method SendMessage(sender: UserId, recipientId: Option<string>, content: Option<string>,
                       messageType: Option<string>, attachments: seq<Attachment>,
                       users: set<UserId>, requests: seq<MentorshipRequest>, now: nat)
      returns (r: Reply<Sent>)
      requires Valid()
      modifies this, directory
      ensures Valid()
      ensures var g := SendGate(sender, recipientId, content, messageType, users, requests);
        !g.Ok? ==> r == Rethrow(g) && messages == old(messages)
                   && directory.conversations == old(directory.conversations)
      ensures var g := SendGate(sender, recipientId, content, messageType, users, requests);
        g.Ok? ==>
          var key := ConversationKey(sender, g.value);
          var (cs, idx) := FindOrCreateSpec(old(directory.conversations), sender, g.value, now);
          var m := NewMessage(key, sender, g.value, content, messageType, attachments, now);
          && (m.None? ==> r == ServerError && messages == old(messages) && directory.conversations == cs)
          && (m.Some? ==> r == Ok(Sent(key, |old(messages)|))
                          && messages == old(messages) + [m.value]
                          && directory.conversations == cs[idx := RecordSend(cs[idx], m.value)])
    {
      var g := SendGate(sender, recipientId, content, messageType, users, requests);
      if !g.Ok? {
        return Rethrow(g);
      }
      var recipient := g.value;
      var key := ConversationKey(sender, recipient);
      var idx := directory.FindOrCreate(sender, recipient, now);
      var m := NewMessage(key, sender, recipient, content, messageType, attachments, now);
      if m.None? {
        return ServerError;
      }
      NewMessageConsistent(key, sender, recipient, content, messageType, attachments, now);
      messages := messages + [m.value];
      directory.conversations := directory.conversations[idx := RecordSend(directory.conversations[idx], m.value)];
      r := Ok(Sent(key, |messages| - 1));
    }

    /** `getConversations`. */
    function GetConversations(user: UserId, requests: seq<MentorshipRequest>): (r: Reply<seq<ConversationView>>)
      reads this, directory
      ensures r.Ok? || r == ServerError
      ensures r.Ok? <==> AllHaveOther(LatestConversations(directory.conversations, user), user)
      ensures r.Ok? ==> r.value == Map(Filter(LatestConversations(directory.conversations, user),
                                              AcceptedOther(requests, user)), RowOf(user))
      ensures r.Ok? ==> |r.value| <= 50
      ensures r.Ok? ==> forall i :: 0 <= i < |r.value| ==>
        HasAcceptedConnection(requests, user, r.value[i].participant)
    {
      var rows := ConversationRows(LatestConversations(directory.conversations, user), user, requests);
      if rows.Ok? then
        ConversationRowsDescribe(directory.conversations, user, requests);
        rows
      else rows
    }

    /** `getMessages`: only for an accepted connection; a page of the thread and whether it is full. */
    function GetMessages(user: UserId, recipientId: UserId, limit: Option<int>, before: Option<nat>,
                         requests: seq<MentorshipRequest>): (r: Reply<MessagePage>)
      reads this
      ensures r.Ok? || r == Forbidden
      ensures r.Ok? <==> HasAcceptedConnection(requests, user, recipientId)
      ensures r.Ok? ==> r.value.count == |r.value.messages|
      ensures r.Ok? ==> (r.value.hasMore <==> |r.value.messages| == limit.GetOr(50))
      ensures r.Ok? ==> r.value.messages == ThreadPage(messages, ConversationKey(user, recipientId), before, limit.GetOr(50))
    {
      if !HasAcceptedConnection(requests, user, recipientId) then Forbidden
      else
        var page := ThreadPage(messages, ConversationKey(user, recipientId), before, limit.GetOr(50));
        Ok(MessagePage(page, |page|, |page| == limit.GetOr(50)))
    }

    /**
     * `markAsRead`: read every unread message `other` sent the reader in their
     * conversation, and reset the reader's counter in the first conversation
     * holding both. There is no access check and the answer is always success.
     */
    method MarkAsRead(reader: UserId, other: UserId, now: nat) returns (r: Reply<()>)
      requires Valid()
      modifies this, directory
      ensures Valid()
      ensures r == Ok(())
      ensures messages == MarkedRead(old(messages), ConversationKey(reader, other), reader, other, now)
      ensures directory.conversations == ResetFirstContaining(old(directory.conversations), reader, other)
    {
      MarkedReadKeepsConsistent(messages, ConversationKey(reader, other), reader, other, now);
      messages := MarkedRead(messages, ConversationKey(reader, other), reader, other, now);
      directory.conversations := ResetFirstContaining(directory.conversations, reader, other);
      r := Ok(());
    }

    /** `deleteMessage`: missing is 404, not the sender is 403, otherwise a soft delete. */
    method DeleteMessage(id: nat, user: UserId) returns (r: Reply<()>)
      requires Valid()
      modifies this
      ensures Valid()
      ensures id >= |old(messages)| ==> r == NotFound && messages == old(messages)
      ensures id < |old(messages)| && old(messages)[id].sender != user ==> r == Forbidden && messages == old(messages)
      ensures id < |old(messages)| && old(messages)[id].sender == user ==>
        r == Ok(()) && messages == old(messages)[id := SoftDelete(old(messages)[id], user)]
    {
      if id >= |messages| {
        return NotFound;
      }
      if messages[id].sender != user {
        return Forbidden;
      }
      SoftDeleteKeepsConsistent(messages[id]);
      messages := messages[id := SoftDelete(messages[id], user)];
      r := Ok(());
    }

    /** `getUnreadCount`: add up the user's counters over their conversations. */
    method GetUnreadCount(user: UserId) returns (total: nat)
      ensures total == SumUnread(directory.conversations, user)
    {
      var cs := directory.conversations;
      total := 0;
      var i := 0;
      while i < |cs|
        invariant 0 <= i <= |cs|
        invariant total == SumUnread(cs[..i], user)
      {
        assert cs[..i + 1][..i] == cs[..i];
        total := total + UnreadIn(cs[i], user);
        i := i + 1;
      }
      assert cs[..|cs|] == cs;
    }
  }
}
