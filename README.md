# Mentor_link backend: a Dafny model of its messaging and mentorship core

Mentor_link is an Express/Mongoose backend where students request mentorship. Once a mentor accepts, the two can exchange messages. Its core consists of the following parts, each modelled here:

- **Conversations**: two-party conversation records identified by a symmetric key, with per-participant unread counters.
- **Messages**: messages gated on an accepted mentorship request. Sending updates a denormalised "last message" snapshot. Soft deletion and mark-read also change stored records.
- **Mentorship requests**: a `pending → accepted | rejected` state machine.
- **Presence**: an in-memory `userId → socketId` map that routes socket events to the users who are online.
- **Notifications**: unread counts and a "time ago" label.
- **Follows**: follow lists with mirrored counters.
- **Profile views**: mentor profile-view analytics.
- **Sessions**: scheduled mentoring sessions with participant-only and creator-only rules.
- **Testimonials**: one testimonial per user, approved before it is listed.
- **File store**: a JSON file holding `users` and `students` arrays with keyed upserts.

Every Mongoose collection is an in-memory table.
- A collection whose documents are never removed is a `seq`, and a document's id is its position.
- Sessions and testimonials can be deleted. They are a `seq<Option<_>>`, where a deleted document leaves an empty slot.

Every handler's outcome is a `Reply`: `Ok`, `BadRequest` (400), `Forbidden` (403), `NotFound` (404) or `ServerError` (500, the handler's catch-all).

How each piece of code is modelled:
- A handler that changes stored records is a method of a store class. Its `modifies` clause names the store, and its postcondition ties the new state to a pure function of the old state.
- The properties the code promises are lemmas about those functions.
- Loops in the source are methods with loop invariants:
  - the unread-count total;
  - the recent-viewers scan;
  - the presence map's `disconnect` search.
- Times are milliseconds as naturals.
- JavaScript truthiness of an optional string is `Present`. `x || 0` on a counter map is `CountOf`.

Modules, one per core file:
- `Common`: shared vocabulary.
- `Ordering`: Mongo-style descending sorts.
- `Conversations`: backend/models/Conversation.js.
- `Messages`: backend/models/Message.js.
- `Mentorship`: backend/models/MentorshipRequest.js and backend/controllers/requestController.js.
- `Messaging`: backend/controllers/messageController.js.
- `Presence`: backend/server.js.
- `Notifications`: backend/models/Notification.js.
- `Follow`: backend/controllers/followController.js.
- `Sessions`: backend/controllers/sessionController.js.
- `Testimonials`: backend/controllers/testimonialController.js.
- `FileDb`: backend/utils/fileDb.js.

Where the code disagrees with its own comments or schema, the model follows the code:
- `deleteMessage` pushes the caller onto `deletedBy` unconditionally, and only the sender may delete. A sender deleting twice therefore fully deletes the message, although the comment at backend/controllers/messageController.js:293 says a message is fully deleted when both users deleted it. `Messaging.SecondDeleteBySenderDeletes` states this.
- `createTestimonial` gives a user without a role profile the company `''`. The schema requires `company`, so that user's submission fails validation with a 500. `Testimonials.NoProfileCannotSubmit` states this.

## Model

| member | source | states |
|---|---|---|
| Common.Filter | backend/controllers/followController.js:28-33 | the kept elements are exactly those of the input satisfying the predicate, never more copies of any element than the input has |
| Common.FilterKeepsDistinct | backend/controllers/requestController.js:260 | filtering a list without repetitions leaves one without repetitions |
| Common.FilterAll | backend/controllers/followController.js:28-30 | a filter that every element passes returns the list unchanged |
| Common.FilterAppend | backend/controllers/followController.js:28-30 | filtering a list extended by one element is filtering the list, then keeping or dropping that element |
| Common.FilterSame | backend/controllers/sessionController.js:92-97 | filters that agree on every element return the same list |
| Common.CountZeroIff | backend/models/Notification.js:87-89 | a count is 0 exactly when no element satisfies the filter |
| Common.CountUpdate | backend/models/Notification.js:70-76 | replacing one element changes a count by the old and new element's contributions |
| Common.CountAppend | backend/models/Notification.js:61-67 | inserting a document adds exactly its own contribution to a count |
| Common.CountPositions | backend/models/Notification.js:87-89 | `countDocuments` counts: the count equals the number of positions holding a qualifying document |
| Common.Limit | backend/controllers/messageController.js:205 | `limit(0)` returns everything, `limit(n)` at most \|n\| documents, always a prefix |
| Common.FindIndex | backend/utils/fileDb.js:47 | `findIndex` gives the first matching position, or none when no element matches |
| Common.Occupied | backend/controllers/sessionController.js:70 | the stored documents with their ids are exactly the non-empty slots |
| Ordering.SortDesc | backend/controllers/messageController.js:116 | `sort({key: -1})` returns a permutation of its input, largest key first |
| Ordering.SortPairSymmetric | backend/models/Conversation.js:47 | sorting two ids gives the same pair whichever comes first |
| Ordering.LimitDescending | backend/controllers/messageController.js:116-117 | a limited prefix of a descending list is descending and drawn from it |
| Ordering.PrefixHoldsLargest | backend/controllers/messageController.js:204-205 | nothing left out by a limit ranks above anything kept |
| Ordering.Top | backend/controllers/messageController.js:114-117 | `sort({key: -1}).limit(n)` is descending, holds exactly min(matches, \|n\|) of the matching documents (all for 0), and never a document more often than the matches hold it |
| Ordering.TopHoldsLargest | backend/controllers/messageController.js:114-117 | no matching document left out of the top ranks above one kept |
| Ordering.TopAllWhenFew | backend/controllers/messageController.js:114-117 | when the matches fit within the limit, every one is kept |
| Conversations.ConversationKey | backend/models/Conversation.js:71-73 | the key is the two ids joined by `_`, so its length is their lengths plus one |
| Conversations.KeySymmetric | backend/models/Conversation.js:71-73 | `generateConversationId(a, b) == generateConversationId(b, a)` |
| Conversations.KeyOrdersIds | backend/models/Conversation.js:72 | the key is the lesser id, `_`, then the greater id |
| Conversations.SplitAtSeparator | backend/models/Conversation.js:72 | a join at `_` can be split back when the left part holds no `_` |
| Conversations.KeyIdentifiesPair | backend/models/Conversation.js:72 | for ids without `_`, equal keys mean the same pair of ids |
| Conversations.PairMatchesExactly | backend/models/Conversation.js:49-51 | `{$all: [a, b], $size: 2}` matches exactly the participant lists holding a and b once each |
| Conversations.NewConversation | backend/models/Conversation.js:53-65 | a new conversation has the sorted pair as participants, both counters 0, neither archived, no last message |
| Conversations.FirstMatchFrom | backend/models/Conversation.js:49-51 | `findOne` returns the first conversation of the pair, or none when there is none |
| Conversations.FirstMatch | backend/models/Conversation.js:49-51 | the first conversation of the pair, with no earlier match, or none exactly when no conversation matches |
| Conversations.FirstMatchSymmetric | backend/models/Conversation.js:47-51 | looking up (a, b) and (b, a) finds the same conversation |
| Conversations.FindOrCreateSpec | backend/models/Conversation.js:45-68 | an existing conversation of the pair is returned with nothing inserted; otherwise exactly one new conversation is appended and returned |
| Conversations.FindOrCreateAddsAtMostOne | backend/models/Conversation.js:53-65 | find-or-create grows the collection by at most one |
| Conversations.FindOrCreateTwiceSame | backend/models/Conversation.js:45-68 | find-or-create for (a, b) then for (b, a) yields the same conversation and inserts nothing the second time |
| Conversations.ConversationDirectory.FindOrCreate | backend/models/Conversation.js:45-68 | the collection and returned id are those of the find-or-create specification |
| Messages.ParseMessageType | backend/models/Message.js:27-31 | the accepted types are exactly text, image and file |
| Messages.ParseTypeNameRoundTrip | backend/models/Message.js:27-31 | every message type's name parses back to it |
| Messages.NewMessage | backend/models/Message.js:3-56 | a message is created exactly when it has a conversation id, the type is valid and content is present for a text message; it starts unread, not deleted, with an empty `deletedBy`, and the type defaults to text |
| Messages.DefaultTypeNeedsContent | backend/models/Message.js:21-31 | without a type (so text) a message without content, or with empty content, is refused |
| Messages.OtherParticipant | backend/models/Message.js:64-66 | `otherParticipant` is the recipient for the sender and the sender for anyone else |
| Mentorship.NewRequest | backend/controllers/requestController.js:42-53 | a new pending request between the student and mentor holding the form's message, bio, reason, priorities and support areas, the given files and contact info (`[]` and `{}` when absent), created now |
| Mentorship.AreaValues | backend/models/MentorshipRequest.js:35-38 | the stored support areas are the form's strings, element by element |
| Mentorship.SubmitOutcome | backend/controllers/requestController.js:9-65 | submission answers 400 for a missing field, 404 for a user who is not a mentor, 400 for an existing pending or accepted request, 500 when a support area is empty or null (the schema rejects it in `create`), and otherwise succeeds; each iff its condition |
| Mentorship.WithStatus | backend/controllers/requestController.js:141 | a status change touches only the one request and only its status |
| Mentorship.SubmitKeepsAtMostOneOpen | backend/controllers/requestController.js:28-36 | submission keeps at most one pending-or-accepted request per student–mentor pair |
| Mentorship.DecideKeepsAtMostOneOpen | backend/controllers/requestController.js:130-141 | accepting or rejecting a pending request keeps that invariant |
| Mentorship.AcceptGrantsAccess | backend/controllers/requestController.js:141 | after acceptance the two users have an accepted connection, in either orientation |
| Mentorship.RejectKeepsAccess | backend/controllers/requestController.js:187 | rejecting a pending request leaves every pair's accepted connection as it was |
| Mentorship.AddMentee | backend/controllers/requestController.js:145-154 | the student ends up among the mentees, added only if absent |
| Mentorship.AddMenteeKeepsDistinct | backend/controllers/requestController.js:150-151 | `activeMentees` never holds a student twice |
| Mentorship.CheckMentorshipStatus | backend/controllers/requestController.js:287-307 | the status is accepted if an accepted request exists in either orientation, else pending if a pending one does, else none |
| Mentorship.StatusSymmetric | backend/controllers/requestController.js:287-300 | the status is the same asked from either side |
| Mentorship.SubmitLeavesPairConnected | backend/controllers/requestController.js:42-53 | after a submission the pair's status is pending or accepted, never none |
| Mentorship.MyMentorIds | backend/controllers/requestController.js:254-260 | the student's mentor ids are distinct and exactly the mentors of their accepted requests |
| Mentorship.RequestStore.SubmitRequest | backend/controllers/requestController.js:9-65 | the request is appended exactly when submission succeeds, so nothing is stored on a 500; nothing else changes |
| Mentorship.RequestStore.AcceptRequest | backend/controllers/requestController.js:125-166 | only a pending request of the calling mentor is accepted, else 404 with nothing changed; the student is added once to the mentor profile's mentees, when there is a profile |
| Mentorship.RequestStore.RejectRequest | backend/controllers/requestController.js:171-200 | only a pending request of the calling mentor is rejected, else 404; mentees are untouched |
| Mentorship.RequestStore.GetMyMentors | backend/controllers/requestController.js:249-275 | the mentor profiles listed are distinct and exactly those of mentors who accepted the student |
| Messaging.Snapshot | backend/controllers/messageController.js:65-70 | the last-message snapshot carries the sender, time and type, and the content for a text message |
| Messaging.CaptionNamesType | backend/controllers/messageController.js:66 | a non-text message's caption is `Sent a ` followed by the type's name, from which the type is recovered |
| Messaging.RecordSend | backend/controllers/messageController.js:65-75 | a send raises the recipient's unread counter by one (absent as 0), keeps every other counter, and sets the snapshot and `lastMessageAt` |
| Messaging.SendGate | backend/controllers/messageController.js:15-42 | a send fails with 400 without a recipient or text content, 404 for an unknown recipient, 403 without an accepted connection in either orientation |
| Messaging.SendFailsOnlyOnBadType | backend/controllers/messageController.js:51-58 | past the gate, creating the message fails only for a message type outside the enum |
| Messaging.SoftDelete | backend/controllers/messageController.js:288-296 | a delete appends the caller to `deletedBy` and marks the message deleted once `deletedBy` has two entries |
| Messaging.NewMessageConsistent | backend/models/Message.js:46-53 | a new message satisfies the deletion invariant |
| Messaging.SoftDeleteKeepsConsistent | backend/controllers/messageController.js:283-296 | deletion by the sender keeps `isDeleted` equivalent to at least two entries in `deletedBy`, all of them the sender |
| Messaging.SecondDeleteBySenderDeletes | backend/controllers/messageController.js:291-296 | a second delete by the same sender fully deletes the message |
| Messaging.MarkedRead | backend/controllers/messageController.js:233-246 | exactly the unread messages of the conversation from the other user to the reader become read with `readAt` set; all others are unchanged |
| Messaging.MarkedReadClears | backend/controllers/messageController.js:233-246 | afterwards no such message is unread |
| Messaging.MarkedReadIdempotent | backend/controllers/messageController.js:233-246 | marking read a second time changes nothing |
| Messaging.MarkedReadKeepsConsistent | backend/controllers/messageController.js:233-246 | marking read keeps the deletion invariant |
| Messaging.FirstContainingFrom | backend/controllers/messageController.js:249-251 | `findOne({participants: {$all: [a, b]}})` returns the first conversation holding both users |
| Messaging.ResetUnread | backend/controllers/messageController.js:254 | the reader's counter becomes 0 and every other counter is kept |
| Messaging.ResetFirstContaining | backend/controllers/messageController.js:249-256 | only the found conversation changes, and only the reader's counter; with none found nothing changes |
| Messaging.SumUnreadUpdate | backend/controllers/messageController.js:321-324 | replacing one conversation changes the unread total by the old and new counters |
| Messaging.SumUnread | backend/controllers/messageController.js:321-324 | the total is at least each conversation's counter for the user, and 0 exactly when all of them are 0 |
| Messaging.SumUnreadAppendFresh | backend/models/Conversation.js:56-59 | a new conversation adds nothing to any unread total |
| Messaging.SendRaisesUnreadTotal | backend/controllers/messageController.js:48-75 | a send raises the recipient's total by one and leaves everyone else's unchanged |
| Messaging.MarkReadLowersUnreadTotal | backend/controllers/messageController.js:249-256 | mark-read lowers the reader's total by the counter it clears and changes no one else's |
| Messaging.OtherOf | backend/controllers/messageController.js:122-124 | the other participant is a participant different from the user, or none when all are the user |
| Messaging.LatestConversations | backend/controllers/messageController.js:110-117 | the user's conversations, latest activity first, exactly min(50, how many the user has) of them |
| Messaging.LatestConversationsHoldLatest | backend/controllers/messageController.js:114-117 | no conversation of the user left out had later activity than one fetched |
| Messaging.LatestConversationsAllWhenFew | backend/controllers/messageController.js:110-117 | a user with at most 50 conversations has every one fetched |
| Messaging.ConversationRows | backend/controllers/messageController.js:120-151 | rows exist only when every conversation has another participant (else the handler fails); the rows are exactly the fetched conversations whose other participant has an accepted connection, in fetched order |
| Messaging.ConversationRowsComplete | backend/controllers/messageController.js:120-151 | every fetched conversation with an accepted connection has its row |
| Messaging.ConversationRowsDescribe | backend/controllers/messageController.js:134-144 | each row names a conversation of the user, its other participant, the user's unread count and the pair's key |
| Messaging.ConversationRowsLatestFirst | backend/controllers/messageController.js:110-151 | the rows stay in latest-activity-first order |
| Messaging.ThreadNewestFirst | backend/controllers/messageController.js:191-204 | the thread query holds exactly the pair's undeleted messages before the cursor, newest first |
| Messaging.ThreadPage | backend/controllers/messageController.js:201-208 | a page holds exactly min(thread size, \|limit\|) messages, the whole thread for limit 0 |
| Messaging.ThreadPageSoundAndAscending | backend/controllers/messageController.js:201-208 | a page holds only thread messages and reads oldest first after the reversal |
| Messaging.ThreadPageHoldsNewest | backend/controllers/messageController.js:204-208 | no thread message left off a page is newer than one on it |
| Messaging.TrimStart | backend/controllers/messageController.js:343 | leading JavaScript white space is removed and nothing else |
| Messaging.TrimEnd | backend/controllers/messageController.js:343 | trailing JavaScript white space is removed and nothing else |
| Messaging.TrimEmptyIffBlank | backend/controllers/messageController.js:343 | `q.trim()` is empty exactly when `q` is all white space |
| Messaging.Trim | backend/controllers/messageController.js:343 | `q.trim()` is no longer than `q`, empty exactly when `q` is all white space, and otherwise starts and ends with a non-space |
| Messaging.Search | backend/controllers/messageController.js:338-368 | a missing or blank query gives no results; otherwise exactly min(50, matches) results, newest first, each an undeleted message of the user that matches |
| Messaging.SearchHoldsNewest | backend/controllers/messageController.js:356-358 | no matching message left out is newer than one returned |
| Messaging.SearchAllWhenFew | backend/controllers/messageController.js:347-358 | with at most 50 matches every match is returned |
| Messaging.MessageStore.SendMessage | backend/controllers/messageController.js:10-101 | a refused send changes nothing; a successful one appends the message and records it in the pair's found-or-created conversation |
| Messaging.MessageStore.GetConversations | backend/controllers/messageController.js:106-161 | a 500 exactly when a fetched conversation has no other participant, else the rows of the fetched conversations with an accepted connection, at most 50 |
| Messaging.MessageStore.GetMessages | backend/controllers/messageController.js:166-219 | 403 without an accepted connection; otherwise the thread page, its count, and `hasMore` exactly when the page is full |
| Messaging.MessageStore.MarkAsRead | backend/controllers/messageController.js:224-266 | always succeeds; the messages and counters change as the mark-read specifications say |
| Messaging.MessageStore.DeleteMessage | backend/controllers/messageController.js:271-308 | 404 for a missing id, 403 for anyone but the sender, otherwise the soft delete of that message only |
| Messaging.MessageStore.GetUnreadCount | backend/controllers/messageController.js:313-333 | the loop's total is the sum of the user's counters over the conversations |
| Presence.Get | backend/server.js:84 | `onlineUsers.get(u)` is absent exactly when no entry has key u |
| Presence.GetEntry | backend/server.js:27-28 | with distinct keys, an entry's key reads back its socket |
| Presence.SetEntry | backend/server.js:71 | `set` replaces the user's entry in place or appends a new one |
| Presence.SetEntryUpdates | backend/server.js:71 | after `set`, keys stay distinct, the user maps to the new socket and every other user is unchanged |
| Presence.RemoveAt | backend/server.js:129 | deleting an entry keeps the others in order |
| Presence.RemoveAtKeepsKeys | backend/server.js:129 | deleting an entry keeps each key once and leaves no entry for the deleted user |
| Presence.RemoveAtKeepsOthers | backend/server.js:129 | deleting one entry leaves every other user's socket as it was |
| Presence.DisconnectRemovesAtMostOne | backend/server.js:125-140 | a disconnect removes nothing when no entry holds the socket, otherwise exactly the first entry holding it and reports that user; every other user's entry is kept |
| Presence.Disconnected | backend/server.js:125-140 | nothing changes exactly when no entry holds the socket; otherwise one entry, one holding that socket, is removed and its user reported |
| Presence.OldSocketKeepsNewMapping | backend/server.js:128-129 | closing a user's old socket never removes their newer mapping |
| Presence.Route | backend/server.js:84-89 | an event is delivered exactly when the target has a (non-empty) socket, to that socket |
| Presence.RouteAfterOnline | backend/server.js:70-90 | a user who came online is reached at the new socket |
| Presence.NoRouteAfterDisconnect | backend/server.js:125-140 | a user reported offline is no longer reached |
| Presence.PresenceRegistry.UserOnline | backend/server.js:70-79 | the map is updated by `set` and an online status change is broadcast |
| Presence.PresenceRegistry.SendMessage | backend/server.js:82-90 | `receive_message` goes to the recipient's socket exactly when the recipient is online |
| Presence.PresenceRegistry.TypingStart | backend/server.js:93-100 | `user_typing` reaches the recipient exactly when online |
| Presence.PresenceRegistry.TypingStop | backend/server.js:102-109 | `user_stopped_typing` reaches the recipient exactly when online |
| Presence.PresenceRegistry.MessagesRead | backend/server.js:112-122 | `messages_marked_read` reaches the original sender exactly when online |
| Presence.PresenceRegistry.Disconnect | backend/server.js:125-140 | the scan removes the first entry with the closing socket and reports an offline change exactly when it removed one |
| Notifications.ParseType | backend/models/Notification.js:10-14 | the accepted types are exactly the seven enum values |
| Notifications.ParseTypeRoundTrip | backend/models/Notification.js:10-14 | every type's name parses back to it |
| Notifications.Decimal | backend/models/Notification.js:52-57 | the rendering of a count is non-empty decimal digits without a leading zero |
| Notifications.DecimalRoundTrip | backend/models/Notification.js:52-57 | the rendered digits read back as the number |
| Notifications.FloorSteps | backend/models/Notification.js:48-51 | flooring step by step to seconds, minutes, hours and days equals flooring straight to each unit |
| Notifications.TimeAgo | backend/models/Notification.js:46-58 | `Nd ago` for a day or more, else `Nh ago` (under 24), else `Nm ago` (under 60), else `Just now` |
| Notifications.NewNotification | backend/models/Notification.js:61-67 | created exactly for a known type with a title and message; icon defaults to `bell`, read to false |
| Notifications.AllRead | backend/models/Notification.js:79-84 | every notification of the user becomes read and all others are unchanged |
| Notifications.UnreadCount | backend/models/Notification.js:87-89 | `countDocuments({user, read: false})`: the number of positions holding an unread notification of the user |
| Notifications.MarkAllClearsUnread | backend/models/Notification.js:79-89 | right after mark-all-read the user's unread count is 0 |
| Notifications.MarkAllKeepsOthers | backend/models/Notification.js:79-84 | mark-all-read leaves every other user's unread count unchanged |
| Notifications.MarkOneLowersCount | backend/models/Notification.js:70-76 | marking one notification read lowers its owner's count by one if it was unread |
| Notifications.CreateRaisesCount | backend/models/Notification.js:61-67 | a new notification raises only its user's count, by one unless created read |
| Notifications.NotificationStore.CreateNotification | backend/models/Notification.js:61-67 | a valid notification is appended under the next id; an invalid one changes nothing |
| Notifications.NotificationStore.MarkAsRead | backend/models/Notification.js:70-76 | only the notification with that id and owner is marked read; otherwise nothing changes and the answer is null |
| Notifications.NotificationStore.MarkAllAsRead | backend/models/Notification.js:79-84 | the user's notifications become read and the modified count is their former unread count |
| Notifications.NotificationStore.GetUnreadCount | backend/models/Notification.js:87-89 | the number of the user's unread notifications, 0 exactly when all are read |
| Follow.Dec | backend/controllers/followController.js:35-36 | a counter decrement never goes below 0 |
| Follow.Followed | backend/controllers/followController.js:38-43 | follow appends the target to the caller's `following` and the caller to the target's `followers`, and raises both counters |
| Follow.Toggled | backend/controllers/followController.js:24-44 | the toggle flips whether the caller follows the target, on both sides, and leaves every other user unchanged |
| Follow.Unfollowed | backend/controllers/followController.js:27-36 | unfollow removes every occurrence from both lists and lowers both counters, not below 0 |
| Follow.RemoveOnce | backend/controllers/followController.js:28-33 | removing an id that occurs once shortens the list by exactly one |
| Follow.AppendKeepsDistinct | backend/controllers/followController.js:39-40 | appending an absent id keeps a list free of repetitions |
| Follow.MutualAfterUpdate | backend/controllers/followController.js:26-44 | touching only the pair's two lists, symmetrically, keeps following and followers mirrored |
| Follow.ToggleKeepsGraphValid | backend/controllers/followController.js:24-44 | a toggle keeps the lists mirrored, free of repetitions, and each counter equal to its list's length |
| Follow.FollowThenUnfollow | backend/controllers/followController.js:26-44 | following and then unfollowing restores both users exactly |
| Follow.UnfollowUndoesFollow | backend/controllers/followController.js:26-44 | unfollowing right after a follow of users not linked before restores both |
| Follow.FollowGraph.ToggleFollow | backend/controllers/followController.js:5-59 | 400 for a self-follow and 404 for an unknown target, with no change; otherwise the toggle, reporting the negated prior state and the target's follower count |
| Follow.RecordView | backend/controllers/followController.js:181-212 | a recorded view is pushed and counted in the total; the weekly count restarts when the reset is over a week old; the monthly count is taken before the list is cut to its last 100 |
| Follow.RecordedViewCountsOncePerDay | backend/controllers/followController.js:166-179 | once a view is recorded, the same viewer (or anonymous address) is recognised for the rest of that day |
| Follow.MentorDirectory.TrackProfileView | backend/controllers/followController.js:151-227 | 404 for an unknown mentor; a repeat view that day changes nothing; otherwise the view is recorded; the three counters are reported |
| Follow.ScanUnique | backend/controllers/followController.js:258-261 | the scan names no viewer already seen and no viewer twice |
| Follow.Scan | backend/controllers/followController.js:258-268 | the backward scan names at most one viewer per view and none already seen |
| Follow.ScanTakesLatest | backend/controllers/followController.js:258-265 | each viewer named comes with the time of their latest view |
| Follow.ScanNewestFirst | backend/controllers/followController.js:258-265 | viewers are listed most recent first |
| Follow.ScanComplete | backend/controllers/followController.js:258-265 | every signed-in viewer not already seen is named |
| Follow.RecentViewersSpec | backend/controllers/followController.js:255-268 | at most ten recent viewers |
| Follow.RecentViewersLatestUnique | backend/controllers/followController.js:255-268 | the recent viewers are distinct, most recent first, each at their latest view |
| Follow.MentorDirectory.RecentViewers | backend/controllers/followController.js:255-268 | the backwards loop with its seen-set and break at ten computes the first ten of the scan |
| Follow.CountDisjoint | backend/controllers/followController.js:292-299 | this week's and last week's views together are at most all views |
| Follow.CalculateTrend | backend/controllers/followController.js:285-303 | 0 for fewer than two views; with no views last week 100 if any this week, else 0; otherwise the two weekly counts |
| Follow.MentorDirectory.ProfileAnalytics | backend/controllers/followController.js:230-282 | 404 for a missing profile; otherwise views in the last 7 and 30 days, the recent viewers and the trend |
| Sessions.ParseStatus | backend/models/Session.js:43-48 | the accepted statuses are exactly the four enum values |
| Sessions.ParseStatusRoundTrip | backend/models/Session.js:43-48 | every status's name parses back to it |
| Sessions.NewSession | backend/controllers/sessionController.js:7-52 | 400 without student, date, time or link; 404 for an unknown student; 500 for a date that does not cast; otherwise the caller is mentor and creator, duration defaults to 30, timezone to US Eastern, status to scheduled |
| Sessions.SessionsOf | backend/controllers/sessionController.js:57-82 | exactly the caller's sessions in either role, of the given status if any, each once, latest date first |
| Sessions.SessionsBetween | backend/controllers/sessionController.js:87-109 | exactly the sessions between the two users in either role, each once, latest date first |
| Sessions.SessionsBetweenSymmetric | backend/controllers/sessionController.js:92-97 | either user asking gets the same sessions in the same date order (sessions on equal dates in the model's stable order) |
| Sessions.SessionsBetweenAreMine | backend/controllers/sessionController.js:62-97 | sessions with another user are among the caller's own |
| Sessions.ViewOutcome | backend/controllers/sessionController.js:114-142 | 404 for a missing session, 403 unless the caller is its mentor or student |
| Sessions.UpdateOutcome | backend/controllers/sessionController.js:147-180 | the same 404 and 403; 500 for a status outside the enum; otherwise only the status changes, with any transition allowed |
| Sessions.DeleteOutcome | backend/controllers/sessionController.js:185-211 | 404 for a missing session, 403 for anyone but its creator |
| Sessions.CreatedSessionVisibleToBoth | backend/controllers/sessionController.js:24-38 | a new session is listed for and viewable by both participants, and its creator may delete it |
| Sessions.StudentMayUpdateNotDelete | backend/controllers/sessionController.js:160-199 | a participant who did not create the session may change its status but not delete it |
| Sessions.SessionStore.CreateSession | backend/controllers/sessionController.js:7-52 | a created session is appended under the next id; otherwise nothing changes |
| Sessions.SessionStore.GetSessions | backend/controllers/sessionController.js:57-82 | each of the caller's stored sessions of the given status once, latest date first |
| Sessions.SessionStore.GetSessionsWithUser | backend/controllers/sessionController.js:87-109 | each stored session between the two users once, latest date first |
| Sessions.SessionStore.GetSessionById | backend/controllers/sessionController.js:114-142 | 404 for a missing session, the session for its mentor or student, 403 for anyone else |
| Sessions.SessionStore.UpdateSessionStatus | backend/controllers/sessionController.js:147-180 | on success only that session's slot changes |
| Sessions.SessionStore.DeleteSession | backend/controllers/sessionController.js:185-211 | on success the session is gone for everyone; otherwise nothing changes |
| Testimonials.OrElse | backend/controllers/testimonialController.js:66-67 | `x \|\| fallback` on an optional string |
| Testimonials.RoleAndCompany | backend/controllers/testimonialController.js:59-83 | the profile's role and affiliation or the kind's defaults; `User` and `''` without a profile; the role is never empty |
| Testimonials.NewTestimonial | backend/controllers/testimonialController.js:35-109 | 400 when the user already has one, 404 for an unknown account, 500 on validation failure; otherwise an unapproved, unfeatured testimonial with rating defaulting to 5 |
| Testimonials.NoProfileCannotSubmit | backend/controllers/testimonialController.js:59-94 | a user without a role profile (or an admin) always fails validation |
| Testimonials.CreateKeepsOnePerUser | backend/controllers/testimonialController.js:41-47 | creation keeps one testimonial per user, and the author's next submission is refused |
| Testimonials.Listing | backend/controllers/testimonialController.js:5-32 | only approved ones (only featured when asked), highest order then newest first, exactly min(qualifying, limit) of them (20 by default, all for 0) |
| Testimonials.ListingHoldsTop | backend/controllers/testimonialController.js:14-17 | no qualifying testimonial left off ranks above a listed one |
| Testimonials.ListingComplete | backend/controllers/testimonialController.js:9-17 | when everything qualifying fits within the limit, every qualifying testimonial is listed |
| Testimonials.UnapprovedNotListed | backend/controllers/testimonialController.js:9 | an unapproved testimonial is never listed |
| Testimonials.Approved | backend/controllers/testimonialController.js:174-204 | 404 for a missing id; otherwise only `isApproved` changes, to true |
| Testimonials.ApproveKeepsOnePerUser | backend/controllers/testimonialController.js:178-182 | approval keeps one testimonial per user |
| Testimonials.DeleteAllowsResubmission | backend/controllers/testimonialController.js:146-157 | after deletion the author may submit again |
| Testimonials.TestimonialStore.CreateTestimonial | backend/controllers/testimonialController.js:35-109 | a valid testimonial is appended under the next id, keeping one per user; otherwise nothing changes |
| Testimonials.TestimonialStore.GetAllTestimonials | backend/controllers/testimonialController.js:5-32 | the stored qualifying testimonials, highest order then newest first, exactly min(qualifying, limit), each at most once |
| Testimonials.TestimonialStore.ApproveTestimonial | backend/controllers/testimonialController.js:174-204 | on success only that testimonial's approval changes |
| Testimonials.TestimonialStore.DeleteTestimonial | backend/controllers/testimonialController.js:146-171 | 404 for a missing id; otherwise the slot is emptied |
| FileDb.Field | backend/utils/fileDb.js:37 | a field reads as absent exactly when the record lacks it |
| FileDb.Records | backend/utils/fileDb.js:22-23 | the array's elements read as records, one for one |
| FileDb.ObjectToDb | backend/utils/fileDb.js:20-24 | an object's `users` and `students` become arrays, other fields are kept aside |
| FileDb.LoadedAsWritten | backend/utils/fileDb.js:16-28 | `readJson` as written: no database exactly for a number, string or boolean file |
| FileDb.PrimitiveFileIsNoDatabase | backend/utils/fileDb.js:20-24 | a file holding `5` yields no database as written, and the empty database as corrected |
| FileDb.Loaded | backend/utils/fileDb.js:16-28 | `readJson` as intended: always a database with `users` and `students` arrays, agreeing with the code wherever the code gives one |
| FileDb.Objects | backend/utils/fileDb.js:32 | records are written as JSON objects, one for one |
| FileDb.WriteThenRead | backend/utils/fileDb.js:16-33 | reading back what `writeJson` wrote gives the same database |
| FileDb.FindBy | backend/utils/fileDb.js:35-43 | `find(...) \|\| null` returns the first record whose field matches (absent matching absent), or null when none does |
| FileDb.UpsertShape | backend/utils/fileDb.js:45-55 | an upsert keeps the length for a present key, appends the record otherwise, and changes at most one position |
| FileDb.Upsert | backend/utils/fileDb.js:45-55 | merge into a record with the same key (the new fields winning) keeping the length, or append the record when no record has the key |
| FileDb.UpsertNewFieldsWin | backend/utils/fileDb.js:49 | in the merge `{...old, ...new}` every given field wins and other fields come from the old record |
| FileDb.UpsertThenFind | backend/utils/fileDb.js:45-55 | after an upsert the lookup by its key finds the merged record |
| FileDb.DataFile.ReadJson | backend/utils/fileDb.js:7-28 | a missing file is created holding the empty database; the result is the file's database |
| FileDb.DataFile.WriteJson | backend/utils/fileDb.js:30-33 | the file then holds the database |
| FileDb.DataFile.FindUserByEmail | backend/utils/fileDb.js:35-38 | a stored user with that email, or null exactly when none has it |
| FileDb.DataFile.FindUserByUsername | backend/utils/fileDb.js:40-43 | a stored user with that username, or null exactly when none has it |
| FileDb.DataFile.FindStudentByUser | backend/utils/fileDb.js:67-70 | a stored student of that user, or null exactly when none has it |
| FileDb.DataFile.UpsertUser | backend/utils/fileDb.js:45-55 | the file holds the users upserted by email, the record given is returned, and `findUserByEmail` then finds the merge |
| FileDb.DataFile.UpsertStudent | backend/utils/fileDb.js:72-82 | the file holds the students upserted by user, and `findStudentByUser` then finds the merge |

## Left out

- Express request parsing, Mongoose `populate`, `lean`, `save` and the JSON shape of responses: each outcome is a `Reply`, and each collection is an in-memory table.
- Atomicity: find-or-create, and every read-then-write handler, is modelled sequentially; concurrent requests are out of scope.
- Socket.io transport and broadcasting: only the `onlineUsers` map and the deliver-only-if-online decision are modelled.
- Notification creation inside `sendMessage` and `createSessionWithNotification`: the notification record is not modelled. The call is awaited inside the handler's `try`, and its data always passes the schema. It can fail only on a store error, which answers 500 after the message or session has been saved; that path is not modelled.
- Messaging.Search: the case-insensitive regular expression built from `q` is an abstract `matches` parameter.
- Messaging.LatestConversations: the `isArchived` filter compares a whole map with a one-entry object. Its effect depends on the store, so it is not modelled.
- Messaging.ConversationRows: the per-conversation lookups run concurrently in the source; the model evaluates them in order, which gives the same result.
- Conversations.ConversationKey: JavaScript's `sort()` compares UTF-16 code units, while the model compares characters. The two orders agree for ids inside the Basic Multilingual Plane, as Mongo ids are.
- Notifications: the `data` field (`Mixed`) and a `user` key inside the spread data overriding the user id are not modelled.
- Follow.DayOf: local-time day boundaries (`setHours`, `toDateString`) are modelled as UTC days of 86400000 ms. `monthAgo` (`setMonth`) is a parameter.
- Follow.CalculateTrend: the `Math.round` of a floating-point ratio is not modelled; the result carries the two weekly counts instead.
- Follow.FollowGraph.ToggleFollow: a missing current user is modelled as the 500 the handler answers when reading `following` of null. Follows of mentor profiles (`Mentor` documents) are not modelled.
- Follow: `getFollowers`, `getFollowing` and `checkFollowStatus` are read-only lookups outside the modelled core.
- Sessions.SessionStore.UpdateSessionStatus: a request without `status` unsets the field in the source. The model takes the status as a string.
- Sessions.SessionsOf and Sessions.SessionsBetween: `sort({ date: -1 })` leaves the order of sessions on equal dates to the store; the model fixes one (its sort is stable), so `Sessions.SessionsBetweenSymmetric` claims the same order on ties only for the model.
- Sessions: a `populate` that finds a deleted mentor or student, which makes `getSessionById` fail, is not modelled; user deletion is outside the model.
- Testimonials: `updateTestimonial` is an admin pass-through of arbitrary fields and is not modelled.
- Testimonials.RoleAndCompany and Mentorship: the controllers require `../models/Student` (and `../models/Organizer`) while the files are named `student.js` and `organizer.js`. Whether those requires resolve depends on the file system's case sensitivity, so the model assumes they do. Otherwise the request controller, which requires `Student` at the top of backend/controllers/requestController.js, would fail to load, and none of its handlers would exist. Reading `company`, `college` or `organization`, which those schemas do not declare, is modelled as an optional affiliation.
- Testimonials.Listing and Messaging.MessageStore.GetMessages: `parseInt` of a non-numeric `limit` is not modelled; the limit is an optional integer.
- FileDb: JSON numbers are integers; a data file holding fractional numbers is not modelled.
- FileDb: the file-system calls are modelled as the `DataFile` contents. Array elements that are not objects read as empty records. A top-level array file reads as the empty database, and what `writeJson` then writes back for it is not modelled. JSON values are compared structurally, not by reference.
- FileDb.DataFile.FindUserByEmail, FindUserByUsername and FindStudentByUser: creating a missing data file on first read is not modelled for these lookups; they read the file as a database directly.
- Messaging.MessageStore.SendMessage: the message id and `createdAt` come from the store.
- Casting errors are not modelled: ids are always well formed. In the source a malformed ObjectId answers 500 where the model may answer 404 or 400. This affects every handler that casts an id from the request, among them `sendMessage`, `getMessages`, `deleteMessage`, `toggleFollow`, `submitRequest`, `acceptRequest`, `rejectRequest`, `createSession`, `getSessionById`, `updateSessionStatus`, `deleteSession`, `approveTestimonial`, `deleteTestimonial`, the notification `markAsRead` and `trackProfileView`. An unparsable `before` in `getMessages` becomes an Invalid Date, and its query also answers 500; the model takes `before` as an optional time.
- Mentorship: `getMentorRequests` and the other read-only request listings are outside the modelled core.
- Mentorship: a `supportAreas` value that is not an array, which Mongoose would cast, is not modelled; the form holds an optional list of optional strings.

## Findings

| source | as written | input that shows it | evidently intended | confidence | as-written member | corrected member |
|---|---|---|---|---|---|---|
| backend/utils/fileDb.js:20-24 | `readJson` returns whatever `JSON.parse` gives. When that is a number, string or boolean, the assignments to `parsed.users` and `parsed.students` are silently ignored, and the primitive itself is returned. Every caller then throws on `db.users.find` | a data file containing `5` | any content that is not an object reads as `{ users: [], students: [] }`, as a parse error already does | medium, not executed | FileDb.LoadedAsWritten, FileDb.PrimitiveFileIsNoDatabase | FileDb.Loaded |

`FileDb.DataFile.ReadJson`, and through it the upserts and lookups, reads the file through the corrected `FileDb.Loaded`. The store class therefore models the fixed `readJson`: a file holding a primitive reads as the empty database.
