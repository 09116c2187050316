/**
 * The notification model of backend/models/Notification.js: the record with
 * its type enum and defaults, the `timeAgo` virtual, and the statics that
 * create notifications, mark one or all of a user's notifications read, and
 * count the unread ones.
 */
module Notifications {
  import opened Common

  datatype NotificationType = Connection | Message | Event | Review | Request | Session | Badge

  function TypeName(t: NotificationType): string {
    match t
    case Connection => "connection"
    case Message => "message"
    case Event => "event"
    case Review => "review"
    case Request => "request"
    case Session => "session"
    case Badge => "badge"
  }

  /** The `enum` validator of `type`. */
  function ParseType(s: string): (r: Option<NotificationType>)
    ensures r.Some? ==> TypeName(r.value) == s
    ensures r.None? ==> forall t :: TypeName(t) != s
  {
    if s == "connection" then Some(Connection)
    else if s == "message" then Some(Message)
    else if s == "event" then Some(Event)
    else if s == "review" then Some(Review)
    else if s == "request" then Some(Request)
    else if s == "session" then Some(Session)
    else if s == "badge" then Some(Badge)
    else None
  }

  lemma ParseTypeRoundTrip(t: NotificationType)
    ensures ParseType(TypeName(t)) == Some(t)
  {
  }

  /** The decimal digit for `d`. */
  function DigitChar(d: nat): (c: char)
    requires d < 10
    ensures '0' <= c <= '9'
  {
    (48 + d) as char
  }

  function DigitValue(c: char): nat
    requires '0' <= c <= '9'
  {
    c as int - 48
  }

  /** The decimal rendering of a natural number, as a template literal prints it. */
  function Decimal(n: nat): (s: string)
    ensures |s| >= 1
    ensures forall i :: 0 <= i < |s| ==> '0' <= s[i] <= '9'
    ensures s[0] == '0' ==> n == 0
  {
    if n < 10 then [DigitChar(n)] else Decimal(n / 10) + [DigitChar(n % 10)]
  }

  /** The value of a string of decimal digits. */
  function DecimalValue(s: string): nat
    requires forall i :: 0 <= i < |s| ==> '0' <= s[i] <= '9'
  {
    if s == [] then 0 else DecimalValue(s[..|s| - 1]) * 10 + DigitValue(s[|s| - 1])
  }

  /** The rendering can be read back: the printed count is the number computed. */
  lemma {:induction false} DecimalRoundTrip(n: nat)
    ensures DecimalValue(Decimal(n)) == n
  {
    if n >= 10 {
      DecimalRoundTrip(n / 10);
      var s := Decimal(n);
      assert s[..|s| - 1] == Decimal(n / 10);
    }
  }

  const Second: int := 1000
  const Minute: int := 60 * Second
  const Hour: int := 60 * Minute
  const Day: int := 24 * Hour

  /** Flooring to seconds, then minutes, hours and days is flooring straight to each unit. */
  lemma FloorSteps(diff: int)
    ensures diff / 1000 / 60 == diff / Minute
    ensures diff / 1000 / 60 / 60 == diff / Hour
    ensures diff / 1000 / 60 / 60 / 24 == diff / Day
  {
    var s := diff / 1000;
    var m := s / 60;
    var h := m / 60;
    var d := h / 24;
    assert diff == 1000 * s + diff % 1000;
    assert s == 60 * m + s % 60;
    assert m == 60 * h + m % 60;
    assert h == 24 * d + h % 24;
    assert diff == Minute * m + (1000 * (s % 60) + diff % 1000);
    assert diff == Hour * h + (Minute * (m % 60) + 1000 * (s % 60) + diff % 1000);
    assert diff == Day * d + (Hour * (h % 24) + Minute * (m % 60) + 1000 * (s % 60) + diff % 1000);
  }

  /**
   * The `timeAgo` virtual for a notification created at `createdAt` and read
   * at `now` (both in milliseconds): whole days, else whole hours, else whole
   * minutes, else "Just now". A creation time in the future also reads
   * "Just now".
   */
  function TimeAgo(now: nat, createdAt: nat): (r: string)
    ensures var diff := now - createdAt;
      && (diff >= Day ==> r == Decimal(diff / Day) + "d ago")
      && (Hour <= diff < Day ==> r == Decimal(diff / Hour) + "h ago" && diff / Hour < 24)
      && (Minute <= diff < Hour ==> r == Decimal(diff / Minute) + "m ago" && diff / Minute < 60)
      && (diff < Minute ==> r == "Just now")
  {
    var diff := now - createdAt;
    FloorSteps(diff);
    var seconds := diff / 1000;
    var minutes := seconds / 60;
    var hours := minutes / 60;
    var days := hours / 24;
    if days > 0 then Decimal(days) + "d ago"
    else if hours > 0 then Decimal(hours) + "h ago"
    else if minutes > 0 then Decimal(minutes) + "m ago"
    else "Just now"
  }

  datatype Notification = Notification(
    user: UserId,
    kind: NotificationType,
    title: string,
    message: string,
    link: Option<string>,
    icon: string,
    read: bool,
    createdAt: nat)

  /** The fields passed to `createNotification`; any of them may be missing. */
  datatype NotificationData = NotificationData(
    kind: Option<string>,
    title: Option<string>,
    message: Option<string>,
    link: Option<string>,
    icon: Option<string>,
    read: Option<bool>)

  /**
   * `create` with the schema's validation and defaults: a known type and a
   * non-empty title and message are required; the icon defaults to "bell"
   * and `read` to false.
   */
  function NewNotification(userId: UserId, d: NotificationData, now: nat): (r: Option<Notification>)
    ensures r.Some? <==> d.kind.Some? && ParseType(d.kind.value).Some? && Present(d.title) && Present(d.message)
    ensures r.Some? ==>
      && r.value.user == userId && TypeName(r.value.kind) == d.kind.value
      && r.value.title == d.title.value && r.value.message == d.message.value && r.value.link == d.link
      && r.value.icon == d.icon.GetOr("bell") && r.value.read == d.read.GetOr(false)
      && r.value.createdAt == now
  {
    if d.kind.None? || !Present(d.title) || !Present(d.message) then None
    else match ParseType(d.kind.value)
      case None => None
      case Some(t) =>
        Some(Notification(userId, t, d.title.value, d.message.value, d.link,
                          d.icon.GetOr("bell"), d.read.GetOr(false), now))
  }

  /** The filter `{ user: u, read: false }`. */
  function UnreadFor(u: UserId): Notification -> bool {
    (n: Notification) => n.user == u && !n.read
  }

  /** `countDocuments({ user: u, read: false })`. */
  function UnreadCount(ns: seq<Notification>, u: UserId): (n: nat)
    ensures n == |Positions(ns, UnreadFor(u))|
    ensures n <= |ns|
  {
    CountPositions(ns, UnreadFor(u));
    Count(ns, UnreadFor(u))
  }

  /** The notifications after `markAllAsRead(u)`: every one of `u`'s is read, all others are unchanged. */
  function AllRead(ns: seq<Notification>, u: UserId): (r: seq<Notification>)
    ensures |r| == |ns|
    ensures forall i :: 0 <= i < |ns| && ns[i].user == u ==> r[i] == ns[i].(read := true)
    ensures forall i :: 0 <= i < |ns| && ns[i].user != u ==> r[i] == ns[i]
  {
    if ns == [] then []
    else [if ns[0].user == u then ns[0].(read := true) else ns[0]] + AllRead(ns[1..], u)
  }

  /** Right after `markAllAsRead(u)`, `u` has no unread notification. */
  lemma MarkAllClearsUnread(ns: seq<Notification>, u: UserId)
    ensures UnreadCount(AllRead(ns, u), u) == 0
  {
    CountZeroIff(AllRead(ns, u), UnreadFor(u));
  }

  /** `markAllAsRead(u)` leaves every other user's unread count as it was. */
  lemma {:induction false} MarkAllKeepsOthers(ns: seq<Notification>, u: UserId, v: UserId)
    requires v != u
    ensures UnreadCount(AllRead(ns, u), v) == UnreadCount(ns, v)
  {
    if ns != [] {
      MarkAllKeepsOthers(ns[1..], u, v);
      var r := AllRead(ns, u);
      assert r[1..] == AllRead(ns[1..], u);
      assert UnreadFor(v)(r[0]) == UnreadFor(v)(ns[0]);
    }
  }

  /** Marking one of `u`'s notifications read lowers `u`'s unread count by one if it was unread. */
  lemma MarkOneLowersCount(ns: seq<Notification>, id: nat, u: UserId)
    requires id < |ns| && ns[id].user == u
    ensures UnreadCount(ns[id := ns[id].(read := true)], u) == UnreadCount(ns, u) - (if ns[id].read then 0 else 1)
  {
    CountUpdate(ns, id, ns[id].(read := true), UnreadFor(u));
  }

  /** A new notification counts as unread for its user unless it was created read. */
  lemma CreateRaisesCount(ns: seq<Notification>, n: Notification, u: UserId)
    ensures UnreadCount(ns + [n], u) == UnreadCount(ns, u) + (if n.user == u && !n.read then 1 else 0)
  {
    CountAppend(ns, n, UnreadFor(u));
  }

  /** The notifications collection; a notification's id is its position. */
  class NotificationStore {
    var notifications: seq<Notification>

    constructor ()
      ensures notifications == []
    {
      notifications := [];
    }

    /** `createNotification(userId, data)`: the new id, or None when validation rejects the data. */
    method CreateNotification(userId: UserId, d: NotificationData, now: nat) returns (id: Option<nat>)
      modifies this
      ensures NewNotification(userId, d, now).None? ==> id.None? && notifications == old(notifications)
      ensures NewNotification(userId, d, now).Some? ==>
        id == Some(|old(notifications)|) && notifications == old(notifications) + [NewNotification(userId, d, now).value]
    {
      var n := NewNotification(userId, d, now);
      if n.None? {
        return None;
      }
      notifications := notifications + [n.value];
      id := Some(|notifications| - 1);
    }

    /** `markAsRead(id, user)`: only the owner's notification is updated; otherwise nothing changes and the answer is null. */
    method MarkAsRead(id: nat, user: UserId) returns (r: Option<Notification>)
      modifies this
      ensures !(id < |old(notifications)| && old(notifications)[id].user == user) ==>
        r.None? && notifications == old(notifications)
      ensures id < |old(notifications)| && old(notifications)[id].user == user ==>
        notifications == old(notifications)[id := old(notifications)[id].(read := true)]
        && r == Some(notifications[id])
    {
      if id < |notifications| && notifications[id].user == user {
        notifications := notifications[id := notifications[id].(read := true)];
        r := Some(notifications[id]);
      } else {
        r := None;
      }
    }

    /** `markAllAsRead(user)`: the number of notifications it modified. */
    method MarkAllAsRead(user: UserId) returns (modified: nat)
      modifies this
      ensures notifications == AllRead(old(notifications), user)
      ensures modified == UnreadCount(old(notifications), user)
    {
      modified := UnreadCount(notifications, user);
      notifications := AllRead(notifications, user);
    }

    /** `getUnreadCount(user)`: how many of the user's notifications are unread. */
    function GetUnreadCount(user: UserId): (n: nat)
      reads this
      ensures n == UnreadCount(notifications, user)
      ensures n == |Positions(notifications, UnreadFor(user))|
      ensures n <= |notifications|
      ensures n == 0 <==> forall i :: 0 <= i < |notifications| ==> notifications[i].user != user || notifications[i].read
    {
      CountZeroIff(notifications, UnreadFor(user));
      CountPositions(notifications, UnreadFor(user));
      UnreadCount(notifications, user)
    }
  }
}
