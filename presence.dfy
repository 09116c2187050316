/**
 * The presence registry of backend/server.js: the `onlineUsers` map from user
 * id to socket id, kept up to date by the `user_online` and `disconnect`
 * socket events, and the point-to-point events that are delivered only to a
 * user found in it.
 */
module Presence {
  import opened Common

  type SocketId = string

  /** One entry of the map, in the map's insertion order. */
  type Entry = (UserId, SocketId)

  /** A map holds each key once. */
  predicate KeysDistinct(es: seq<Entry>) {
    forall i, j :: 0 <= i < j < |es| ==> es[i].0 != es[j].0
  }

  /** The position of the entry for `u`. */
  function IndexOfUser(es: seq<Entry>, u: UserId): Option<nat> {
    FindIndex(es, (e: Entry) => e.0 == u)
  }

  /** `onlineUsers.get(u)`. */
  function Get(es: seq<Entry>, u: UserId): (r: Option<SocketId>)
    ensures r.None? <==> forall j :: 0 <= j < |es| ==> es[j].0 != u
  {
    match IndexOfUser(es, u)
    case None => None
    case Some(i) => Some(es[i].1)
  }

  /** In a map, the socket stored for the user of entry `j` is that entry's socket. */
  lemma GetEntry(es: seq<Entry>, j: nat)
    requires KeysDistinct(es) && j < |es|
    ensures Get(es, es[j].0) == Some(es[j].1)
  {
  }

  /** `onlineUsers.set(u, s)`: overwrite the entry of `u` where it stands, or append one. */
  function SetEntry(es: seq<Entry>, u: UserId, s: SocketId): (r: seq<Entry>)
    ensures IndexOfUser(es, u).Some? ==> r == es[IndexOfUser(es, u).value := (u, s)]
    ensures IndexOfUser(es, u).None? ==> r == es + [(u, s)]
  {
    match IndexOfUser(es, u)
    case Some(i) => es[i := (u, s)]
    case None => es + [(u, s)]
  }

  /**
   * After `set(u, s)` the map holds `s` for `u`, replacing any earlier
   * socket, still holds each key once, and answers as before for everyone
   * else.
   */
  lemma SetEntryUpdates(es: seq<Entry>, u: UserId, s: SocketId, v: UserId)
    requires KeysDistinct(es)
    ensures KeysDistinct(SetEntry(es, u, s))
    ensures Get(SetEntry(es, u, s), u) == Some(s)
    ensures v != u ==> Get(SetEntry(es, u, s), v) == Get(es, v)
  {
    var r := SetEntry(es, u, s);
    assert r[|r| - 1] == (u, s) || r[IndexOfUser(es, u).value] == (u, s);
    var k :| 0 <= k < |r| && r[k] == (u, s);
    GetEntry(r, k);
    if v != u {
      if j :| 0 <= j < |es| && es[j].0 == v {
        assert r[j] == es[j];
        GetEntry(es, j);
        GetEntry(r, j);
      }
    }
  }

  /** `onlineUsers.delete` of the entry at position `i`. */
  function RemoveAt(es: seq<Entry>, i: nat): (r: seq<Entry>)
    requires i < |es|
    ensures |r| == |es| - 1
    ensures forall j :: 0 <= j < i ==> r[j] == es[j]
    ensures forall j :: i < j < |es| ==> r[j - 1] == es[j]
  {
    es[..i] + es[i + 1..]
  }

  /** The test `socketId === socket.id` of the `disconnect` scan. */
  function HoldsSocket(s: SocketId): Entry -> bool {
    (e: Entry) => e.1 == s
  }

  /** The `disconnect` handler: drop the first entry holding the closing socket, naming its user. */
  function Disconnected(es: seq<Entry>, s: SocketId): (r: (seq<Entry>, Option<UserId>))
    ensures r.1.None? <==> forall j :: 0 <= j < |es| ==> es[j].1 != s
    ensures r.1.None? ==> r.0 == es
    ensures r.1.Some? ==> |r.0| == |es| - 1 && exists j :: 0 <= j < |es| && es[j] == (r.1.value, s)
  {
    match FindIndex(es, HoldsSocket(s))
    case None => (es, None)
    case Some(i) => (RemoveAt(es, i), Some(es[i].0))
  }

  /** Deleting an entry keeps each remaining key once and leaves no entry for the deleted key. */
  lemma RemoveAtKeepsKeys(es: seq<Entry>, i: nat)
    requires KeysDistinct(es) && i < |es|
    ensures KeysDistinct(RemoveAt(es, i))
    ensures Get(RemoveAt(es, i), es[i].0) == None
  {
    var r := RemoveAt(es, i);
    forall a, b | 0 <= a < b < |r| ensures r[a].0 != r[b].0 {
      var a' := if a < i then a else a + 1;
      var b' := if b < i then b else b + 1;
      assert r[a] == es[a'] && r[b] == es[b'];
    }
    forall j | 0 <= j < |r| ensures r[j].0 != es[i].0 {
      var j' := if j < i then j else j + 1;
      assert r[j] == es[j'];
    }
  }

  /** Deleting one entry leaves every other user's socket as it was. */
  lemma RemoveAtKeepsOthers(es: seq<Entry>, i: nat, v: UserId)
    requires KeysDistinct(es) && i < |es| && v != es[i].0
    ensures Get(RemoveAt(es, i), v) == Get(es, v)
  {
    var r := RemoveAt(es, i);
    RemoveAtKeepsKeys(es, i);
    if j :| 0 <= j < |es| && es[j].0 == v {
      var j' := if j < i then j else j - 1;
      assert r[j'] == es[j];
      GetEntry(es, j);
      GetEntry(r, j');
    } else {
      forall k | 0 <= k < |r| ensures r[k].0 != v {
        var k' := if k < i then k else k + 1;
        assert r[k] == es[k'];
      }
    }
  }

  /**
   * A disconnect removes nothing when no entry holds the socket, and
   * otherwise exactly the first entry holding it, that of the user it
   * names; every other user's
   * entry is unchanged and each key is still held once.
   */
  lemma DisconnectRemovesAtMostOne(es: seq<Entry>, s: SocketId, v: UserId)
    requires KeysDistinct(es)
    ensures var (r, removed) := Disconnected(es, s);
      && KeysDistinct(r)
      && (removed.None? <==> forall j :: 0 <= j < |es| ==> es[j].1 != s)
      && (removed.None? ==> r == es)
      && (removed.Some? ==> exists i :: 0 <= i < |es| && es[i].1 == s && removed.value == es[i].0
                                        && r == RemoveAt(es, i) && forall j :: 0 <= j < i ==> es[j].1 != s)
      && (removed.Some? ==> |r| == |es| - 1 && Get(es, removed.value) == Some(s) && Get(r, removed.value) == None)
      && (removed != Some(v) ==> Get(r, v) == Get(es, v))
  {
    match FindIndex(es, HoldsSocket(s))
    case None =>
    case Some(i) =>
      GetEntry(es, i);
      RemoveAtKeepsKeys(es, i);
      if v != es[i].0 {
        RemoveAtKeepsOthers(es, i, v);
      }
  }

  /**
   * The disconnect of a user's old socket never removes the mapping to the
   * socket the user reconnected with, since removal matches on the socket.
   */
  lemma OldSocketKeepsNewMapping(es: seq<Entry>, u: UserId, oldSocket: SocketId, newSocket: SocketId)
    requires KeysDistinct(es) && oldSocket != newSocket
    ensures Get(Disconnected(SetEntry(es, u, newSocket), oldSocket).0, u) == Some(newSocket)
  {
    SetEntryUpdates(es, u, newSocket, u);
    var es' := SetEntry(es, u, newSocket);
    DisconnectRemovesAtMostOne(es', oldSocket, u);
  }

  /** The `user_status_changed` broadcast. */
  datatype StatusChange = StatusChange(userId: UserId, online: bool)

  /** The events sent to a single user's socket. */
  datatype Event =
    | ReceiveMessage(message: string)
    | UserTyping(typingUser: UserId)
    | UserStoppedTyping(typingUser: UserId)
    | MessagesMarkedRead(readBy: UserId, timestamp: nat)

  datatype Emit = Emit(to: SocketId, event: Event)

  /** `io.to(onlineUsers.get(target)).emit(...)` guarded by the truthiness of the socket id. */
  function Route(es: seq<Entry>, target: UserId, ev: Event): (r: Option<Emit>)
    ensures r.Some? <==> Present(Get(es, target))
    ensures r.Some? ==> r.value.event == ev && Some(r.value.to) == Get(es, target)
  {
    if Present(Get(es, target)) then Some(Emit(Get(es, target).value, ev)) else None
  }

  /** A user who came online on a socket receives the events routed to them there. */
  lemma RouteAfterOnline(es: seq<Entry>, u: UserId, s: SocketId, ev: Event)
    requires KeysDistinct(es) && s != ""
    ensures Route(SetEntry(es, u, s), u, ev) == Some(Emit(s, ev))
  {
    SetEntryUpdates(es, u, s, u);
  }

  /** A user whose socket closed receives nothing until they come online again. */
  lemma NoRouteAfterDisconnect(es: seq<Entry>, s: SocketId, ev: Event)
    requires KeysDistinct(es)
    requires Disconnected(es, s).1.Some?
    ensures Route(Disconnected(es, s).0, Disconnected(es, s).1.value, ev) == None
  {
    DisconnectRemovesAtMostOne(es, s, Disconnected(es, s).1.value);
  }

  /** The `onlineUsers` map of the socket server. */
  class PresenceRegistry {
    var online: seq<Entry>

    ghost predicate Valid()
      reads this
    {
      KeysDistinct(online)
    }

    constructor ()
      ensures Valid() && online == []
    {
      online := [];
    }

    /** `user_online`: record the caller's socket for `u` and announce `u` as online. */
    method UserOnline(u: UserId, socket: SocketId) returns (b: StatusChange)
      requires Valid()
      modifies this
      ensures Valid()
      ensures online == SetEntry(old(online), u, socket)
      ensures b == StatusChange(u, true)
    {
      SetEntryUpdates(online, u, socket, u);
      match IndexOfUser(online, u) {
        case Some(i) =>
          online := online[i := (u, socket)];
        case None =>
          online := online + [(u, socket)];
      }
      b := StatusChange(u, true);
    }

    /** `send_message`: relay the message to the recipient's socket when they are online. */
    function SendMessage(recipientId: UserId, message: string): (r: Option<Emit>)
      reads this
      ensures r.Some? <==> Present(Get(online, recipientId))
      ensures r.Some? ==> r.value == Emit(Get(online, recipientId).value, ReceiveMessage(message))
    {
      Route(online, recipientId, ReceiveMessage(message))
    }

    /** `typing_start`: tell the recipient, when online, that the sender is typing. */
    function TypingStart(recipientId: UserId, senderId: UserId): (r: Option<Emit>)
      reads this
      ensures r.Some? <==> Present(Get(online, recipientId))
      ensures r.Some? ==> r.value == Emit(Get(online, recipientId).value, UserTyping(senderId))
    {
      Route(online, recipientId, UserTyping(senderId))
    }

    /** `typing_stop`: tell the recipient, when online, that the sender stopped typing. */
    function TypingStop(recipientId: UserId, senderId: UserId): (r: Option<Emit>)
      reads this
      ensures r.Some? <==> Present(Get(online, recipientId))
      ensures r.Some? ==> r.value == Emit(Get(online, recipientId).value, UserStoppedTyping(senderId))
    {
      Route(online, recipientId, UserStoppedTyping(senderId))
    }

    /** `messages_read`: tell the original sender, when online, who read their messages and when. */
    function MessagesRead(senderId: UserId, readBy: UserId, now: nat): (r: Option<Emit>)
      reads this
      ensures r.Some? <==> Present(Get(online, senderId))
      ensures r.Some? ==> r.value == Emit(Get(online, senderId).value, MessagesMarkedRead(readBy, now))
    {
      Route(online, senderId, MessagesMarkedRead(readBy, now))
    }

    /**
     * `disconnect`: scan the entries in order and delete the first whose
     * socket is the closing one, announcing its user as offline.
     */
    method Disconnect(socket: SocketId) returns (b: Option<StatusChange>)
      requires Valid()
      modifies this
      ensures Valid()
      ensures online == Disconnected(old(online), socket).0
      ensures b.Some? <==> Disconnected(old(online), socket).1.Some?
      ensures b.Some? ==> b.value == StatusChange(Disconnected(old(online), socket).1.value, false)
    {
      var i := 0;
      while i < |online|
        invariant 0 <= i <= |online|
        invariant online == old(online)
        invariant forall j :: 0 <= j < i ==> online[j].1 != socket
      {
        if online[i].1 == socket {
          var u := online[i].0;
          assert FindIndex(online, HoldsSocket(socket)) == Some(i);
          RemoveAtKeepsKeys(online, i);
          online := RemoveAt(online, i);
          return Some(StatusChange(u, false));
        }
        i := i + 1;
      }
      assert FindIndex(online, HoldsSocket(socket)) == None;
      return None;
    }
  }
}
