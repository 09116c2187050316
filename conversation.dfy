/**
 * The conversation directory (backend/models/Conversation.js): the
 * symmetric conversation key, the conversation record with its
 * per-participant counters, and find-or-create of a two-party conversation.
 */
module Conversations {
  import opened Common
  import opened Ordering
  import opened Messages

  /** The separator `generateConversationId` joins the two ids with. */
  const Separator: char := '_'

  /** `generateConversationId`: the two ids sorted, joined with `_`. */
  function ConversationKey(a: UserId, b: UserId): (k: string)
    ensures |k| == |a| + |b| + 1
  {
    var p := SortPair(a, b);
    p.0 + [Separator] + p.1
  }

  /** The key does not depend on which participant asks for it. */
  lemma KeySymmetric(a: UserId, b: UserId)
    ensures ConversationKey(a, b) == ConversationKey(b, a)
  {
    SortPairSymmetric(a, b);
  }

  /** The key starts with the smaller id, and the larger id follows the separator. */
  lemma KeyOrdersIds(a: UserId, b: UserId)
    ensures var k := ConversationKey(a, b);
      exists lo, hi :: {lo, hi} == {a, b} && !StrLess(hi, lo) && k == lo + [Separator] + hi
  {
    var p := SortPair(a, b);
    assert {p.0, p.1} == {a, b};
  }

  /** The position of the first separator in `s` (|s| when there is none). */
  function SeparatorIndex(s: string): nat {
    if s == [] || s[0] == Separator then 0 else 1 + SeparatorIndex(s[1..])
  }

  lemma {:induction false} SeparatorIndexOfJoin(x: string, y: string)
    requires Separator !in x
    ensures SeparatorIndex(x + [Separator] + y) == |x|
  {
    if x != [] {
      assert (x + [Separator] + y)[1..] == x[1..] + [Separator] + y;
      SeparatorIndexOfJoin(x[1..], y);
    }
  }

  /** Two strings without the separator are recovered from their joined form. */
  lemma SplitAtSeparator(x: string, y: string, u: string, v: string)
    requires Separator !in x && Separator !in u
    requires x + [Separator] + y == u + [Separator] + v
    ensures x == u && y == v
  {
    var w := x + [Separator] + y;
    SeparatorIndexOfJoin(x, y);
    SeparatorIndexOfJoin(u, v);
    assert x == w[..|x|];
    assert u == (u + [Separator] + v)[..|u|];
    assert y == w[|x| + 1..];
    assert v == (u + [Separator] + v)[|u| + 1..];
  }

  /**
   * For ids that do not contain the separator (the hexadecimal ids of the
   * store never do), the key identifies the unordered pair.
   */
  lemma KeyIdentifiesPair(a: UserId, b: UserId, c: UserId, d: UserId)
    requires Separator !in a && Separator !in b && Separator !in c && Separator !in d
    requires ConversationKey(a, b) == ConversationKey(c, d)
    ensures multiset{a, b} == multiset{c, d}
  {
    var p := SortPair(a, b);
    var q := SortPair(c, d);
    SplitAtSeparator(p.0, p.1, q.0, q.1);
  }

  /** The denormalised snapshot of the latest message of a conversation. */
  datatype LastMessage = LastMessage(
    content: string,
    sender: UserId,
    createdAt: nat,
    messageType: MessageType)

  datatype Conversation = Conversation(
    participants: seq<UserId>,
    lastMessage: Option<LastMessage>,
    lastMessageAt: nat,
    unreadCount: map<UserId, nat>,
    isArchived: map<UserId, bool>,
    createdAt: nat)

  /** The reader's unread counter, absent counting as 0. */
  function Unread(c: Conversation, u: UserId): nat {
    CountOf(c.unreadCount, u)
  }

  /** The lookup `{ participants: { $all: [a, b], $size: 2 } }`. */
  predicate PairMatches(c: Conversation, a: UserId, b: UserId) {
    |c.participants| == 2 && a in c.participants && b in c.participants
  }

  /** For two different ids, the lookup matches exactly the conversations of that pair. */
  lemma PairMatchesExactly(c: Conversation, a: UserId, b: UserId)
    requires a != b
    ensures PairMatches(c, a, b) <==> multiset(c.participants) == multiset{a, b}
  {
    if PairMatches(c, a, b) {
      var p := c.participants;
      assert p == [p[0], p[1]];
      assert multiset(p) == multiset{p[0], p[1]};
    }
    if multiset(c.participants) == multiset{a, b} {
      assert |multiset(c.participants)| == 2;
      assert a in multiset(c.participants) && b in multiset(c.participants);
    }
  }

  /**
   * A conversation as `findOrCreateConversation` creates it: the sorted pair
   * as participants, both counters at 0, neither side archived, and no last
   * message yet.
   */
  function NewConversation(a: UserId, b: UserId, now: nat): (c: Conversation)
    ensures PairMatches(c, a, b) && PairMatches(c, b, a)
    ensures c.participants == [SortPair(a, b).0, SortPair(a, b).1]
    ensures c.unreadCount.Keys == {a, b} && Unread(c, a) == 0 && Unread(c, b) == 0
    ensures c.isArchived.Keys == {a, b} && !c.isArchived[a] && !c.isArchived[b]
    ensures c.lastMessage == None
  {
    var p := SortPair(a, b);
    Conversation([p.0, p.1], None, now, map[a := 0, b := 0], map[a := false, b := false], now)
  }

  /** The position of the first conversation from `from` on that the lookup matches. */
  function FirstMatchFrom(cs: seq<Conversation>, a: UserId, b: UserId, from: nat): (r: Option<nat>)
    requires from <= |cs|
    ensures r.Some? ==> from <= r.value < |cs| && PairMatches(cs[r.value], a, b)
    ensures r.Some? ==> forall j :: from <= j < r.value ==> !PairMatches(cs[j], a, b)
    ensures r.None? ==> forall j :: from <= j < |cs| ==> !PairMatches(cs[j], a, b)
    decreases |cs| - from
  {
    if from == |cs| then None
    else if PairMatches(cs[from], a, b) then Some(from)
    else FirstMatchFrom(cs, a, b, from + 1)
  }

  /** `findOne`: the first matching conversation in store order. */
  function FirstMatch(cs: seq<Conversation>, a: UserId, b: UserId): (r: Option<nat>)
    ensures r.Some? ==> r.value < |cs| && PairMatches(cs[r.value], a, b)
    ensures r.Some? ==> forall j :: 0 <= j < r.value ==> !PairMatches(cs[j], a, b)
    ensures r.None? <==> forall j :: 0 <= j < |cs| ==> !PairMatches(cs[j], a, b)
  {
    FirstMatchFrom(cs, a, b, 0)
  }

  lemma FirstMatchSymmetric(cs: seq<Conversation>, a: UserId, b: UserId)
    ensures FirstMatch(cs, a, b) == FirstMatch(cs, b, a)
  {
    var r, s := FirstMatch(cs, a, b), FirstMatch(cs, b, a);
    assert forall c :: PairMatches(c, a, b) == PairMatches(c, b, a);
    if r.Some? && s.Some? {
      assert !(r.value < s.value) && !(s.value < r.value);
    }
  }

  /**
   * `findOrCreateConversation(a, b)`: the conversations afterwards and the
   * position of the one returned.
   */
  function FindOrCreateSpec(cs: seq<Conversation>, a: UserId, b: UserId, now: nat): (r: (seq<Conversation>, nat))
    ensures r.1 < |r.0|
    ensures PairMatches(r.0[r.1], a, b)
    ensures FirstMatch(cs, a, b).Some? ==> r.0 == cs && r.1 == FirstMatch(cs, a, b).value
    ensures FirstMatch(cs, a, b).None? ==> r.0 == cs + [NewConversation(a, b, now)] && r.1 == |cs|
  {
    match FirstMatch(cs, a, b)
    case Some(i) => (cs, i)
    case None => (cs + [NewConversation(a, b, now)], |cs|)
  }

  /** Find-or-create adds at most one conversation and never changes an existing one. */
  lemma FindOrCreateAddsAtMostOne(cs: seq<Conversation>, a: UserId, b: UserId, now: nat)
    ensures var r := FindOrCreateSpec(cs, a, b, now);
      cs <= r.0 && |r.0| <= |cs| + 1
  {
  }

  /**
   * Find-or-create for (a, b) and then for (b, a) yields the same
   * conversation, and the second call creates nothing.
   */
  lemma FindOrCreateTwiceSame(cs: seq<Conversation>, a: UserId, b: UserId, now1: nat, now2: nat)
    ensures var r1 := FindOrCreateSpec(cs, a, b, now1);
      FindOrCreateSpec(r1.0, b, a, now2) == r1
  {
    var r1 := FindOrCreateSpec(cs, a, b, now1);
    FirstMatchSymmetric(r1.0, a, b);
    var f := FirstMatch(r1.0, a, b);
    if FirstMatch(cs, a, b).None? {
      assert forall j :: 0 <= j < |cs| ==> r1.0[j] == cs[j];
      assert f == Some(|cs|);
    } else {
      assert f == FirstMatch(cs, a, b);
    }
  }

  /** The conversations collection. */
  class ConversationDirectory {
    var conversations: seq<Conversation>

    constructor ()
      ensures conversations == []
    {
      conversations := [];
    }

    /**
     * `findOrCreateConversation`: return the first conversation whose
     * participants are exactly `a` and `b`, creating it if there is none.
     */
    method FindOrCreate(a: UserId, b: UserId, now: nat) returns (idx: nat)
      modifies this
      ensures (conversations, idx) == FindOrCreateSpec(old(conversations), a, b, now)
    {
      var i := 0;
      while i < |conversations|
        invariant 0 <= i <= |conversations|
        invariant forall j :: 0 <= j < i ==> !PairMatches(conversations[j], a, b)
      {
        if PairMatches(conversations[i], a, b) {
          idx := i;
          return;
        }
        i := i + 1;
      }
      conversations := conversations + [NewConversation(a, b, now)];
      idx := |conversations| - 1;
    }
  }
}
