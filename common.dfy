/**
 * Shared vocabulary of the model: optional values, the outcome of a
 * request handler, the "absent counts as 0" reading of counter maps,
 * filtering, and the `limit` of a database cursor.
 */
module Common {

  type UserId = string

  /** The `role` of a user account. */
  datatype Role = MentorRole | StudentRole | OrganizerRole | AdminRole

  datatype Option<T> = None | Some(value: T) {
    function GetOr(default: T): T {
      match this
      case Some(v) => v
      case None => default
    }
  }

  /**
   * The outcome of a request handler: a value (HTTP 200/201) or one of the
   * error statuses the handlers answer with (400, 403, 404, and 500 for an
   * exception caught by the handler's catch-all).
   */
  datatype Reply<T> = Ok(value: T) | BadRequest | Forbidden | NotFound | ServerError

  /** JavaScript truthiness of an optional string: absent and "" are falsy. */
  predicate Present(s: Option<string>) {
    s.Some? && s.value != ""
  }

  /** `m.get(k) || 0` on a map of counters. */
  function CountOf(m: map<UserId, nat>, k: UserId): (n: nat)
    ensures k in m ==> n == m[k]
    ensures k !in m ==> n == 0
  {
    if k in m then m[k] else 0
  }

  /** The elements of `s` that satisfy `p`, in their original order. */
  function Filter<T(!new)>(s: seq<T>, p: T -> bool): (r: seq<T>)
    ensures |r| <= |s|
    ensures forall x :: x in r <==> x in s && p(x)
    ensures multiset(r) <= multiset(s)
  {
    if s == [] then []
    else
      assert s == [s[0]] + s[1..];
      if p(s[0]) then [s[0]] + Filter(s[1..], p) else Filter(s[1..], p)
  }

  /** No element of `s` occurs twice. */
  predicate Distinct<T(==)>(s: seq<T>) {
    forall i, j :: 0 <= i < j < |s| ==> s[i] != s[j]
  }

  /** Filtering a sequence without repetitions leaves one without repetitions. */
  lemma {:induction false} FilterKeepsDistinct<T(!new)>(s: seq<T>, p: T -> bool)
    requires Distinct(s)
    ensures Distinct(Filter(s, p))
  {
    if s != [] {
      var rest := Filter(s[1..], p);
      assert Distinct(s[1..]);
      FilterKeepsDistinct(s[1..], p);
      assert Distinct(rest);
      if p(s[0]) {
        var r := Filter(s, p);
        assert r == [s[0]] + rest;
        assert s[0] !in rest by {
          assert s[0] !in s[1..];
        }
        forall i, j | 0 <= i < j < |r| ensures r[i] != r[j] {
          if i == 0 {
            assert rest[j - 1] in rest;
          } else {
            assert r[i] == rest[i - 1] && r[j] == rest[j - 1];
          }
        }
      }
    }
  }

  /** Filtering keeps everything when every element qualifies. */
  lemma {:induction false} FilterAll<T(!new)>(s: seq<T>, p: T -> bool)
    requires forall i :: 0 <= i < |s| ==> p(s[i])
    ensures Filter(s, p) == s
  {
    if s != [] {
      FilterAll(s[1..], p);
      assert s == [s[0]] + s[1..];
    }
  }

  /** Filtering an extended sequence filters the old part and then the new element. */
  lemma {:induction false} FilterAppend<T(!new)>(s: seq<T>, x: T, p: T -> bool)
    ensures Filter(s + [x], p) == Filter(s, p) + (if p(x) then [x] else [])
  {
    if s == [] {
      assert [x][1..] == [];
    } else {
      assert (s + [x])[0] == s[0] && (s + [x])[1..] == s[1..] + [x];
      FilterAppend(s[1..], x, p);
    }
  }

  /** Filters with predicates that agree everywhere keep the same elements. */
  lemma {:induction false} FilterSame<T(!new)>(s: seq<T>, p: T -> bool, q: T -> bool)
    requires forall x :: p(x) == q(x)
    ensures Filter(s, p) == Filter(s, q)
  {
    if s != [] {
      FilterSame(s[1..], p, q);
    }
  }

  /** The number of elements of `s` that satisfy `p`. */
  function Count<T(!new)>(s: seq<T>, p: T -> bool): nat {
    |Filter(s, p)|
  }

  /** The count is 0 exactly when no element satisfies the predicate. */
  lemma {:induction false} CountZeroIff<T(!new)>(s: seq<T>, p: T -> bool)
    ensures Count(s, p) == 0 <==> forall i :: 0 <= i < |s| ==> !p(s[i])
  {
    if s != [] {
      CountZeroIff(s[1..], p);
      assert s == [s[0]] + s[1..];
      assert forall i :: 1 <= i < |s| ==> s[i] == s[1..][i - 1];
    }
  }

  /** Replacing one element changes the count by what the old and the new element contribute. */
  lemma {:induction false} CountUpdate<T(!new)>(s: seq<T>, i: nat, x: T, p: T -> bool)
    requires i < |s|
    ensures Count(s[i := x], p) + (if p(s[i]) then 1 else 0) == Count(s, p) + (if p(x) then 1 else 0)
  {
    var s' := s[i := x];
    assert s == [s[0]] + s[1..];
    assert s' == [s'[0]] + s'[1..];
    if i > 0 {
      assert s'[1..] == s[1..][i - 1 := x];
      CountUpdate(s[1..], i - 1, x, p);
    } else {
      assert s'[1..] == s[1..];
    }
  }

  /** Appending one element adds its own contribution to the count. */
  lemma {:induction false} CountAppend<T(!new)>(s: seq<T>, x: T, p: T -> bool)
    ensures Count(s + [x], p) == Count(s, p) + (if p(x) then 1 else 0)
  {
    if s == [] {
      assert s + [x] == [x];
      assert [x][1..] == [];
    } else {
      assert (s + [x])[0] == s[0] && (s + [x])[1..] == s[1..] + [x];
      CountAppend(s[1..], x, p);
    }
  }

  /** The positions of `s` whose element satisfies `p`. */
  ghost function Positions<T>(s: seq<T>, p: T -> bool): set<nat> {
    set i: nat | i < |s| && p(s[i])
  }

  /** Extending a sequence adds its last position when the new element qualifies. */
  lemma PositionsAppend<T>(s: seq<T>, x: T, p: T -> bool)
    ensures Positions(s + [x], p) == Positions(s, p) + (if p(x) then {|s|} else {})
    ensures |s| !in Positions(s, p)
  {
    var t := s + [x];
    forall i: nat | i < |s| ensures t[i] == s[i] {
    }
    assert t[|s|] == x;
  }

  /** `countDocuments`: the count is the number of positions holding a qualifying element. */
  lemma {:induction false} CountPositions<T(!new)>(s: seq<T>, p: T -> bool)
    ensures Count(s, p) == |Positions(s, p)|
  {
    if s != [] {
      var n := |s| - 1;
      var init := s[..n];
      CountPositions(init, p);
      assert s == init + [s[n]];
      CountAppend(init, s[n], p);
      PositionsAppend(init, s[n], p);
    }
  }

  /**
   * `cursor.limit(n)` of the document store: 0 means no limit, a negative
   * limit returns at most |n| documents.
   */
  function Limit<T>(s: seq<T>, n: int): (r: seq<T>)
    ensures n == 0 ==> r == s
    ensures n != 0 ==> |r| == (if |s| < Abs(n) then |s| else Abs(n))
    ensures r <= s
  {
    if n == 0 || |s| <= Abs(n) then s else s[..Abs(n)]
  }

  function Abs(n: int): nat {
    if n < 0 then -n else n
  }

  function Min(a: int, b: int): int {
    if a < b then a else b
  }

  /** `s.findIndex(p)`: the position of the first element satisfying `p`, if any. */
  function FindIndex<T>(s: seq<T>, p: T -> bool): (r: Option<nat>)
    ensures r.Some? ==> r.value < |s| && p(s[r.value])
    ensures r.Some? ==> forall j :: 0 <= j < r.value ==> !p(s[j])
    ensures r.None? ==> forall j :: 0 <= j < |s| ==> !p(s[j])
  {
    if s == [] then None
    else if p(s[0]) then Some(0)
    else match FindIndex(s[1..], p)
      case None => None
      case Some(i) => Some(i + 1)
  }

  /** `s.map(f)`. */
  function Map<A, B>(s: seq<A>, f: A -> B): (r: seq<B>)
    ensures |r| == |s|
    ensures forall i :: 0 <= i < |s| ==> r[i] == f(s[i])
  {
    if s == [] then [] else [f(s[0])] + Map(s[1..], f)
  }

  /** The documents of a collection paired with their ids (their positions). */
  function Indexed<T>(s: seq<T>): (r: seq<(nat, T)>)
    ensures |r| == |s|
    ensures forall i :: 0 <= i < |s| ==> r[i] == (i, s[i])
    ensures forall e :: e in r ==> e.0 < |s| && s[e.0] == e.1
  {
    seq(|s|, i requires 0 <= i < |s| => (i, s[i]))
  }

  /**
   * The documents of a collection whose ids are slots, paired with their ids
   * in id order; a removed document leaves its slot empty.
   */
  function Occupied<T(!new)>(slots: seq<Option<T>>): (r: seq<(nat, T)>)
    ensures forall e :: e in r <==> e.0 < |slots| && slots[e.0] == Some(e.1)
  {
    if slots == [] then []
    else
      var n := |slots| - 1;
      var rest := Occupied(slots[..n]);
      assert forall i :: 0 <= i < n ==> slots[..n][i] == slots[i];
      rest + (if slots[n].Some? then [(n, slots[n].value)] else [])
  }

  /** An error outcome passed on unchanged by a handler with another result type. */
  function Rethrow<A, B>(r: Reply<A>): (s: Reply<B>)
    requires !r.Ok?
    ensures !s.Ok?
    ensures s.BadRequest? == r.BadRequest? && s.Forbidden? == r.Forbidden?
    ensures s.NotFound? == r.NotFound? && s.ServerError? == r.ServerError?
  {
    match r
    case BadRequest => BadRequest
    case Forbidden => Forbidden
    case NotFound => NotFound
    case ServerError => ServerError
  }

  function Reverse<T>(s: seq<T>): (r: seq<T>)
    ensures |r| == |s|
    ensures forall i :: 0 <= i < |s| ==> r[i] == s[|s| - 1 - i]
  {
    if s == [] then [] else Reverse(s[1..]) + [s[0]]
  }

  lemma ReverseMembers<T(!new)>(s: seq<T>)
    ensures forall x :: x in Reverse(s) <==> x in s
  {
    var r := Reverse(s);
    forall x | x in s ensures x in r {
      var i :| 0 <= i < |s| && s[i] == x;
      assert r[|s| - 1 - i] == x;
    }
  }
}
