/**
 * Mentoring sessions (backend/controllers/sessionController.js over the
 * schema of backend/models/Session.js): scheduling a session with its
 * defaults, the participant and pair queries, and the participant-only and
 * creator-only rules for viewing, updating and deleting a session.
 */
module Sessions {
  import opened Common
  import opened Ordering

  datatype SessionStatus = Scheduled | Completed | Cancelled | Pending

  function StatusName(s: SessionStatus): string {
    match s
    case Scheduled => "scheduled"
    case Completed => "completed"
    case Cancelled => "cancelled"
    case Pending => "pending"
  }

  /** The `enum` validator of `status`. */
  function ParseStatus(s: string): (r: Option<SessionStatus>)
    ensures r.Some? ==> StatusName(r.value) == s
    ensures r.None? ==> forall t :: StatusName(t) != s
  {
    if s == "scheduled" then Some(Scheduled)
    else if s == "completed" then Some(Completed)
    else if s == "cancelled" then Some(Cancelled)
    else if s == "pending" then Some(Pending)
    else None
  }

  lemma ParseStatusRoundTrip(s: SessionStatus)
    ensures ParseStatus(StatusName(s)) == Some(s)
  {
  }

  const DefaultDuration: int := 30
  const DefaultTimezone: string := "GMT-05:00 (Eastern Time - US and Canada)"

  /** A stored session; `date` is the instant the `date` string was cast to. */
  datatype Session = Session(
    mentor: UserId,
    student: UserId,
    date: int,
    time: string,
    duration: int,
    timezone: string,
    zoomLink: string,
    password: Option<string>,
    notes: Option<string>,
    status: SessionStatus,
    createdBy: UserId)

  /** The body of a create request; any field may be missing. */
  datatype SessionForm = SessionForm(
    studentId: Option<string>,
    date: Option<string>,
    time: Option<string>,
    duration: Option<int>,
    timezone: Option<string>,
    zoomLink: Option<string>,
    password: Option<string>,
    notes: Option<string>)

  predicate FormComplete(f: SessionForm) {
    Present(f.studentId) && Present(f.date) && Present(f.time) && Present(f.zoomLink)
  }

  /**
   * `createSession` by `mentor`: 400 without a student, date, time or link,
   * 404 for an unknown student, 500 when the date does not cast, and
   * otherwise the new session with the caller as mentor and creator, the
   * duration defaulting to 30 and the timezone to US Eastern.
   */
  function NewSession(mentor: UserId, f: SessionForm, users: set<UserId>, parseDate: string -> Option<int>): (r: Reply<Session>)
    ensures r == BadRequest <==> !FormComplete(f)
    ensures r == NotFound <==> FormComplete(f) && f.studentId.value !in users
    ensures r == ServerError <==> FormComplete(f) && f.studentId.value in users && parseDate(f.date.value).None?
    ensures !r.Forbidden?
    ensures r.Ok? ==>
      && r.value.mentor == mentor && r.value.createdBy == mentor
      && r.value.student == f.studentId.value && f.studentId.value in users
      && Some(r.value.date) == parseDate(f.date.value)
      && r.value.time == f.time.value && r.value.zoomLink == f.zoomLink.value
      && r.value.duration == (if f.duration.Some? && f.duration.value != 0 then f.duration.value else DefaultDuration)
      && r.value.timezone == (if Present(f.timezone) then f.timezone.value else DefaultTimezone)
      && r.value.password == f.password && r.value.notes == f.notes
      && r.value.status == Scheduled
  {
    if !FormComplete(f) then BadRequest
    else if f.studentId.value !in users then NotFound
    else match parseDate(f.date.value)
      case None => ServerError
      case Some(d) =>
        Ok(Session(mentor, f.studentId.value, d, f.time.value,
                   if f.duration.Some? && f.duration.value != 0 then f.duration.value else DefaultDuration,
                   if Present(f.timezone) then f.timezone.value else DefaultTimezone,
                   f.zoomLink.value, f.password, f.notes, Scheduled, mentor))
  }

  predicate Involves(s: Session, u: UserId) {
    s.mentor == u || s.student == u
  }

  /** The optional `status` filter: absent or empty matches every session. */
  predicate StatusMatches(s: Session, status: Option<string>) {
    !Present(status) || StatusName(s.status) == status.value
  }

  function Mine(u: UserId, status: Option<string>): ((nat, Session)) -> bool {
    (e: (nat, Session)) => Involves(e.1, u) && StatusMatches(e.1, status)
  }

  /** The filter matching the pair in either role. */
  function Pair(a: UserId, b: UserId): ((nat, Session)) -> bool {
    (e: (nat, Session)) => (e.1.mentor == a && e.1.student == b) || (e.1.mentor == b && e.1.student == a)
  }

  /** The sort `{ date: -1 }`. */
  function ByDate(e: (nat, Session)): Rank {
    Rank(e.1.date, 0)
  }

  /** `getSessions`: the caller's sessions in either role, optionally of one status, latest date first. */
  function SessionsOf(slots: seq<Option<Session>>, u: UserId, status: Option<string>): (r: seq<(nat, Session)>)
    ensures Descending(r, ByDate)
    ensures forall e :: e in r <==>
      e.0 < |slots| && slots[e.0] == Some(e.1) && Involves(e.1, u) && StatusMatches(e.1, status)
    ensures multiset(r) == multiset(Filter(Occupied(slots), Mine(u, status)))
  {
    var mine := Filter(Occupied(slots), Mine(u, status));
    SortDescSameMembers(mine, ByDate);
    SortDesc(mine, ByDate)
  }

  /** `getSessionsWithUser`: the sessions between the two users in either role, latest date first. */
  function SessionsBetween(slots: seq<Option<Session>>, a: UserId, b: UserId): (r: seq<(nat, Session)>)
    ensures Descending(r, ByDate)
    ensures forall e :: e in r <==>
      (e.0 < |slots| && slots[e.0] == Some(e.1) &&
       ((e.1.mentor == a && e.1.student == b) || (e.1.mentor == b && e.1.student == a)))
    ensures multiset(r) == multiset(Filter(Occupied(slots), Pair(a, b)))
  {
    var pair := Filter(Occupied(slots), Pair(a, b));
    SortDescSameMembers(pair, ByDate);
    SortDesc(pair, ByDate)
  }

  /** Asking for the sessions with `b` as `a` gives the very list `b` gets asking for `a`. */
  lemma SessionsBetweenSymmetric(slots: seq<Option<Session>>, a: UserId, b: UserId)
    ensures SessionsBetween(slots, a, b) == SessionsBetween(slots, b, a)
  {
    FilterSame(Occupied(slots), Pair(a, b), Pair(b, a));
  }

  /** The sessions with another user are among the caller's own sessions. */
  lemma SessionsBetweenAreMine(slots: seq<Option<Session>>, a: UserId, b: UserId)
    ensures forall e :: e in SessionsBetween(slots, a, b) ==> e in SessionsOf(slots, a, None)
  {
  }

  /** `getSessionById`: 404 for a missing session, 403 unless the caller takes part in it. */
  function ViewOutcome(slots: seq<Option<Session>>, id: nat, u: UserId): (r: Reply<Session>)
    ensures r == NotFound <==> id >= |slots| || slots[id].None?
    ensures r == Forbidden <==> id < |slots| && slots[id].Some? && !Involves(slots[id].value, u)
    ensures r.Ok? <==> id < |slots| && slots[id].Some? && Involves(slots[id].value, u)
    ensures r.Ok? ==> r.value == slots[id].value
  {
    if id >= |slots| || slots[id].None? then NotFound
    else if !Involves(slots[id].value, u) then Forbidden
    else Ok(slots[id].value)
  }

  /**
   * `updateSessionStatus`: the same 404 and 403 as viewing; an unknown status
   * fails validation on save; otherwise only the status changes, with no
   * restriction on the transition.
   */
  function UpdateOutcome(slots: seq<Option<Session>>, id: nat, u: UserId, status: string): (r: Reply<Session>)
    ensures ViewOutcome(slots, id, u).Ok? <==> r.Ok? || r.ServerError?
    ensures !ViewOutcome(slots, id, u).Ok? ==> r == ViewOutcome(slots, id, u)
    ensures r.ServerError? <==> ViewOutcome(slots, id, u).Ok? && ParseStatus(status).None?
    ensures r.Ok? ==> r.value == slots[id].value.(status := r.value.status) && StatusName(r.value.status) == status
  {
    match ViewOutcome(slots, id, u)
    case Ok(s) =>
      (match ParseStatus(status)
       case None => ServerError
       case Some(t) => Ok(s.(status := t)))
    case _ => ViewOutcome(slots, id, u)
  }

  /** `deleteSession`: 404 for a missing session, 403 for anyone but its creator. */
  function DeleteOutcome(slots: seq<Option<Session>>, id: nat, u: UserId): (r: Reply<bool>)
    ensures r == NotFound <==> id >= |slots| || slots[id].None?
    ensures r == Forbidden <==> id < |slots| && slots[id].Some? && slots[id].value.createdBy != u
    ensures r.Ok? <==> id < |slots| && slots[id].Some? && slots[id].value.createdBy == u
  {
    if id >= |slots| || slots[id].None? then NotFound
    else if slots[id].value.createdBy != u then Forbidden
    else Ok(true)
  }

  /** A newly scheduled session is listed for, and viewable by, both its mentor and its student; its creator may delete it. */
  lemma CreatedSessionVisibleToBoth(slots: seq<Option<Session>>, mentor: UserId, f: SessionForm, users: set<UserId>,
                                    parseDate: string -> Option<int>)
    requires NewSession(mentor, f, users, parseDate).Ok?
    ensures var s := NewSession(mentor, f, users, parseDate).value;
      var slots' := slots + [Some(s)];
      && (|slots|, s) in SessionsOf(slots', mentor, None)
      && (|slots|, s) in SessionsOf(slots', f.studentId.value, None)
      && ViewOutcome(slots', |slots|, mentor) == Ok(s)
      && ViewOutcome(slots', |slots|, f.studentId.value) == Ok(s)
      && DeleteOutcome(slots', |slots|, mentor) == Ok(true)
  {
  }

  /** A participant who is not the creator may change the status but not delete the session. */
  lemma StudentMayUpdateNotDelete(slots: seq<Option<Session>>, id: nat, status: string)
    requires id < |slots| && slots[id].Some? && slots[id].value.student != slots[id].value.createdBy
    requires ParseStatus(status).Some?
    ensures UpdateOutcome(slots, id, slots[id].value.student, status).Ok?
    ensures DeleteOutcome(slots, id, slots[id].value.student) == Forbidden
  {
  }

  /** The sessions collection; a session's id is its slot. */
  class SessionStore {
    var slots: seq<Option<Session>>

    constructor ()
      ensures slots == []
    {
      slots := [];
    }

    /** `createSession`: the new session's id, or the error answered. */
    method CreateSession(mentor: UserId, f: SessionForm, users: set<UserId>, parseDate: string -> Option<int>)
      returns (r: Reply<nat>)
      modifies this
      ensures NewSession(mentor, f, users, parseDate).Ok? ==>
        r == Ok(|old(slots)|) && slots == old(slots) + [Some(NewSession(mentor, f, users, parseDate).value)]
      ensures !NewSession(mentor, f, users, parseDate).Ok? ==>
        r == Rethrow(NewSession(mentor, f, users, parseDate)) && slots == old(slots)
    {
      var s := NewSession(mentor, f, users, parseDate);
      if !s.Ok? {
        return Rethrow(s);
      }
      slots := slots + [Some(s.value)];
      r := Ok(|slots| - 1);
    }

    /** `getSessions`: each of the caller's sessions (of the given status) once, latest date first. */
    function GetSessions(u: UserId, status: Option<string>): (r: seq<(nat, Session)>)
      reads this
      ensures Descending(r, ByDate)
      ensures forall e :: e in r <==>
        e.0 < |slots| && slots[e.0] == Some(e.1) && Involves(e.1, u) && StatusMatches(e.1, status)
      ensures multiset(r) == multiset(Filter(Occupied(slots), Mine(u, status)))
    {
      SessionsOf(slots, u, status)
    }

    /** `getSessionsWithUser`: each session between the two users once, latest date first. */
    function GetSessionsWithUser(current: UserId, other: UserId): (r: seq<(nat, Session)>)
      reads this
      ensures Descending(r, ByDate)
      ensures forall e :: e in r <==> e.0 < |slots| && slots[e.0] == Some(e.1) && Pair(current, other)(e)
      ensures multiset(r) == multiset(Filter(Occupied(slots), Pair(current, other)))
    {
      SessionsBetween(slots, current, other)
    }

    /** `getSessionById`: the session, for its mentor or student only. */
    function GetSessionById(id: nat, u: UserId): (r: Reply<Session>)
      reads this
      ensures r == NotFound <==> id >= |slots| || slots[id].None?
      ensures r.Ok? <==> id < |slots| && slots[id].Some? && Involves(slots[id].value, u)
      ensures r.Ok? ==> r.value == slots[id].value
      ensures r.Ok? || r == NotFound || r == Forbidden
    {
      ViewOutcome(slots, id, u)
    }

    /** `updateSessionStatus`: on success only this session's status changes. */
    method UpdateSessionStatus(id: nat, u: UserId, status: string) returns (r: Reply<Session>)
      modifies this
      ensures r == UpdateOutcome(old(slots), id, u, status)
      ensures r.Ok? ==> slots == old(slots)[id := Some(r.value)]
      ensures !r.Ok? ==> slots == old(slots)
    {
      r := UpdateOutcome(slots, id, u, status);
      if r.Ok? {
        slots := slots[id := Some(r.value)];
      }
    }

    /** `deleteSession`: on success the slot is emptied and the session can no longer be found. */
    method DeleteSession(id: nat, u: UserId) returns (r: Reply<bool>)
      modifies this
      ensures r == DeleteOutcome(old(slots), id, u)
      ensures r.Ok? ==> slots == old(slots)[id := None] && forall v :: ViewOutcome(slots, id, v) == NotFound
      ensures !r.Ok? ==> slots == old(slots)
    {
      r := DeleteOutcome(slots, id, u);
      if r.Ok? {
        slots := slots[id := None];
      }
    }
  }
}
