/**
 * Mentorship requests (backend/models/MentorshipRequest.js) and the handlers
 * of backend/controllers/requestController.js: submitting a request, the
 * mentor accepting or rejecting it, the student's accepted mentors, and the
 * derived connection status that gates messaging.
 */
module Mentorship {
  import opened Common

  datatype RequestStatus = Pending | Accepted | Rejected

  datatype FileRef = FileRef(fileName: Option<string>, fileUrl: Option<string>)

  datatype ContactInfo = ContactInfo(email: Option<string>, linkedIn: Option<string>)

  datatype MentorshipRequest = MentorshipRequest(
    student: UserId,
    mentor: UserId,
    status: RequestStatus,
    message: string,
    bio: string,
    reasonForMentorship: string,
    currentPriorities: string,
    supportAreas: seq<string>,
    attachedFiles: seq<FileRef>,
    contactInfo: ContactInfo,
    createdAt: nat)

  /** The body of `submitRequest`; every field may be missing. */
  datatype RequestForm = RequestForm(
    message: Option<string>,
    bio: Option<string>,
    reasonForMentorship: Option<string>,
    currentPriorities: Option<string>,
    supportAreas: Option<seq<Option<string>>>,
    attachedFiles: Option<seq<FileRef>>,
    contactInfo: Option<ContactInfo>)

  /** The required-fields check: four non-empty strings and a support-area list (an empty list is truthy). */
  predicate FormComplete(f: RequestForm) {
    && Present(f.message)
    && Present(f.bio)
    && Present(f.reasonForMentorship)
    && Present(f.currentPriorities)
    && f.supportAreas.Some?
  }

  /**
   * The schema's `supportAreas: [{ type: String, required: true }]`: every
   * element must be a non-empty string, otherwise `create` throws.
   */
  predicate AreasValid(f: RequestForm) {
    f.supportAreas.Some? && forall i :: 0 <= i < |f.supportAreas.value| ==> Present(f.supportAreas.value[i])
  }

  /** The strings of a list whose elements are all present. */
  function AreaValues(xs: seq<Option<string>>): (r: seq<string>)
    requires forall i :: 0 <= i < |xs| ==> xs[i].Some?
    ensures |r| == |xs|
    ensures forall i :: 0 <= i < |xs| ==> Some(r[i]) == xs[i]
  {
    if xs == [] then [] else [xs[0].value] + AreaValues(xs[1..])
  }

  /**
   * The request `create` stores: the form's texts and support areas, status
   * defaulting to pending, files and contact info to empty.
   */
  function NewRequest(student: UserId, mentor: UserId, f: RequestForm, now: nat): (r: MentorshipRequest)
    requires FormComplete(f) && AreasValid(f)
    ensures r.status == Pending && r.student == student && r.mentor == mentor && r.createdAt == now
    ensures Some(r.message) == f.message && Some(r.bio) == f.bio
    ensures Some(r.reasonForMentorship) == f.reasonForMentorship && Some(r.currentPriorities) == f.currentPriorities
    ensures r.message != "" && r.bio != "" && r.reasonForMentorship != "" && r.currentPriorities != ""
    ensures |r.supportAreas| == |f.supportAreas.value|
    ensures forall i :: 0 <= i < |r.supportAreas| ==> r.supportAreas[i] != "" && Some(r.supportAreas[i]) == f.supportAreas.value[i]
    ensures f.attachedFiles.Some? ==> r.attachedFiles == f.attachedFiles.value
    ensures f.attachedFiles.None? ==> r.attachedFiles == []
    ensures f.contactInfo.Some? ==> r.contactInfo == f.contactInfo.value
    ensures f.contactInfo.None? ==> r.contactInfo == ContactInfo(None, None)
  {
    MentorshipRequest(student, mentor, Pending,
      f.message.value, f.bio.value, f.reasonForMentorship.value, f.currentPriorities.value,
      AreaValues(f.supportAreas.value), f.attachedFiles.GetOr([]), f.contactInfo.GetOr(ContactInfo(None, None)),
      now)
  }

  /** The request joins `a` and `b`, either one as mentor and the other as student. */
  predicate Between(r: MentorshipRequest, a: UserId, b: UserId) {
    (r.mentor == a && r.student == b) || (r.mentor == b && r.student == a)
  }

  /** The `$or` lookup of a request with status `st` between `a` and `b` in either orientation. */
  predicate HasRequestWithStatus(rs: seq<MentorshipRequest>, a: UserId, b: UserId, st: RequestStatus) {
    exists i :: 0 <= i < |rs| && rs[i].status == st && Between(rs[i], a, b)
  }

  /** The access gate: an accepted request in either orientation. */
  predicate HasAcceptedConnection(rs: seq<MentorshipRequest>, a: UserId, b: UserId) {
    HasRequestWithStatus(rs, a, b, Accepted)
  }

  /** A pending or accepted request from `student` to `mentor` blocks a new one. */
  predicate IsOpen(r: MentorshipRequest, student: UserId, mentor: UserId) {
    r.student == student && r.mentor == mentor && (r.status == Pending || r.status == Accepted)
  }

  predicate HasOpenRequest(rs: seq<MentorshipRequest>, student: UserId, mentor: UserId) {
    exists i :: 0 <= i < |rs| && IsOpen(rs[i], student, mentor)
  }

  /** No student holds two open requests to the same mentor. */
  ghost predicate AtMostOneOpen(rs: seq<MentorshipRequest>) {
    forall i, j :: 0 <= i < j < |rs| && IsOpen(rs[i], rs[i].student, rs[i].mentor) ==>
      !IsOpen(rs[j], rs[i].student, rs[i].mentor)
  }

  /** The outcome of `submitRequest` against the requests stored so far. */
  function SubmitOutcome(rs: seq<MentorshipRequest>, accounts: map<UserId, Role>,
                         student: UserId, mentor: UserId, f: RequestForm): (r: Reply<nat>)
    ensures r.Ok? <==>
      && FormComplete(f) && mentor in accounts && accounts[mentor] == MentorRole
      && !HasOpenRequest(rs, student, mentor) && AreasValid(f)
    ensures r.Ok? ==> r.value == |rs|
    ensures !FormComplete(f) ==> r == BadRequest
    ensures r == BadRequest <==>
      !FormComplete(f) || (mentor in accounts && accounts[mentor] == MentorRole && HasOpenRequest(rs, student, mentor))
    ensures r == NotFound <==> FormComplete(f) && (mentor !in accounts || accounts[mentor] != MentorRole)
    ensures r == ServerError <==>
      && FormComplete(f) && mentor in accounts && accounts[mentor] == MentorRole
      && !HasOpenRequest(rs, student, mentor) && !AreasValid(f)
    ensures r.BadRequest? || r.NotFound? || r.ServerError? || r.Ok?
  {
    if !FormComplete(f) then BadRequest
    else if mentor !in accounts || accounts[mentor] != MentorRole then NotFound
    else if HasOpenRequest(rs, student, mentor) then BadRequest
    else if !AreasValid(f) then ServerError
    else Ok(|rs|)
  }

  /** The requests after accepting or rejecting request `i`. */
  function WithStatus(rs: seq<MentorshipRequest>, i: nat, st: RequestStatus): (r: seq<MentorshipRequest>)
    requires i < |rs|
    ensures |r| == |rs| && r[i].status == st
    ensures forall j :: 0 <= j < |rs| && j != i ==> r[j] == rs[j]
    ensures r[i] == rs[i].(status := st)
  {
    rs[i := rs[i].(status := st)]
  }

  /** The lookup `{ _id: i, mentor: caller, status: 'pending' }` of accept and reject. */
  predicate PendingFor(rs: seq<MentorshipRequest>, i: nat, caller: UserId) {
    i < |rs| && rs[i].mentor == caller && rs[i].status == Pending
  }

  /** A successful submission keeps at most one open request per student and mentor. */
  lemma SubmitKeepsAtMostOneOpen(rs: seq<MentorshipRequest>, accounts: map<UserId, Role>,
                                 student: UserId, mentor: UserId, f: RequestForm, now: nat)
    requires AtMostOneOpen(rs)
    requires SubmitOutcome(rs, accounts, student, mentor, f).Ok?
    ensures AtMostOneOpen(rs + [NewRequest(student, mentor, f, now)])
  {
    var rs' := rs + [NewRequest(student, mentor, f, now)];
    forall i, j | 0 <= i < j < |rs'| && IsOpen(rs'[i], rs'[i].student, rs'[i].mentor)
      ensures !IsOpen(rs'[j], rs'[i].student, rs'[i].mentor)
    {
    }
  }

  /** Accepting or rejecting a pending request keeps at most one open request per pair. */
  lemma DecideKeepsAtMostOneOpen(rs: seq<MentorshipRequest>, i: nat, caller: UserId, st: RequestStatus)
    requires AtMostOneOpen(rs)
    requires PendingFor(rs, i, caller)
    requires st == Accepted || st == Rejected
    ensures AtMostOneOpen(WithStatus(rs, i, st))
  {
    var rs' := WithStatus(rs, i, st);
    forall a, b | 0 <= a < b < |rs'| && IsOpen(rs'[a], rs'[a].student, rs'[a].mentor)
      ensures !IsOpen(rs'[b], rs'[a].student, rs'[a].mentor)
    {
      assert rs'[a].student == rs[a].student && rs'[a].mentor == rs[a].mentor;
      assert IsOpen(rs[a], rs[a].student, rs[a].mentor);
    }
  }

  /** Accepting request `i` opens messaging between its student and its mentor. */
  lemma AcceptGrantsAccess(rs: seq<MentorshipRequest>, i: nat)
    requires i < |rs|
    ensures HasAcceptedConnection(WithStatus(rs, i, Accepted), rs[i].student, rs[i].mentor)
    ensures HasAcceptedConnection(WithStatus(rs, i, Accepted), rs[i].mentor, rs[i].student)
  {
    var rs' := WithStatus(rs, i, Accepted);
    assert rs'[i].status == Accepted && Between(rs'[i], rs[i].student, rs[i].mentor);
  }

  /** Rejecting a pending request neither grants nor revokes access for any pair. */
  lemma RejectKeepsAccess(rs: seq<MentorshipRequest>, i: nat, a: UserId, b: UserId)
    requires i < |rs| && rs[i].status == Pending
    ensures HasAcceptedConnection(WithStatus(rs, i, Rejected), a, b) == HasAcceptedConnection(rs, a, b)
  {
    var rs' := WithStatus(rs, i, Rejected);
    if HasAcceptedConnection(rs, a, b) {
      var k :| 0 <= k < |rs| && rs[k].status == Accepted && Between(rs[k], a, b);
      assert rs'[k] == rs[k];
    }
    if HasAcceptedConnection(rs', a, b) {
      var k :| 0 <= k < |rs'| && rs'[k].status == Accepted && Between(rs'[k], a, b);
      assert rs[k] == rs'[k];
    }
  }

  /** `activeMentees` after an accept: the student is added only when not already listed. */
  function AddMentee(mentees: seq<UserId>, student: UserId): (r: seq<UserId>)
    ensures student in r
    ensures forall x :: x in r <==> x in mentees || x == student
    ensures student in mentees ==> r == mentees
    ensures student !in mentees ==> |r| == |mentees| + 1
  {
    if student in mentees then mentees else mentees + [student]
  }

  /** A mentee list without repetitions stays without repetitions. */
  lemma AddMenteeKeepsDistinct(mentees: seq<UserId>, student: UserId)
    requires Distinct(mentees)
    ensures Distinct(AddMentee(mentees, student))
  {
  }

  datatype ConnectionStatus = ConnectionAccepted | ConnectionPending | ConnectionNone

  datatype MentorshipStatus = MentorshipStatus(
    canMessage: bool,
    hasAcceptedConnection: bool,
    hasPendingRequest: bool,
    connectionStatus: ConnectionStatus)

  /** `checkMentorshipStatus`: accepted wins over pending, which wins over none. */
  function CheckMentorshipStatus(rs: seq<MentorshipRequest>, current: UserId, other: UserId): (s: MentorshipStatus)
    ensures s.canMessage == s.hasAcceptedConnection == HasAcceptedConnection(rs, current, other)
    ensures s.hasPendingRequest == HasRequestWithStatus(rs, current, other, Pending)
    ensures s.connectionStatus == ConnectionAccepted <==> s.hasAcceptedConnection
    ensures s.connectionStatus == ConnectionPending <==> !s.hasAcceptedConnection && s.hasPendingRequest
    ensures s.connectionStatus == ConnectionNone <==> !s.hasAcceptedConnection && !s.hasPendingRequest
  {
    var accepted := HasAcceptedConnection(rs, current, other);
    var pending := HasRequestWithStatus(rs, current, other, Pending);
    MentorshipStatus(accepted, accepted, pending,
      if accepted then ConnectionAccepted else if pending then ConnectionPending else ConnectionNone)
  }

  /** Both sides see the same status. */
  lemma StatusSymmetric(rs: seq<MentorshipRequest>, a: UserId, b: UserId)
    ensures CheckMentorshipStatus(rs, a, b) == CheckMentorshipStatus(rs, b, a)
  {
    assert forall r :: Between(r, a, b) == Between(r, b, a);
  }

  /** After a successful submission the pair is no longer `none`. */
  lemma SubmitLeavesPairConnected(rs: seq<MentorshipRequest>, student: UserId, mentor: UserId,
                                  f: RequestForm, now: nat)
    requires FormComplete(f) && AreasValid(f)
    ensures CheckMentorshipStatus(rs + [NewRequest(student, mentor, f, now)], student, mentor).connectionStatus
      != ConnectionNone
  {
    var rs' := rs + [NewRequest(student, mentor, f, now)];
    assert rs'[|rs|].status == Pending && Between(rs'[|rs|], student, mentor);
  }

  /** The request qualifies for `getMyMentors`: accepted, of this student, mentor account still present. */
  predicate MentorOf(r: MentorshipRequest, student: UserId, accounts: map<UserId, Role>) {
    r.student == student && r.status == Accepted && r.mentor in accounts
  }

  /**
   * The mentor ids of `getMyMentors`, each once, in order of their first
   * accepted request: `new Set(...)` over the populated mentors, with
   * absent ones dropped by `filter(Boolean)`.
   */
  function MyMentorIds(rs: seq<MentorshipRequest>, student: UserId, accounts: map<UserId, Role>): (r: seq<UserId>)
    ensures Distinct(r)
    ensures forall m :: m in r <==> exists i :: 0 <= i < |rs| && MentorOf(rs[i], student, accounts) && rs[i].mentor == m
  {
    if rs == [] then []
    else
      var prev := MyMentorIds(rs[..|rs| - 1], student, accounts);
      var last := rs[|rs| - 1];
      assert forall i :: 0 <= i < |rs| - 1 ==> rs[..|rs| - 1][i] == rs[i];
      if MentorOf(last, student, accounts) && last.mentor !in prev then prev + [last.mentor] else prev
  }

  /** The requests collection and the mentors' `activeMentees` lists (keyed by mentor user; a key is a mentor profile). */
  class RequestStore {
    var requests: seq<MentorshipRequest>
    var activeMentees: map<UserId, seq<UserId>>

    constructor (mentorProfiles: map<UserId, seq<UserId>>)
      ensures requests == [] && activeMentees == mentorProfiles
    {
      requests := [];
      activeMentees := mentorProfiles;
    }

    /** `submitRequest`: validate, check the mentor, refuse a duplicate, then store a pending request if the schema accepts it. */
    method SubmitRequest(student: UserId, mentor: UserId, f: RequestForm,
                         accounts: map<UserId, Role>, now: nat) returns (r: Reply<nat>)
      modifies this
      ensures r == SubmitOutcome(old(requests), accounts, student, mentor, f)
      ensures r.Ok? ==> requests == old(requests) + [NewRequest(student, mentor, f, now)]
      ensures !r.Ok? ==> requests == old(requests)
      ensures activeMentees == old(activeMentees)
    {
      r := SubmitOutcome(requests, accounts, student, mentor, f);
      if r.Ok? {
        requests := requests + [NewRequest(student, mentor, f, now)];
      }
    }

    /** `acceptRequest`: only the owning mentor, only from pending; then record the mentee once. */
    method AcceptRequest(id: nat, caller: UserId) returns (r: Reply<MentorshipRequest>)
      modifies this
      ensures r.Ok? <==> PendingFor(old(requests), id, caller)
      ensures !r.Ok? ==> r == NotFound && requests == old(requests) && activeMentees == old(activeMentees)
      ensures r.Ok? ==> requests == WithStatus(old(requests), id, Accepted) && r.value == requests[id]
      ensures r.Ok? && caller in old(activeMentees) ==>
        activeMentees == old(activeMentees)[caller := AddMentee(old(activeMentees)[caller], old(requests)[id].student)]
      ensures r.Ok? && caller !in old(activeMentees) ==> activeMentees == old(activeMentees)
    {
      if !PendingFor(requests, id, caller) {
        return NotFound;
      }
      requests := WithStatus(requests, id, Accepted);
      if caller in activeMentees {
        activeMentees := activeMentees[caller := AddMentee(activeMentees[caller], requests[id].student)];
      }
      r := Ok(requests[id]);
    }

    /** `rejectRequest`: only the owning mentor, only from pending. */
    method RejectRequest(id: nat, caller: UserId) returns (r: Reply<MentorshipRequest>)
      modifies this
      ensures r.Ok? <==> PendingFor(old(requests), id, caller)
      ensures !r.Ok? ==> r == NotFound && requests == old(requests)
      ensures r.Ok? ==> requests == WithStatus(old(requests), id, Rejected) && r.value == requests[id]
      ensures activeMentees == old(activeMentees)
    {
      if !PendingFor(requests, id, caller) {
        return NotFound;
      }
      requests := WithStatus(requests, id, Rejected);
      r := Ok(requests[id]);
    }

    /** `getMyMentors`: the accepted mentors of `student` that have a mentor profile. */
    function GetMyMentors(student: UserId, accounts: map<UserId, Role>): (r: seq<UserId>)
      reads this
      ensures forall m :: m in r <==> m in activeMentees && exists i :: 0 <= i < |requests| && MentorOf(requests[i], student, accounts) && requests[i].mentor == m
      ensures Distinct(r)
    {
      var ids := MyMentorIds(requests, student, accounts);
      var profiles := activeMentees;
      var hasProfile := (m: UserId) => m in profiles;
      var r := Filter(ids, hasProfile);
      FilterKeepsDistinct(ids, hasProfile);
      r
    }
  }
}
