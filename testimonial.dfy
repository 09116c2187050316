/**
 * Testimonials (backend/controllers/testimonialController.js over the schema
 * of backend/models/Testimonial.js): one testimonial per user, the role and
 * company shown with it derived from the author's profile, the approved (and
 * optionally featured) listing, and approval and deletion by id.
 */
module Testimonials {
  import opened Common
  import opened Ordering

  /** The author's account, as far as testimonials read it. */
  datatype Account = Account(name: Option<string>, role: Role, profileImage: Option<string>)

  /**
   * The author's role profile: its `role` field and its affiliation, which is
   * the mentor's `company`, the student's `college` or the organizer's
   * `organization`.
   */
  datatype Profile = Profile(role: Option<string>, affiliation: Option<string>)

  datatype Testimonial = Testimonial(
    user: UserId,
    name: string,
    role: string,
    company: string,
    image: string,
    rating: int,
    feedback: string,
    isApproved: bool,
    isFeatured: bool,
    order: int,
    createdAt: nat)

  /** The body of a create request. */
  datatype TestimonialForm = TestimonialForm(rating: Option<int>, feedback: Option<string>)

  const MaxFeedback: nat := 500
  const DefaultListLimit: int := 20

  /** `x || fallback` on an optional string. */
  function OrElse(x: Option<string>, fallback: string): (r: string)
    ensures Present(x) ==> r == x.value
    ensures !Present(x) ==> r == fallback
  {
    if Present(x) then x.value else fallback
  }

  /**
   * The `role` and `company` of a new testimonial: the profile's values or
   * the defaults for the author's kind of account; 'User' and '' when the
   * account is of another kind or has no profile.
   */
  function RoleAndCompany(role: Role, profile: Option<Profile>): (r: (string, string))
    ensures r.0 != ""
    ensures r.1 == "" <==> profile.None? || role == AdminRole
    ensures profile.None? || role == AdminRole ==> r == ("User", "")
    ensures role == MentorRole && profile.Some? ==>
      r == (OrElse(profile.value.role, "Mentor"), OrElse(profile.value.affiliation, "Professional"))
    ensures role == StudentRole && profile.Some? ==>
      r == (OrElse(profile.value.role, "Student"), OrElse(profile.value.affiliation, "University"))
    ensures role == OrganizerRole && profile.Some? ==>
      r == (OrElse(profile.value.role, "Event Organizer"), OrElse(profile.value.affiliation, "Organization"))
  {
    match (role, profile)
    case (MentorRole, Some(p)) => (OrElse(p.role, "Mentor"), OrElse(p.affiliation, "Professional"))
    case (StudentRole, Some(p)) => (OrElse(p.role, "Student"), OrElse(p.affiliation, "University"))
    case (OrganizerRole, Some(p)) => (OrElse(p.role, "Event Organizer"), OrElse(p.affiliation, "Organization"))
    case _ => ("User", "")
  }

  /**
   * The schema's validation of a new testimonial: a non-empty name, role,
   * company and feedback, a rating from 1 to 5 (5 when missing) and at most
   * 500 characters of feedback.
   */
  predicate Acceptable(name: Option<string>, company: string, f: TestimonialForm) {
    && Present(name)
    && company != ""
    && (f.rating.None? || 1 <= f.rating.value <= 5)
    && Present(f.feedback) && |f.feedback.value| <= MaxFeedback
  }

  /** No user has two testimonials. */
  predicate OnePerUser(slots: seq<Option<Testimonial>>) {
    forall i, j :: 0 <= i < j < |slots| && slots[i].Some? && slots[j].Some? ==> slots[i].value.user != slots[j].value.user
  }

  predicate HasTestimonial(slots: seq<Option<Testimonial>>, u: UserId) {
    exists i :: 0 <= i < |slots| && slots[i].Some? && slots[i].value.user == u
  }

  /**
   * `createTestimonial` by `u`: 400 when `u` already has one, 404 for an
   * unknown account, 500 when validation fails, and otherwise a new
   * unapproved testimonial.
   */
  function NewTestimonial(slots: seq<Option<Testimonial>>, u: UserId, accounts: map<UserId, Account>,
                          profiles: map<UserId, Profile>, f: TestimonialForm, now: nat): (r: Reply<Testimonial>)
    ensures r == BadRequest <==> HasTestimonial(slots, u)
    ensures r == NotFound <==> !HasTestimonial(slots, u) && u !in accounts
    ensures r == ServerError <==>
      && !HasTestimonial(slots, u) && u in accounts
      && !Acceptable(accounts[u].name, RoleAndCompany(accounts[u].role, if u in profiles then Some(profiles[u]) else None).1, f)
    ensures !r.Forbidden?
    ensures r.Ok? ==>
      && u in accounts
      && var company := RoleAndCompany(accounts[u].role, if u in profiles then Some(profiles[u]) else None).1;
      && Acceptable(accounts[u].name, company, f)
      && r.value.user == u && r.value.name == accounts[u].name.value
      && (r.value.role, r.value.company) == RoleAndCompany(accounts[u].role, if u in profiles then Some(profiles[u]) else None)
      && r.value.image == OrElse(accounts[u].profileImage, "")
      && r.value.rating == f.rating.GetOr(5) && 1 <= r.value.rating <= 5
      && r.value.feedback == f.feedback.value
      && !r.value.isApproved && !r.value.isFeatured && r.value.order == 0 && r.value.createdAt == now
  {
    if HasTestimonial(slots, u) then BadRequest
    else if u !in accounts then NotFound
    else
      var a := accounts[u];
      var rc := RoleAndCompany(a.role, if u in profiles then Some(profiles[u]) else None);
      if !Acceptable(a.name, rc.1, f) then ServerError
      else Ok(Testimonial(u, a.name.value, rc.0, rc.1, OrElse(a.profileImage, ""), f.rating.GetOr(5),
                          f.feedback.value, false, false, 0, now))
  }

  /** An account without a role profile, or of a kind with none, cannot submit: its company is empty. */
  lemma NoProfileCannotSubmit(slots: seq<Option<Testimonial>>, u: UserId, accounts: map<UserId, Account>,
                              profiles: map<UserId, Profile>, f: TestimonialForm, now: nat)
    requires u in accounts && !HasTestimonial(slots, u)
    requires u !in profiles || accounts[u].role == AdminRole
    ensures NewTestimonial(slots, u, accounts, profiles, f, now) == ServerError
  {
  }

  /** Adding a created testimonial keeps one testimonial per user, and the author cannot submit again. */
  lemma CreateKeepsOnePerUser(slots: seq<Option<Testimonial>>, u: UserId, accounts: map<UserId, Account>,
                              profiles: map<UserId, Profile>, f: TestimonialForm, now: nat, g: TestimonialForm, later: nat)
    requires OnePerUser(slots)
    requires NewTestimonial(slots, u, accounts, profiles, f, now).Ok?
    ensures var slots' := slots + [Some(NewTestimonial(slots, u, accounts, profiles, f, now).value)];
      OnePerUser(slots') && NewTestimonial(slots', u, accounts, profiles, g, later) == BadRequest
  {
    var t := NewTestimonial(slots, u, accounts, profiles, f, now).value;
    var slots' := slots + [Some(t)];
    assert slots'[|slots|].Some? && slots'[|slots|].value.user == u;
    forall i, j | 0 <= i < j < |slots'| && slots'[i].Some? && slots'[j].Some?
      ensures slots'[i].value.user != slots'[j].value.user
    {
      if j == |slots| {
        assert slots'[i] == slots[i];
        assert !(slots[i].Some? && slots[i].value.user == u);
      }
    }
  }

  /** The filter `{ isApproved: true }`, plus `isFeatured: true` when `featured` is the string 'true'. */
  function Listed(featured: Option<string>): ((nat, Testimonial)) -> bool {
    (e: (nat, Testimonial)) => e.1.isApproved && (featured == Some("true") ==> e.1.isFeatured)
  }

  /** The sort `{ order: -1, createdAt: -1 }`. */
  function ByOrder(e: (nat, Testimonial)): Rank {
    Rank(e.1.order, e.1.createdAt)
  }

  /**
   * `getAllTestimonials`: approved testimonials (only featured ones when
   * asked), highest `order` then newest first, as many as qualify but at
   * most `limit` (20 when missing, every one for 0).
   */
  function Listing(slots: seq<Option<Testimonial>>, featured: Option<string>, limit: Option<int>): (r: seq<(nat, Testimonial)>)
    ensures Descending(r, ByOrder)
    ensures limit.GetOr(DefaultListLimit) != 0 ==>
      |r| == Min(Count(Occupied(slots), Listed(featured)), Abs(limit.GetOr(DefaultListLimit)))
    ensures limit.GetOr(DefaultListLimit) == 0 ==> |r| == Count(Occupied(slots), Listed(featured))
    ensures forall e :: e in r ==> e.0 < |slots| && slots[e.0] == Some(e.1) && e.1.isApproved
    ensures featured == Some("true") ==> forall e :: e in r ==> e.1.isFeatured
  {
    Top(Filter(Occupied(slots), Listed(featured)), ByOrder, limit.GetOr(DefaultListLimit))
  }

  /**
   * No qualifying testimonial left off the list ranks above a listed one:
   * the list holds the highest `order`, then the newest.
   */
  lemma ListingHoldsTop(slots: seq<Option<Testimonial>>, featured: Option<string>, limit: Option<int>,
                        x: (nat, Testimonial), id: nat)
    requires x in Listing(slots, featured, limit)
    requires id < |slots| && slots[id].Some? && slots[id].value.isApproved
    requires featured == Some("true") ==> slots[id].value.isFeatured
    requires (id, slots[id].value) !in Listing(slots, featured, limit)
    ensures RankLeq(ByOrder((id, slots[id].value)), ByOrder(x))
  {
    var y := (id, slots[id].value);
    TopHoldsLargest(Filter(Occupied(slots), Listed(featured)), ByOrder, limit.GetOr(DefaultListLimit), x, y);
  }

  /** When the qualifying testimonials fit within the limit, every one of them is listed. */
  lemma ListingComplete(slots: seq<Option<Testimonial>>, featured: Option<string>, limit: Option<int>, id: nat)
    requires id < |slots| && slots[id].Some? && slots[id].value.isApproved
    requires featured == Some("true") ==> slots[id].value.isFeatured
    requires limit.GetOr(DefaultListLimit) == 0 ||
             Count(Occupied(slots), Listed(featured)) <= Abs(limit.GetOr(DefaultListLimit))
    ensures (id, slots[id].value) in Listing(slots, featured, limit)
  {
    TopAllWhenFew(Filter(Occupied(slots), Listed(featured)), ByOrder, limit.GetOr(DefaultListLimit), (id, slots[id].value));
  }

  /** A testimonial is never listed before it is approved. */
  lemma UnapprovedNotListed(slots: seq<Option<Testimonial>>, featured: Option<string>, limit: Option<int>, id: nat)
    requires id < |slots| && slots[id].Some? && !slots[id].value.isApproved
    ensures forall e :: e in Listing(slots, featured, limit) ==> e.0 != id
  {
  }

  /** `approveTestimonial`: 404 for a missing id; otherwise only `isApproved` changes, to true. */
  function Approved(slots: seq<Option<Testimonial>>, id: nat): (r: Reply<Testimonial>)
    ensures r == NotFound <==> id >= |slots| || slots[id].None?
    ensures r.Ok? ==> r.value == slots[id].value.(isApproved := true)
    ensures !r.BadRequest? && !r.Forbidden? && !r.ServerError?
  {
    if id >= |slots| || slots[id].None? then NotFound else Ok(slots[id].value.(isApproved := true))
  }

  /** Approving keeps one testimonial per user. */
  lemma ApproveKeepsOnePerUser(slots: seq<Option<Testimonial>>, id: nat)
    requires OnePerUser(slots) && Approved(slots, id).Ok?
    ensures OnePerUser(slots[id := Some(Approved(slots, id).value)])
  {
    var slots' := slots[id := Some(Approved(slots, id).value)];
    forall i, j | 0 <= i < j < |slots'| && slots'[i].Some? && slots'[j].Some?
      ensures slots'[i].value.user != slots'[j].value.user
    {
      assert slots'[i].value.user == slots[i].value.user;
      assert slots'[j].value.user == slots[j].value.user;
    }
  }

  /** Deleting frees the author to submit a new testimonial. */
  lemma DeleteAllowsResubmission(slots: seq<Option<Testimonial>>, id: nat, accounts: map<UserId, Account>,
                                 profiles: map<UserId, Profile>, f: TestimonialForm, now: nat)
    requires OnePerUser(slots) && id < |slots| && slots[id].Some?
    ensures NewTestimonial(slots[id := None], slots[id].value.user, accounts, profiles, f, now) != BadRequest
  {
    var u := slots[id].value.user;
    var slots' := slots[id := None];
    forall i | 0 <= i < |slots'| && slots'[i].Some? ensures slots'[i].value.user != u {
      if i < id {
        assert slots[i].value.user != slots[id].value.user;
      } else if i > id {
        assert slots[id].value.user != slots[i].value.user;
      }
    }
  }

  /** The testimonials collection; a testimonial's id is its slot. */
  class TestimonialStore {
    var slots: seq<Option<Testimonial>>

    ghost predicate Valid()
      reads this
    {
      OnePerUser(slots)
    }

    constructor ()
      ensures slots == [] && Valid()
    {
      slots := [];
    }

    /** `getAllTestimonials`: the listing over the stored testimonials. */
    function GetAllTestimonials(featured: Option<string>, limit: Option<int>): (r: seq<(nat, Testimonial)>)
      reads this
      ensures Descending(r, ByOrder)
      ensures limit.GetOr(DefaultListLimit) != 0 ==>
        |r| == Min(Count(Occupied(slots), Listed(featured)), Abs(limit.GetOr(DefaultListLimit)))
      ensures forall e :: e in r ==> e.0 < |slots| && slots[e.0] == Some(e.1) && Listed(featured)(e)
      ensures multiset(r) <= multiset(Filter(Occupied(slots), Listed(featured)))
    {
      Listing(slots, featured, limit)
    }

    /** `createTestimonial`: the new id, or the error answered. */
    method CreateTestimonial(u: UserId, accounts: map<UserId, Account>, profiles: map<UserId, Profile>,
                             f: TestimonialForm, now: nat) returns (r: Reply<nat>)
      requires Valid()
      modifies this
      ensures Valid()
      ensures NewTestimonial(old(slots), u, accounts, profiles, f, now).Ok? ==>
        r == Ok(|old(slots)|) && slots == old(slots) + [Some(NewTestimonial(old(slots), u, accounts, profiles, f, now).value)]
      ensures !NewTestimonial(old(slots), u, accounts, profiles, f, now).Ok? ==>
        r == Rethrow(NewTestimonial(old(slots), u, accounts, profiles, f, now)) && slots == old(slots)
    {
      var t := NewTestimonial(slots, u, accounts, profiles, f, now);
      if !t.Ok? {
        return Rethrow(t);
      }
      CreateKeepsOnePerUser(slots, u, accounts, profiles, f, now, f, now);
      slots := slots + [Some(t.value)];
      r := Ok(|slots| - 1);
    }

    /** `approveTestimonial`. */
    method ApproveTestimonial(id: nat) returns (r: Reply<Testimonial>)
      requires Valid()
      modifies this
      ensures Valid()
      ensures r == Approved(old(slots), id)
      ensures r.Ok? ==> slots == old(slots)[id := Some(r.value)]
      ensures !r.Ok? ==> slots == old(slots)
    {
      r := Approved(slots, id);
      if r.Ok? {
        ApproveKeepsOnePerUser(slots, id);
        slots := slots[id := Some(r.value)];
      }
    }

    /** `deleteTestimonial`: 404 for a missing id; otherwise the slot is emptied. */
    method DeleteTestimonial(id: nat) returns (r: Reply<bool>)
      requires Valid()
      modifies this
      ensures Valid()
      ensures r == NotFound <==> id >= |old(slots)| || old(slots)[id].None?
      ensures r.Ok? ==> slots == old(slots)[id := None]
      ensures !r.Ok? ==> slots == old(slots)
    {
      if id >= |slots| || slots[id].None? {
        return NotFound;
      }
      slots := slots[id := None];
      r := Ok(true);
    }
  }
}
