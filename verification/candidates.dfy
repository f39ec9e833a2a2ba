/** The candidate endpoints: an employer browses job seekers' profiles and
    opens one by its owner's user id. */
module Candidates {

  import opened Wrappers
  import opened Text
  import opened Schema
  import opened Api

  // Browsing.

  /** The query string of the browse endpoint. */
  datatype CandidateQuery = CandidateQuery(search: Option<string>, location: Option<string>)

  /** One condition the controller may push. */
  datatype Condition =
    | SearchAny(needle: string)
    | LocationLike(needle: string)

  /** Does a row of `profiles inner join users` satisfy the condition?  A
      NULL headline, bio or location satisfies no `ilike`. */
  predicate Holds(c: Condition, p: Profile, u: User)
  {
    match c
    case SearchAny(n) => ILikeColumn(p.headline, n) || ILikeColumn(p.bio, n) || ILikeContains(u.name, n)
    case LocationLike(n) => ILikeColumn(p.location, n)
  }

  /** `or(...conditions)`. */
  predicate AnyHolds(cs: seq<Condition>, p: Profile, u: User)
  {
    exists i :: 0 <= i < |cs| && Holds(cs[i], p, u)
  }

  function When(guard: bool, c: Condition): seq<Condition>
  {
    if guard then [c] else []
  }

  /** The condition list: search first, then location, each only when its
      text is non-empty. */
  function Conditions(q: CandidateQuery): (r: seq<Condition>)
    ensures |r| <= 2
    ensures |r| == 0 <==> !Given(q.search) && !Given(q.location)
  {
    When(Given(q.search), SearchAny(q.search.GetOr("")))
    + When(Given(q.location), LocationLike(q.location.GetOr("")))
  }

  /** `conditions.length > 0 ? where(or(...conditions)) : all rows`. */
  predicate Selected(cs: seq<Condition>, p: Profile, u: User)
  {
    |cs| == 0 || AnyHolds(cs, p, u)
  }

  /** Which candidates the browse endpoint returns, stated filter by filter:
      with no filter every candidate; otherwise those matching the search in
      the headline, the bio or the name, OR matching the location.  The two
      filters widen each other rather than narrow. */
  predicate Matches(q: CandidateQuery, p: Profile, u: User)
  {
    || (!Given(q.search) && !Given(q.location))
    || (Given(q.search) &&
          (ILikeColumn(p.headline, q.search.value) || ILikeColumn(p.bio, q.search.value)
           || ILikeContains(u.name, q.search.value)))
    || (Given(q.location) && ILikeColumn(p.location, q.location.value))
  }

  lemma AnyHoldsAppend(a: seq<Condition>, b: seq<Condition>, p: Profile, u: User)
    ensures AnyHolds(a + b, p, u) <==> AnyHolds(a, p, u) || AnyHolds(b, p, u)
  {
    if AnyHolds(a, p, u) {
      var i :| 0 <= i < |a| && Holds(a[i], p, u);
      assert (a + b)[i] == a[i];
    }
    if AnyHolds(b, p, u) {
      var i :| 0 <= i < |b| && Holds(b[i], p, u);
      assert (a + b)[|a| + i] == b[i];
    }
    if AnyHolds(a + b, p, u) {
      var i :| 0 <= i < |a + b| && Holds((a + b)[i], p, u);
      if i < |a| {
        assert (a + b)[i] == a[i];
      } else {
        assert (a + b)[i] == b[i - |a|];
      }
    }
  }

  lemma AnyHoldsWhen(g: bool, c: Condition, p: Profile, u: User)
    ensures AnyHolds(When(g, c), p, u) <==> g && Holds(c, p, u)
  {
    if g {
      assert When(g, c)[0] == c;
    }
  }

  /** The condition list means exactly `Matches`. */
  lemma ConditionsMeanMatches(q: CandidateQuery, p: Profile, u: User)
    ensures Selected(Conditions(q), p, u) <==> Matches(q, p, u)
  {
    var cs := When(Given(q.search), SearchAny(q.search.GetOr("")));
    var cl := When(Given(q.location), LocationLike(q.location.GetOr("")));
    AnyHoldsWhen(Given(q.search), SearchAny(q.search.GetOr("")), p, u);
    AnyHoldsWhen(Given(q.location), LocationLike(q.location.GetOr("")), p, u);
    AnyHoldsAppend(cs, cl, p, u);
  }

  lemma SelectionMeansMatches(q: CandidateQuery, s: Store)
    requires RefsTo(s.profiles, ProfileOwner, s.users)
    ensures forall p :: p in s.profiles ==>
      s.profiles[p].userId in s.users
      && (Selected(Conditions(q), s.profiles[p], s.users[s.profiles[p].userId])
          <==> Matches(q, s.profiles[p], s.users[s.profiles[p].userId]))
  {
    forall p | p in s.profiles
      ensures s.profiles[p].userId in s.users
      ensures Selected(Conditions(q), s.profiles[p], s.users[s.profiles[p].userId])
          <==> Matches(q, s.profiles[p], s.users[s.profiles[p].userId])
    {
      assert ProfileOwner(s.profiles[p]) in s.users;
      ConditionsMeanMatches(q, s.profiles[p], s.users[s.profiles[p].userId]);
    }
  }

  /** `GET /api/candidates`: the ids of the matching profiles.  The result is
      a set; the query has no `order by`. */
  function GetAllCandidates(caller: Option<Caller>, q: CandidateQuery, s: Store): (r: Reply<set<Id>>)
    requires Valid(s)
    ensures r.Failure? <==> !HasRole(caller, Employer)
    ensures r.Failure? ==> r == Failure(Forbidden, "Only employers can browse candidates")
    ensures r.Success? ==> r.status == Ok
    ensures r.Success? ==> forall p :: p in r.data <==>
      p in s.profiles && Matches(q, s.profiles[p], s.users[s.profiles[p].userId])
  {
    if !HasRole(caller, Employer) then Failure(Forbidden, "Only employers can browse candidates")
    else
      SelectionMeansMatches(q, s);
      Success(Ok, set p | p in s.profiles && s.profiles[p].userId in s.users
                          && Selected(Conditions(q), s.profiles[p], s.users[s.profiles[p].userId]))
  }

  /** Without filters an employer sees every profile: the inner join with
      users drops nothing. */
  lemma NoFiltersListsEveryone(caller: Option<Caller>, s: Store)
    requires Valid(s) && HasRole(caller, Employer)
    ensures GetAllCandidates(caller, CandidateQuery(None, None), s).data == s.profiles.Keys
  {
  }

  /** The filters are ORed: once a search is given, adding a location never
      hides a candidate, and a candidate in that location is listed whatever
      the search says. */
  lemma LocationWidensSearch(caller: Option<Caller>, q: CandidateQuery, location: string, s: Store)
    requires Valid(s) && HasRole(caller, Employer) && Given(q.search) && q.location.None?
    ensures var wide := GetAllCandidates(caller, q.(location := Some(location)), s).data;
      && GetAllCandidates(caller, q, s).data <= wide
      && (location != "" ==> forall p :: p in s.profiles && ILikeColumn(s.profiles[p].location, location) ==> p in wide)
  {
  }

  /** So a location filter can list MORE candidates than no filter on
      location: a search nobody matches, plus a location somebody matches,
      lists that somebody. */
  lemma SearchAndLocationIsNotNarrower(caller: Option<Caller>, s: Store, p: Id, search: string, location: string)
    requires Valid(s) && HasRole(caller, Employer) && p in s.profiles
    requires search != "" && location != ""
    requires !Holds(SearchAny(search), s.profiles[p], s.users[s.profiles[p].userId])
    requires ILikeColumn(s.profiles[p].location, location)
    ensures p !in GetAllCandidates(caller, CandidateQuery(Some(search), None), s).data
    ensures p in GetAllCandidates(caller, CandidateQuery(Some(search), Some(location)), s).data
  {
  }

  // A single candidate.

  /** What `GET /api/candidates/:id` shows: the profile without phone and
      resume link, plus the owner's name and email. */
  datatype CandidateView = CandidateView(
    id: Id,
    userId: Id,
    headline: Option<string>,
    bio: Option<string>,
    skills: Option<seq<string>>,
    experience: Option<string>,
    education: Option<string>,
    location: Option<string>,
    name: string,
    email: string)

  /** The candidate view of profile `id`: every column but the phone and
      the resume link, and the owner's name and email. */
  function ViewOf(id: Id, p: Profile, u: User): (r: CandidateView)
    ensures r.id == id && r.userId == p.userId && r.email == u.email && r.name == u.name
    ensures r.headline == p.headline && r.bio == p.bio && r.skills == p.skills
    ensures r.experience == p.experience && r.education == p.education && r.location == p.location
  {
    CandidateView(id, p.userId, p.headline, p.bio, p.skills, p.experience, p.education, p.location,
                  u.name, u.email)
  }

  /** `GET /api/candidates/:id`, where the id is the owner's user id. */
  function GetCandidateById(caller: Option<Caller>, user: Id, s: Store): (r: Reply<CandidateView>)
    requires Valid(s)
    ensures r.status == Forbidden <==> !HasRole(caller, Employer)
    ensures r.Success? <==> HasRole(caller, Employer) && ProfileOf(s, user).Some?
    ensures HasRole(caller, Employer) && ProfileOf(s, user).None? ==> r == Failure(NotFound, "Candidate not found")
    ensures r.Success? ==>
      && r.status == Ok
      && user in s.users
      && r.data.id == ProfileOf(s, user).value && r.data.userId == user
      && r.data == ViewOf(r.data.id, s.profiles[r.data.id], s.users[user])
  {
    if !HasRole(caller, Employer) then Failure(Forbidden, "Only employers can view candidate profiles")
    else match ProfileOf(s, user)
      case None => Failure(NotFound, "Candidate not found")
      case Some(p) =>
        assert ProfileOwner(s.profiles[p]) in s.users;
        Success(Ok, ViewOf(p, s.profiles[p], s.users[user]))
  }

  /** Every candidate the browse endpoint lists opens by its owner's id, and
      shows that very profile. */
  lemma ListedCandidateOpens(caller: Option<Caller>, q: CandidateQuery, s: Store, p: Id)
    requires Valid(s)
    requires GetAllCandidates(caller, q, s).Success? && p in GetAllCandidates(caller, q, s).data
    ensures var r := GetCandidateById(caller, s.profiles[p].userId, s);
      r.Success? && r.data.id == p
  {
    var user := s.profiles[p].userId;
    assert ProfileOf(s, user).Some?;
  }

  /** The single view does not depend on the phone number or the resume link:
      two stores that differ only there show the same thing. */
  lemma CandidateHidesContact(caller: Option<Caller>, user: Id, s: Store, id: Id,
                              phone: Option<string>, resumeUrl: Option<string>)
    requires Valid(s) && id in s.profiles
    ensures var t := s.(profiles := s.profiles[id := s.profiles[id].(phone := phone, resumeUrl := resumeUrl)]);
      Valid(t) && GetCandidateById(caller, user, t) == GetCandidateById(caller, user, s)
  {
    var t := s.(profiles := s.profiles[id := s.profiles[id].(phone := phone, resumeUrl := resumeUrl)]);
    ContactOnlyValid(s, id, phone, resumeUrl);
    SameOwnersSameProfile(s.profiles, t.profiles, user);
    match ProfileOf(s, user)
    case None =>
    case Some(p) =>
      assert ViewOf(p, t.profiles[p], t.users[user]) == ViewOf(p, s.profiles[p], s.users[user]);
  }

  /** Two profile tables with the same ids and the same owners find the same
      profile for a user. */
  lemma SameOwnersSameProfile(m: map<Id, Profile>, m': map<Id, Profile>, user: Id)
    requires UniqueBy(m, ProfileOwner) && UniqueBy(m', ProfileOwner)
    requires m.Keys == m'.Keys && forall q :: q in m ==> m'[q].userId == m[q].userId
    ensures forall s: Store, t: Store :: s.profiles == m && t.profiles == m' ==> ProfileOf(t, user) == ProfileOf(s, user)
  {
  }

  lemma ContactOnlyValid(s: Store, id: Id, phone: Option<string>, resumeUrl: Option<string>)
    requires Valid(s) && id in s.profiles
    ensures Valid(s.(profiles := s.profiles[id := s.profiles[id].(phone := phone, resumeUrl := resumeUrl)]))
  {
    var p := s.profiles[id].(phone := phone, resumeUrl := resumeUrl);
    FreshAfter(s, s.(profiles := s.profiles[id := p]));
    UniqueReplace(s.profiles, ProfileOwner, id, p);
    RefsAdd(s.profiles, ProfileOwner, s.users, id, p);
  }
}
