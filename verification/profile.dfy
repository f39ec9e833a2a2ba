/** The profile endpoints: a job seeker reads, creates and updates their own
    profile; anyone reads the public part of a profile by user id. */
module Profiles {

  import opened Wrappers
  import opened Schema
  import opened Api

  /** The body of a create request. */
  datatype ProfileInput = ProfileInput(
    headline: Option<string>,
    bio: Option<string>,
    skills: Option<seq<string>>,
    experience: Option<string>,
    education: Option<string>,
    location: Option<string>,
    phone: Option<string>,
    resumeUrl: Option<string>)

  /** The profile carries exactly the fields the create body sent. */
  predicate FromInput(p: Profile, b: ProfileInput)
  {
    && p.headline == b.headline && p.bio == b.bio && p.skills == b.skills
    && p.experience == b.experience && p.education == b.education
    && p.location == b.location && p.phone == b.phone && p.resumeUrl == b.resumeUrl
  }

  /** `GET /api/profile`: the caller's own profile.  The route admits only
      job seekers; the controller itself checks no role. */
  function GetProfile(caller: Option<Caller>, s: Store): (r: Reply<Profile>)
    requires Valid(s)
    ensures r.status == Unauthorized <==> caller.None?
    ensures r.Success? <==> caller.Some? && ProfileOf(s, caller.value.id).Some?
    ensures r.Failure? ==> r.status in {Unauthorized, NotFound}
    ensures r.Success? ==> r.status == Ok && r.data in s.profiles.Values && r.data.userId == caller.value.id
  {
    if caller.None? then Failure(Unauthorized, "Not authenticated")
    else match ProfileOf(s, caller.value.id)
      case None => Failure(NotFound, "Profile not found")
      case Some(p) => Success(Ok, s.profiles[p])
  }

  /** `POST /api/profile`.  A caller whose user row is gone makes the insert
      fail its foreign key. */
  function CreateProfile(caller: Option<Caller>, b: ProfileInput, s: Store): (r: Step<Id>)
    requires Valid(s)
    ensures Valid(r.store)
    ensures r.reply.status == Forbidden <==> !HasRole(caller, JobSeeker)
    ensures r.reply.Failure? ==> r.store == s
    ensures HasRole(caller, JobSeeker) && ProfileOf(s, caller.value.id).Some? ==>
      r.reply == Failure(BadRequest, "Profile already exists")
    ensures r.reply.Success? <==>
      HasRole(caller, JobSeeker) && ProfileOf(s, caller.value.id).None? && caller.value.id in s.users
    ensures r.reply.Success? ==>
      && r.reply.status == Created
      && r.reply.data !in s.profiles && r.reply.data in r.store.profiles
      && r.store.profiles == s.profiles[r.reply.data := r.store.profiles[r.reply.data]]
      && r.store.profiles[r.reply.data].userId == caller.value.id
      && FromInput(r.store.profiles[r.reply.data], b)
      && r.store.(profiles := s.profiles, nextId := s.nextId) == s
  {
    if !HasRole(caller, JobSeeker) then Step(Failure(Forbidden, "Only job seekers can create profiles"), s)
    else if ProfileOf(s, caller.value.id).Some? then Step(Failure(BadRequest, "Profile already exists"), s)
    else
      var p := Profile(caller.value.id, b.headline, b.bio, b.skills, b.experience, b.education,
                       b.location, b.phone, b.resumeUrl);
      match InsertProfile(s, p)
      case None => Step(Failure(ServerError, InternalError), s)
      case Some(t) => Step(Success(Created, s.nextId), t)
  }

  /** A profile just created is what the owner reads back. */
  lemma CreatedProfileReadBack(caller: Option<Caller>, b: ProfileInput, s: Store)
    requires Valid(s)
    requires CreateProfile(caller, b, s).reply.Success?
    ensures var r := CreateProfile(caller, b, s);
      GetProfile(caller, r.store) == Success(Ok, r.store.profiles[r.reply.data])
  {
    var r := CreateProfile(caller, b, s);
    assert r.store.profiles[r.reply.data].userId == caller.value.id;
  }

  /** The body of an update: any column, plus `id` and `userId`, which the
      controller deletes before updating. */
  datatype ProfilePatch = ProfilePatch(
    id: Option<Id>,
    userId: Option<Id>,
    headline: Option<string>,
    bio: Option<string>,
    skills: Option<seq<string>>,
    experience: Option<string>,
    education: Option<string>,
    location: Option<string>,
    phone: Option<string>,
    resumeUrl: Option<string>)

  /** `update profiles set ...body`: every field the body carries overrides
      its column; `id` and `userId` are dropped first. */
  function PatchProfile(p: Profile, u: ProfilePatch): (r: Profile)
    ensures r.userId == p.userId
    ensures u.headline.Some? ==> r.headline == u.headline
    ensures u.headline.None? ==> r.headline == p.headline
    ensures u.bio.Some? ==> r.bio == u.bio
    ensures u.bio.None? ==> r.bio == p.bio
    ensures u.skills.Some? ==> r.skills == u.skills
    ensures u.skills.None? ==> r.skills == p.skills
    ensures u.experience.Some? ==> r.experience == u.experience
    ensures u.experience.None? ==> r.experience == p.experience
    ensures u.education.Some? ==> r.education == u.education
    ensures u.education.None? ==> r.education == p.education
    ensures u.location.Some? ==> r.location == u.location
    ensures u.location.None? ==> r.location == p.location
    ensures u.phone.Some? ==> r.phone == u.phone
    ensures u.phone.None? ==> r.phone == p.phone
    ensures u.resumeUrl.Some? ==> r.resumeUrl == u.resumeUrl
    ensures u.resumeUrl.None? ==> r.resumeUrl == p.resumeUrl
  {
    var v := u.(id := None, userId := None);
    Profile(p.userId, v.headline.Or(p.headline), v.bio.Or(p.bio), v.skills.Or(p.skills),
            v.experience.Or(p.experience), v.education.Or(p.education), v.location.Or(p.location),
            v.phone.Or(p.phone), v.resumeUrl.Or(p.resumeUrl))
  }

  /** The identity fields of a body have no effect. */
  lemma PatchProfileIgnoresIdentity(p: Profile, u: ProfilePatch, id: Id, user: Id)
    ensures PatchProfile(p, u.(id := Some(id), userId := Some(user))) == PatchProfile(p, u)
  {
  }

  /** Sending the same update twice is the same as sending it once. */
  lemma PatchProfileIdempotent(p: Profile, u: ProfilePatch)
    ensures PatchProfile(PatchProfile(p, u), u) == PatchProfile(p, u)
  {
  }

  lemma ReplaceProfileValid(s: Store, id: Id, p: Profile)
    requires Valid(s) && id in s.profiles && p.userId == s.profiles[id].userId
    ensures Valid(s.(profiles := s.profiles[id := p]))
  {
    FreshAfter(s, s.(profiles := s.profiles[id := p]));
    UniqueReplace(s.profiles, ProfileOwner, id, p);
    RefsAdd(s.profiles, ProfileOwner, s.users, id, p);
  }

  /** `PUT /api/profile`: updates the caller's profile, and reports 404 when
      the update touched no row. */
  function UpdateProfile(caller: Option<Caller>, u: ProfilePatch, s: Store): (r: Step<Profile>)
    requires Valid(s)
    ensures Valid(r.store)
    ensures r.reply.status == Forbidden <==> !HasRole(caller, JobSeeker)
    ensures r.reply.status == NotFound <==> HasRole(caller, JobSeeker) && ProfileOf(s, caller.value.id).None?
    ensures r.reply.Failure? ==> r.store == s
    ensures r.reply.Success? ==>
      && r.reply.status == Ok
      && var p := ProfileOf(s, caller.value.id).value;
      && r.reply.data == PatchProfile(s.profiles[p], u)
      && r.store == s.(profiles := s.profiles[p := r.reply.data])
  {
    if !HasRole(caller, JobSeeker) then Step(Failure(Forbidden, "Only job seekers can update profiles"), s)
    else match ProfileOf(s, caller.value.id)
      case None => Step(Failure(NotFound, "Profile not found"), s)
      case Some(p) =>
        var q := PatchProfile(s.profiles[p], u);
        ReplaceProfileValid(s, p, q);
        Step(Success(Ok, q), s.(profiles := s.profiles[p := q]))
  }

  /** An update touches only the caller's own profile: every other profile is
      as before, and the updated one still belongs to the caller. */
  lemma UpdateProfileOnlyOwn(caller: Option<Caller>, u: ProfilePatch, s: Store)
    requires Valid(s)
    requires UpdateProfile(caller, u, s).reply.Success?
    ensures var t := UpdateProfile(caller, u, s).store;
      && t.profiles.Keys == s.profiles.Keys
      && (forall p :: p in s.profiles && s.profiles[p].userId != caller.value.id ==> t.profiles[p] == s.profiles[p])
      && (forall p :: p in t.profiles ==> t.profiles[p].userId == s.profiles[p].userId)
      && GetProfile(caller, t) == Success(Ok, UpdateProfile(caller, u, s).reply.data)
  {
    var r := UpdateProfile(caller, u, s);
    var p := ProfileOf(s, caller.value.id).value;
    assert r.store.profiles[p].userId == caller.value.id;
    assert ProfileOf(r.store, caller.value.id) == Some(p);
  }

  /** What `GET /api/profile/:id` shows: no phone, no resume link, and the
      owner's name from the join with users. */
  datatype PublicProfile = PublicProfile(
    id: Id,
    headline: Option<string>,
    bio: Option<string>,
    skills: Option<seq<string>>,
    experience: Option<string>,
    education: Option<string>,
    location: Option<string>,
    name: string)

  /** The public view of profile `id`: every column but the owner, the phone
      and the resume link, and the owner's name. */
  function PublicView(id: Id, p: Profile, u: User): (r: PublicProfile)
    ensures r.id == id && r.name == u.name
    ensures r.headline == p.headline && r.bio == p.bio && r.skills == p.skills
    ensures r.experience == p.experience && r.education == p.education && r.location == p.location
  {
    PublicProfile(id, p.headline, p.bio, p.skills, p.experience, p.education, p.location, u.name)
  }

  /** `GET /api/profile/:id`, looked up by the owner's user id.  The route
      requires a signed-in caller, but the controller itself looks at no
      caller and no role. */
  function GetPublicProfile(user: Id, s: Store): (r: Reply<PublicProfile>)
    requires Valid(s)
    ensures r.Success? <==> ProfileOf(s, user).Some?
    ensures r.Failure? ==> r == Failure(NotFound, "Profile not found")
    ensures r.Success? ==>
      && r.status == Ok && user in s.users
      && var p := ProfileOf(s, user).value;
      && r.data == PublicView(p, s.profiles[p], s.users[user])
  {
    match ProfileOf(s, user)
    case None => Failure(NotFound, "Profile not found")
    case Some(p) =>
      assert ProfileOwner(s.profiles[p]) in s.users;
      Success(Ok, PublicView(p, s.profiles[p], s.users[user]))
  }

  /** The public view does not depend on the phone number or the resume
      link: two stores that differ only there show the same thing. */
  lemma PublicProfileHidesContact(user: Id, s: Store, id: Id, phone: Option<string>, resumeUrl: Option<string>)
    requires Valid(s) && id in s.profiles
    ensures var t := s.(profiles := s.profiles[id := s.profiles[id].(phone := phone, resumeUrl := resumeUrl)]);
      Valid(t) && GetPublicProfile(user, t) == GetPublicProfile(user, s)
  {
    var t := s.(profiles := s.profiles[id := s.profiles[id].(phone := phone, resumeUrl := resumeUrl)]);
    ReplaceProfileValid(s, id, s.profiles[id].(phone := phone, resumeUrl := resumeUrl));
    assert forall q :: q in t.profiles ==> t.profiles[q].userId == s.profiles[q].userId;
    assert ProfileOf(t, user) == ProfileOf(s, user);
  }
}
