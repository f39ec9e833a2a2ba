/** The company endpoints: an employer reads, creates and updates their own
    company. */
module Companies {

  import opened Wrappers
  import opened Schema
  import opened Api

  /** The body of a create request. */
  datatype CompanyInput = CompanyInput(
    name: Option<string>,
    description: Option<string>,
    industry: Option<string>,
    companySize: Option<string>,
    website: Option<string>,
    logoUrl: Option<string>,
    location: Option<string>)

  /** The company carries the name and exactly the optional fields the
      create body sent. */
  predicate FromInput(c: Company, b: CompanyInput)
  {
    && Some(c.name) == b.name
    && c.description == b.description && c.industry == b.industry
    && c.companySize == b.companySize && c.website == b.website
    && c.logoUrl == b.logoUrl && c.location == b.location
  }

  /** `GET /api/company`: the caller's own company.  The route admits only
      employers; the controller itself checks no role. */
  function GetCompany(caller: Option<Caller>, s: Store): (r: Reply<Company>)
    requires Valid(s)
    ensures r.status == Unauthorized <==> caller.None?
    ensures r.Success? <==> caller.Some? && CompanyOf(s, caller.value.id).Some?
    ensures r.Failure? ==> r.status in {Unauthorized, NotFound}
    ensures r.Success? ==> r.status == Ok && r.data in s.companies.Values && r.data.userId == caller.value.id
  {
    if caller.None? then Failure(Unauthorized, "Not authenticated")
    else match CompanyOf(s, caller.value.id)
      case None => Failure(NotFound, "Company not found")
      case Some(c) => Success(Ok, s.companies[c])
  }

  /** `POST /api/company`: only employers may create a company. */
  function CreateCompany(caller: Option<Caller>, b: CompanyInput, s: Store): (r: Step<Id>)
    requires Valid(s)
    ensures Valid(r.store)
    ensures r.reply.status == Forbidden <==> !HasRole(caller, Employer)
    ensures r.reply.Failure? ==> r.store == s
    ensures r.reply.Success? <==>
      HasRole(caller, Employer) && CompanyOf(s, caller.value.id).None? && Given(b.name) && caller.value.id in s.users
    ensures r.reply.Success? ==> CompanyAdded(s, r.store, r.reply, caller.value.id, b)
  {
    if !HasRole(caller, Employer) then Step(Failure(Forbidden, "Only employers can create companies"), s)
    else Create(caller.value.id, b, s)
  }

  /** The checks and the insert for an employer.  The duplicate check comes
      before the name check, and a caller whose user row is gone makes the
      insert fail its foreign key. */
  function Create(user: Id, b: CompanyInput, s: Store): (r: Step<Id>)
    requires Valid(s)
    ensures Valid(r.store)
    ensures r.reply.Failure? ==> r.store == s && r.reply.status != Forbidden
    ensures CompanyOf(s, user).Some? ==> r.reply == Failure(BadRequest, "Company already exists")
    ensures CompanyOf(s, user).None? && !Given(b.name) ==> r.reply == Failure(BadRequest, "Company name is required")
    ensures r.reply.Success? <==> CompanyOf(s, user).None? && Given(b.name) && user in s.users
    ensures r.reply.Success? ==> CompanyAdded(s, r.store, r.reply, user, b)
  {
    if CompanyOf(s, user).Some? then Step(Failure(BadRequest, "Company already exists"), s)
    else if !Given(b.name) then Step(Failure(BadRequest, "Company name is required"), s)
    else Found(user, b, s)
  }

  /** `t` is `s` with one new company, owned by `user` and built from `b`,
      under the id the reply carries. */
  predicate CompanyAdded(s: Store, t: Store, reply: Reply<Id>, user: Id, b: CompanyInput)
  {
    && reply.Success? && reply.status == Created
    && reply.data !in s.companies && reply.data in t.companies
    && t.companies == s.companies[reply.data := t.companies[reply.data]]
    && t.companies[reply.data].userId == user
    && FromInput(t.companies[reply.data], b)
    && t.(companies := s.companies, nextId := s.nextId) == s
  }

  /** The insert, once the checks have passed. */
  function Found(user: Id, b: CompanyInput, s: Store): (r: Step<Id>)
    requires Valid(s) && Given(b.name) && CompanyOf(s, user).None?
    ensures Valid(r.store)
    ensures r.reply.Failure? ==> r.store == s && r.reply == Failure(ServerError, InternalError)
    ensures r.reply.Success? <==> user in s.users
    ensures r.reply.Success? ==> CompanyAdded(s, r.store, r.reply, user, b)
  {
    var c := Company(user, b.name.value, b.description, b.industry, b.companySize,
                     b.website, b.logoUrl, b.location);
    match InsertCompany(s, c)
    case None => Step(Failure(ServerError, InternalError), s)
    case Some(t) => Step(Success(Created, s.nextId), t)
  }

  /** A company just created is what the owner reads back, and a second
      create is refused as a duplicate, whatever its body. */
  lemma CreatedCompanyReadBack(caller: Option<Caller>, b: CompanyInput, b': CompanyInput, s: Store)
    requires Valid(s)
    requires CreateCompany(caller, b, s).reply.Success?
    ensures var r := CreateCompany(caller, b, s);
      && GetCompany(caller, r.store) == Success(Ok, r.store.companies[r.reply.data])
      && CreateCompany(caller, b', r.store) == Step(Failure(BadRequest, "Company already exists"), r.store)
  {
    var r := CreateCompany(caller, b, s);
    assert r.store.companies[r.reply.data].userId == caller.value.id;
    assert CompanyOf(r.store, caller.value.id) == Some(r.reply.data);
  }

  /** The body of an update: any column, plus `id` and `userId`, which the
      controller deletes before updating. */
  datatype CompanyPatch = CompanyPatch(
    id: Option<Id>,
    userId: Option<Id>,
    name: Option<string>,
    description: Option<string>,
    industry: Option<string>,
    companySize: Option<string>,
    website: Option<string>,
    logoUrl: Option<string>,
    location: Option<string>)

  /** `update companies set ...body`: every field the body carries overrides
      its column; `id` and `userId` are dropped first. */
  function PatchCompany(c: Company, u: CompanyPatch): (r: Company)
    ensures r.userId == c.userId
    ensures u.name.Some? ==> r.name == u.name.value
    ensures u.name.None? ==> r.name == c.name
    ensures u.description.Some? ==> r.description == u.description
    ensures u.description.None? ==> r.description == c.description
    ensures u.industry.Some? ==> r.industry == u.industry
    ensures u.industry.None? ==> r.industry == c.industry
    ensures u.companySize.Some? ==> r.companySize == u.companySize
    ensures u.companySize.None? ==> r.companySize == c.companySize
    ensures u.website.Some? ==> r.website == u.website
    ensures u.website.None? ==> r.website == c.website
    ensures u.logoUrl.Some? ==> r.logoUrl == u.logoUrl
    ensures u.logoUrl.None? ==> r.logoUrl == c.logoUrl
    ensures u.location.Some? ==> r.location == u.location
    ensures u.location.None? ==> r.location == c.location
  {
    var v := u.(id := None, userId := None);
    Company(c.userId, v.name.GetOr(c.name), v.description.Or(c.description), v.industry.Or(c.industry),
            v.companySize.Or(c.companySize), v.website.Or(c.website), v.logoUrl.Or(c.logoUrl),
            v.location.Or(c.location))
  }

  /** The identity fields of a body have no effect. */
  lemma PatchCompanyIgnoresIdentity(c: Company, u: CompanyPatch, id: Id, user: Id)
    ensures PatchCompany(c, u.(id := Some(id), userId := Some(user))) == PatchCompany(c, u)
  {
  }

  /** Sending the same update twice is the same as sending it once. */
  lemma PatchCompanyIdempotent(c: Company, u: CompanyPatch)
    ensures PatchCompany(PatchCompany(c, u), u) == PatchCompany(c, u)
  {
  }

  lemma ReplaceCompanyValid(s: Store, id: Id, c: Company)
    requires Valid(s) && id in s.companies && c.userId == s.companies[id].userId
    ensures Valid(s.(companies := s.companies[id := c]))
  {
    FreshAfter(s, s.(companies := s.companies[id := c]));
    UniqueReplace(s.companies, CompanyOwner, id, c);
    RefsAdd(s.companies, CompanyOwner, s.users, id, c);
    RefsGrow(s.jobs, JobCompany, s.companies, id, c);
  }

  /** `PUT /api/company`: updates the caller's company, and reports 404 when
      the update touched no row. */
  function UpdateCompany(caller: Option<Caller>, u: CompanyPatch, s: Store): (r: Step<Company>)
    requires Valid(s)
    ensures Valid(r.store)
    ensures r.reply.status == Forbidden <==> !HasRole(caller, Employer)
    ensures r.reply.status == NotFound <==> HasRole(caller, Employer) && CompanyOf(s, caller.value.id).None?
    ensures r.reply.Failure? ==> r.store == s
    ensures r.reply.Success? ==>
      && r.reply.status == Ok
      && var c := CompanyOf(s, caller.value.id).value;
      && r.reply.data == PatchCompany(s.companies[c], u)
      && r.store == s.(companies := s.companies[c := r.reply.data])
  {
    if !HasRole(caller, Employer) then Step(Failure(Forbidden, "Only employers can update companies"), s)
    else match CompanyOf(s, caller.value.id)
      case None => Step(Failure(NotFound, "Company not found"), s)
      case Some(c) =>
        var d := PatchCompany(s.companies[c], u);
        ReplaceCompanyValid(s, c, d);
        Step(Success(Ok, d), s.(companies := s.companies[c := d]))
  }

  /** An update touches only the caller's own company: every other company is
      as before, every company keeps its owner, and the owner reads back the
      updated row. */
  lemma UpdateCompanyOnlyOwn(caller: Option<Caller>, u: CompanyPatch, s: Store)
    requires Valid(s)
    requires UpdateCompany(caller, u, s).reply.Success?
    ensures var t := UpdateCompany(caller, u, s).store;
      && t.companies.Keys == s.companies.Keys
      && (forall c :: c in s.companies && s.companies[c].userId != caller.value.id ==> t.companies[c] == s.companies[c])
      && (forall c :: c in t.companies ==> t.companies[c].userId == s.companies[c].userId)
      && GetCompany(caller, t) == Success(Ok, UpdateCompany(caller, u, s).reply.data)
  {
    var r := UpdateCompany(caller, u, s);
    var c := CompanyOf(s, caller.value.id).value;
    assert r.store.companies[c].userId == caller.value.id;
    assert CompanyOf(r.store, caller.value.id) == Some(c);
  }
}
