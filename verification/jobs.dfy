/** The job endpoints: the public listing with its filters, a single job,
    and an employer's create, update, delete and "my jobs". */
module Jobs {

  import opened Wrappers
  import opened Text
  import opened Schema
  import opened Api

  // The public listing.

  /** The query string of the listing.  The salary bounds are the numbers the
      query strings parse to, absent when the string is absent or empty. */
  datatype JobQuery = JobQuery(
    search: Option<string>,
    location: Option<string>,
    employmentType: Option<string>,
    experienceLevel: Option<string>,
    isRemote: Option<string>,
    salaryMin: Option<int>,
    salaryMax: Option<int>)

  const NoFilters: JobQuery := JobQuery(None, None, None, None, None, None, None)

  /** One condition of the listing's `where` clause. */
  datatype Condition =
    | StatusIs(status: string)
    | SearchAny(needle: string)
    | LocationLike(needle: string)
    | EmploymentTypeIs(employmentType: string)
    | ExperienceLevelIs(experienceLevel: string)
    | RemoteOnly
    | SalaryAtLeast(bound: int)
    | SalaryAtMost(bound: int)

  /** Does a row of `jobs inner join companies` satisfy the condition?  A NULL
      column satisfies neither `ilike`, `=` nor a comparison. */
  predicate Holds(c: Condition, j: Job, co: Company)
  {
    match c
    case StatusIs(v) => j.status == v
    case SearchAny(n) => ILikeContains(j.title, n) || ILikeContains(j.description, n) || ILikeContains(co.name, n)
    case LocationLike(n) => ILikeColumn(j.location, n)
    case EmploymentTypeIs(v) => j.employmentType == Some(v)
    case ExperienceLevelIs(v) => j.experienceLevel == Some(v)
    case RemoteOnly => j.isRemote
    case SalaryAtLeast(n) => j.salaryMin.Some? && j.salaryMin.value >= n
    case SalaryAtMost(n) => j.salaryMax.Some? && j.salaryMax.value <= n
  }

  /** `and(...conditions)`. */
  predicate AllHold(cs: seq<Condition>, j: Job, co: Company)
  {
    forall i :: 0 <= i < |cs| ==> Holds(cs[i], j, co)
  }

  function When(guard: bool, c: Condition): seq<Condition>
  {
    if guard then [c] else []
  }

  /** The condition list the controller builds: the status condition, then
      one condition per supplied filter, in the source's order. */
  function Conditions(q: JobQuery): (r: seq<Condition>)
    ensures 1 <= |r| <= 8 && r[0] == StatusIs("active")
  {
    HeadConditions(q) + TailConditions(q)
  }

  /** Which jobs the listing promises, filter by filter: only active jobs;
      every supplied filter must hold and an absent one imposes nothing;
      search looks at the title, the description and the company's name;
      remoteness is filtered only for the exact text "true". */
  predicate Listed(q: JobQuery, j: Job, co: Company)
  {
    ListedHead(q, j, co) && ListedTail(q, j)
  }

  lemma AllHoldAppend(a: seq<Condition>, b: seq<Condition>, j: Job, co: Company)
    ensures AllHold(a + b, j, co) <==> AllHold(a, j, co) && AllHold(b, j, co)
  {
    if AllHold(a, j, co) && AllHold(b, j, co) {
      forall i | 0 <= i < |a + b|
        ensures Holds((a + b)[i], j, co)
      {
        if i >= |a| {
          assert (a + b)[i] == b[i - |a|];
        }
      }
    }
    if AllHold(a + b, j, co) {
      forall i | 0 <= i < |a|
        ensures Holds(a[i], j, co)
      {
        assert (a + b)[i] == a[i];
      }
      forall i | 0 <= i < |b|
        ensures Holds(b[i], j, co)
      {
        assert (a + b)[|a| + i] == b[i];
      }
    }
  }

  lemma AllHoldWhen(g: bool, c: Condition, j: Job, co: Company)
    ensures AllHold(When(g, c), j, co) <==> (g ==> Holds(c, j, co))
  {
    if g {
      assert When(g, c)[0] == c;
    }
  }

  /** The first four conditions: status, search, location, employment type. */
  predicate ListedHead(q: JobQuery, j: Job, co: Company)
  {
    && j.status == "active"
    && (Given(q.search) ==>
          ILikeContains(j.title, q.search.value) || ILikeContains(j.description, q.search.value)
          || ILikeContains(co.name, q.search.value))
    && (Given(q.location) ==> ILikeColumn(j.location, q.location.value))
    && (Given(q.employmentType) ==> j.employmentType == q.employmentType)
  }

  /** The remaining conditions. */
  predicate ListedTail(q: JobQuery, j: Job)
  {
    && (Given(q.experienceLevel) ==> j.experienceLevel == q.experienceLevel)
    && (q.isRemote == Some("true") ==> j.isRemote)
    && (q.salaryMin.Some? ==> j.salaryMin.Some? && j.salaryMin.value >= q.salaryMin.value)
    && (q.salaryMax.Some? ==> j.salaryMax.Some? && j.salaryMax.value <= q.salaryMax.value)
  }

  function HeadConditions(q: JobQuery): seq<Condition>
  {
    [StatusIs("active")]
    + When(Given(q.search), SearchAny(q.search.GetOr("")))
    + When(Given(q.location), LocationLike(q.location.GetOr("")))
    + When(Given(q.employmentType), EmploymentTypeIs(q.employmentType.GetOr("")))
  }

  function TailConditions(q: JobQuery): seq<Condition>
  {
    When(Given(q.experienceLevel), ExperienceLevelIs(q.experienceLevel.GetOr("")))
    + When(q.isRemote == Some("true"), RemoteOnly)
    + When(q.salaryMin.Some?, SalaryAtLeast(q.salaryMin.GetOr(0)))
    + When(q.salaryMax.Some?, SalaryAtMost(q.salaryMax.GetOr(0)))
  }

  lemma HeadMeansListed(q: JobQuery, j: Job, co: Company)
    ensures AllHold(HeadConditions(q), j, co) <==> ListedHead(q, j, co)
  {
    var c0 := [StatusIs("active")];
    var c1 := When(Given(q.search), SearchAny(q.search.GetOr("")));
    var c2 := When(Given(q.location), LocationLike(q.location.GetOr("")));
    var c3 := When(Given(q.employmentType), EmploymentTypeIs(q.employmentType.GetOr("")));
    assert c0 == When(true, StatusIs("active"));
    AllHoldWhen(true, StatusIs("active"), j, co);
    AllHoldWhen(Given(q.search), SearchAny(q.search.GetOr("")), j, co);
    AllHoldWhen(Given(q.location), LocationLike(q.location.GetOr("")), j, co);
    AllHoldWhen(Given(q.employmentType), EmploymentTypeIs(q.employmentType.GetOr("")), j, co);
    AllHoldAppend(c0, c1, j, co);
    AllHoldAppend(c0 + c1, c2, j, co);
    AllHoldAppend(c0 + c1 + c2, c3, j, co);
  }

  lemma TailMeansListed(q: JobQuery, j: Job, co: Company)
    ensures AllHold(TailConditions(q), j, co) <==> ListedTail(q, j)
  {
    var c4 := When(Given(q.experienceLevel), ExperienceLevelIs(q.experienceLevel.GetOr("")));
    var c5 := When(q.isRemote == Some("true"), RemoteOnly);
    var c6 := When(q.salaryMin.Some?, SalaryAtLeast(q.salaryMin.GetOr(0)));
    var c7 := When(q.salaryMax.Some?, SalaryAtMost(q.salaryMax.GetOr(0)));
    AllHoldWhen(Given(q.experienceLevel), ExperienceLevelIs(q.experienceLevel.GetOr("")), j, co);
    AllHoldWhen(q.isRemote == Some("true"), RemoteOnly, j, co);
    AllHoldWhen(q.salaryMin.Some?, SalaryAtLeast(q.salaryMin.GetOr(0)), j, co);
    AllHoldWhen(q.salaryMax.Some?, SalaryAtMost(q.salaryMax.GetOr(0)), j, co);
    AllHoldAppend(c4, c5, j, co);
    AllHoldAppend(c4 + c5, c6, j, co);
    AllHoldAppend(c4 + c5 + c6, c7, j, co);
  }

  /** The condition list means exactly `Listed`. */
  lemma ConditionsMeanListed(q: JobQuery, j: Job, co: Company)
    ensures AllHold(Conditions(q), j, co) <==> Listed(q, j, co)
  {
    HeadMeansListed(q, j, co);
    TailMeansListed(q, j, co);
    AllHoldAppend(HeadConditions(q), TailConditions(q), j, co);
  }

  /** `GET /api/jobs`: the ids of the jobs whose joined row satisfies the
      condition list.  The listing is a set; the query has no `order by`. */
  function GetAllJobs(q: JobQuery, s: Store): (r: Reply<set<Id>>)
    requires Valid(s)
    ensures r.Success? && r.status == Ok
    ensures forall j :: j in r.data <==> j in s.jobs && Listed(q, s.jobs[j], s.companies[s.jobs[j].companyId])
  {
    var rows := set j | j in s.jobs && s.jobs[j].companyId in s.companies
                        && AllHold(Conditions(q), s.jobs[j], s.companies[s.jobs[j].companyId]);
    ListingMeansListed(q, s);
    Success(Ok, rows)
  }

  lemma ListingMeansListed(q: JobQuery, s: Store)
    requires RefsTo(s.jobs, JobCompany, s.companies)
    ensures forall j :: j in s.jobs ==>
      s.jobs[j].companyId in s.companies
      && (AllHold(Conditions(q), s.jobs[j], s.companies[s.jobs[j].companyId])
          <==> Listed(q, s.jobs[j], s.companies[s.jobs[j].companyId]))
  {
    forall j | j in s.jobs
      ensures s.jobs[j].companyId in s.companies
      ensures AllHold(Conditions(q), s.jobs[j], s.companies[s.jobs[j].companyId])
          <==> Listed(q, s.jobs[j], s.companies[s.jobs[j].companyId])
    {
      assert JobCompany(s.jobs[j]) in s.companies;
      ConditionsMeanListed(q, s.jobs[j], s.companies[s.jobs[j].companyId]);
    }
  }

  /** With no filter the listing is every active job: the inner join with
      companies drops nothing. */
  lemma NoFiltersListsActive(s: Store)
    requires Valid(s)
    ensures forall j :: j in GetAllJobs(NoFilters, s).data <==> j in s.jobs && s.jobs[j].status == "active"
  {
  }

  /** Any `isRemote` text other than "true" ("false", "1", "yes") lists the
      same jobs as no `isRemote` at all. */
  lemma RemoteFilterOnlyForTrue(q: JobQuery, s: Store)
    requires Valid(s) && q.isRemote != Some("true")
    ensures GetAllJobs(q, s).data == GetAllJobs(q.(isRemote := None), s).data
  {
    var a := GetAllJobs(q, s).data;
    var b := GetAllJobs(q.(isRemote := None), s).data;
    assert forall j :: j in a <==> j in b;
  }

  /** Adding a filter never lists more jobs. */
  lemma MoreFiltersListFewer(q: JobQuery, s: Store, location: string)
    requires Valid(s) && q.location.None?
    ensures GetAllJobs(q.(location := Some(location)), s).data <= GetAllJobs(q, s).data
  {
  }

  // A single job.

  /** The company columns a job's page shows: not the owner, the industry
      or the size. */
  datatype CompanyCard = CompanyCard(
    id: Id,
    name: string,
    description: Option<string>,
    logoUrl: Option<string>,
    location: Option<string>,
    website: Option<string>)

  /** What `GET /api/jobs/:id` shows: every job column but the company id,
      and the company's card. */
  datatype JobDetail = JobDetail(
    id: Id,
    title: string,
    description: string,
    requirements: Option<string>,
    responsibilities: Option<string>,
    salaryMin: Option<int>,
    salaryMax: Option<int>,
    salaryCurrency: string,
    location: Option<string>,
    employmentType: Option<string>,
    experienceLevel: Option<string>,
    isRemote: bool,
    status: string,
    company: CompanyCard)

  function CardOf(id: Id, c: Company): (r: CompanyCard)
    ensures r.id == id && r.name == c.name && r.description == c.description
    ensures r.logoUrl == c.logoUrl && r.location == c.location && r.website == c.website
  {
    CompanyCard(id, c.name, c.description, c.logoUrl, c.location, c.website)
  }

  function DetailOf(id: Id, j: Job, card: CompanyCard): (r: JobDetail)
    ensures r.id == id && r.title == j.title && r.description == j.description
    ensures r.requirements == j.requirements && r.responsibilities == j.responsibilities
    ensures r.salaryMin == j.salaryMin && r.salaryMax == j.salaryMax && r.salaryCurrency == j.salaryCurrency
    ensures r.location == j.location && r.employmentType == j.employmentType
    ensures r.experienceLevel == j.experienceLevel && r.isRemote == j.isRemote && r.status == j.status
    ensures r.company == card
  {
    JobDetail(id, j.title, j.description, j.requirements, j.responsibilities, j.salaryMin, j.salaryMax,
              j.salaryCurrency, j.location, j.employmentType, j.experienceLevel, j.isRemote, j.status, card)
  }

  /** `GET /api/jobs/:id`: the job joined with its company, whatever its
      status. */
  function GetJobById(id: Id, s: Store): (r: Reply<JobDetail>)
    requires Valid(s)
    ensures r.Success? <==> id in s.jobs
    ensures r.Success? ==>
      && r.status == Ok && s.jobs[id].companyId in s.companies
      && r.data == DetailOf(id, s.jobs[id], CardOf(s.jobs[id].companyId, s.companies[s.jobs[id].companyId]))
    ensures r.Failure? ==> r == Failure(NotFound, "Job not found")
  {
    if id in s.jobs && s.jobs[id].companyId in s.companies then
      Success(Ok, DetailOf(id, s.jobs[id], CardOf(s.jobs[id].companyId, s.companies[s.jobs[id].companyId])))
    else
      Failure(NotFound, "Job not found")
  }

  // An employer's jobs.

  /** The body of a create request. */
  datatype JobInput = JobInput(
    title: Option<string>,
    description: Option<string>,
    requirements: Option<string>,
    responsibilities: Option<string>,
    salaryMin: Option<int>,
    salaryMax: Option<int>,
    salaryCurrency: Option<string>,
    location: Option<string>,
    employmentType: Option<string>,
    experienceLevel: Option<string>,
    isRemote: Option<bool>)

  /** The job carries exactly the fields the create body sent: an absent
      currency takes the column default "USD", and the job is remote only
      when the body says `isRemote: true`. */
  predicate FromInput(j: Job, b: JobInput)
  {
    && Some(j.title) == b.title && Some(j.description) == b.description
    && j.requirements == b.requirements && j.responsibilities == b.responsibilities
    && j.salaryMin == b.salaryMin && j.salaryMax == b.salaryMax
    && (b.salaryCurrency.Some? ==> j.salaryCurrency == b.salaryCurrency.value)
    && (b.salaryCurrency.None? ==> j.salaryCurrency == "USD")
    && j.location == b.location && j.employmentType == b.employmentType
    && j.experienceLevel == b.experienceLevel
    && (j.isRemote <==> b.isRemote == Some(true))
  }

  /** The row a create inserts: an absent currency takes the column default,
      `isRemote || false`, and the status is always "active". */
  function NewJob(company: Id, b: JobInput): (j: Job)
    requires Given(b.title) && Given(b.description)
    ensures j.companyId == company && j.status == "active"
    ensures FromInput(j, b)
  {
    Job(company, b.title.value, b.description.value, b.requirements, b.responsibilities,
        b.salaryMin, b.salaryMax, b.salaryCurrency.GetOr(DefaultCurrency), b.location,
        b.employmentType, b.experienceLevel, b.isRemote.GetOr(false), "active")
  }

  /** `POST /api/jobs`. */
  function CreateJob(caller: Option<Caller>, b: JobInput, s: Store): (r: Step<Id>)
    requires Valid(s)
    ensures Valid(r.store)
    ensures r.reply.status == Forbidden <==> !HasRole(caller, Employer)
    ensures r.reply.Success? <==>
      HasRole(caller, Employer) && CompanyOf(s, caller.value.id).Some? && Given(b.title) && Given(b.description)
    ensures !HasRole(caller, Employer) ==> r.reply == Failure(Forbidden, "Only employers can create jobs")
    ensures r.reply.Failure? ==> r.store == s && r.reply.status in {Forbidden, BadRequest}
    ensures r.reply.Success? ==> r.reply.status == Created
    ensures r.reply.Success? ==> JobAdded(s, r.store, r.reply.data, CompanyOf(s, caller.value.id).value, b)
  {
    if !HasRole(caller, Employer) then Step(Failure(Forbidden, "Only employers can create jobs"), s)
    else CreateForEmployer(caller.value.id, b, s)
  }

  /** The part of a create after the role check: the employer must have a
      company before the body is looked at. */
  function CreateForEmployer(user: Id, b: JobInput, s: Store): (r: Step<Id>)
    requires Valid(s)
    ensures Valid(r.store)
    ensures r.reply.Failure? ==> r.store == s && r.reply.status == BadRequest
    ensures CompanyOf(s, user).None? ==> r.reply == Failure(BadRequest, "Please create a company profile first")
    ensures r.reply.Success? <==> CompanyOf(s, user).Some? && Given(b.title) && Given(b.description)
    ensures r.reply.Success? ==> r.reply.status == Created && JobAdded(s, r.store, r.reply.data, CompanyOf(s, user).value, b)
  {
    match CompanyOf(s, user)
    case None => Step(Failure(BadRequest, "Please create a company profile first"), s)
    case Some(c) => CreateCompanyJob(c, b, s)
  }

  /** `t` is `s` with one new active job `id` of `company`, built from `b`,
      and nothing else changed. */
  predicate JobAdded(s: Store, t: Store, id: Id, company: Id, b: JobInput)
  {
    && id !in s.jobs && id in t.jobs
    && t.jobs == s.jobs[id := t.jobs[id]]
    && t.(jobs := s.jobs, nextId := s.nextId) == s
    && t.jobs[id].companyId == company
    && t.jobs[id].status == "active"
    && FromInput(t.jobs[id], b)
  }

  /** The part of a create after the company is known. */
  function CreateCompanyJob(company: Id, b: JobInput, s: Store): (r: Step<Id>)
    requires Valid(s) && company in s.companies
    ensures Valid(r.store)
    ensures r.reply.Success? <==> Given(b.title) && Given(b.description)
    ensures r.reply.Failure? ==> r.store == s && r.reply == Failure(BadRequest, "Title and description are required")
    ensures r.reply.Success? ==> r.reply.status == Created && JobAdded(s, r.store, r.reply.data, company, b)
  {
    if !Given(b.title) || !Given(b.description) then
      Step(Failure(BadRequest, "Title and description are required"), s)
    else
      Step(Success(Created, s.nextId), InsertJob(s, NewJob(company, b)).value)
  }

  /** The body of an update: any column, plus `id` and `companyId`, which the
      controller deletes before updating. */
  datatype JobPatch = JobPatch(
    id: Option<Id>,
    companyId: Option<Id>,
    title: Option<string>,
    description: Option<string>,
    requirements: Option<string>,
    responsibilities: Option<string>,
    salaryMin: Option<int>,
    salaryMax: Option<int>,
    salaryCurrency: Option<string>,
    location: Option<string>,
    employmentType: Option<string>,
    experienceLevel: Option<string>,
    isRemote: Option<bool>,
    status: Option<string>)

  const EmptyJobPatch: JobPatch := JobPatch(None, None, None, None, None, None, None, None, None, None, None, None, None, None)

  /** `update jobs set ...body`: every field the body carries overrides its
      column; `id` and `companyId` are dropped first. */
  function PatchJob(j: Job, p: JobPatch): (r: Job)
    ensures r.companyId == j.companyId
    ensures p.title.Some? ==> r.title == p.title.value
    ensures p.title.None? ==> r.title == j.title
    ensures p.status.Some? ==> r.status == p.status.value
    ensures p.status.None? ==> r.status == j.status
    ensures p.description.Some? ==> r.description == p.description.value
    ensures p.description.None? ==> r.description == j.description
    ensures p.salaryCurrency.Some? ==> r.salaryCurrency == p.salaryCurrency.value
    ensures p.salaryCurrency.None? ==> r.salaryCurrency == j.salaryCurrency
    ensures p.isRemote.Some? ==> r.isRemote == p.isRemote.value
    ensures p.isRemote.None? ==> r.isRemote == j.isRemote
    ensures p.requirements.Some? ==> r.requirements == p.requirements
    ensures p.requirements.None? ==> r.requirements == j.requirements
    ensures p.responsibilities.Some? ==> r.responsibilities == p.responsibilities
    ensures p.responsibilities.None? ==> r.responsibilities == j.responsibilities
    ensures p.salaryMin.Some? ==> r.salaryMin == p.salaryMin
    ensures p.salaryMin.None? ==> r.salaryMin == j.salaryMin
    ensures p.salaryMax.Some? ==> r.salaryMax == p.salaryMax
    ensures p.salaryMax.None? ==> r.salaryMax == j.salaryMax
    ensures p.location.Some? ==> r.location == p.location
    ensures p.location.None? ==> r.location == j.location
    ensures p.employmentType.Some? ==> r.employmentType == p.employmentType
    ensures p.employmentType.None? ==> r.employmentType == j.employmentType
    ensures p.experienceLevel.Some? ==> r.experienceLevel == p.experienceLevel
    ensures p.experienceLevel.None? ==> r.experienceLevel == j.experienceLevel
  {
    var q := p.(id := None, companyId := None);
    Job(j.companyId, q.title.GetOr(j.title), q.description.GetOr(j.description),
        q.requirements.Or(j.requirements), q.responsibilities.Or(j.responsibilities),
        q.salaryMin.Or(j.salaryMin), q.salaryMax.Or(j.salaryMax),
        q.salaryCurrency.GetOr(j.salaryCurrency), q.location.Or(j.location),
        q.employmentType.Or(j.employmentType), q.experienceLevel.Or(j.experienceLevel),
        q.isRemote.GetOr(j.isRemote), q.status.GetOr(j.status))
  }

  /** The identity fields of a body have no effect. */
  lemma PatchJobIgnoresIdentity(j: Job, p: JobPatch, id: Id, company: Id)
    ensures PatchJob(j, p.(id := Some(id), companyId := Some(company))) == PatchJob(j, p)
  {
  }

  lemma PatchJobEmpty(j: Job)
    ensures PatchJob(j, EmptyJobPatch) == j
  {
  }

  /** Sending the same update twice is the same as sending it once. */
  lemma PatchJobIdempotent(j: Job, p: JobPatch)
    ensures PatchJob(PatchJob(j, p), p) == PatchJob(j, p)
  {
  }

  /** The employer's company, and the job `id` is one of its jobs. */
  predicate OwnsJob(s: Store, caller: Option<Caller>, id: Id)
    requires Valid(s)
  {
    && HasRole(caller, Employer)
    && CompanyOf(s, caller.value.id).Some?
    && id in s.jobs
    && s.jobs[id].companyId == CompanyOf(s, caller.value.id).value
  }

  lemma ReplaceJobValid(s: Store, id: Id, j: Job)
    requires Valid(s) && id in s.jobs && j.companyId == s.jobs[id].companyId
    ensures Valid(s.(jobs := s.jobs[id := j]))
  {
    var t := s.(jobs := s.jobs[id := j]);
    assert t.jobs.Keys == s.jobs.Keys;
    assert FreshIds(t);
    assert SeekerRefs(t);
    assert ChatRefs(t);
  }

  /** `PUT /api/jobs/:id`. */
  function UpdateJob(caller: Option<Caller>, id: Id, p: JobPatch, s: Store): (r: Step<Job>)
    requires Valid(s)
    ensures Valid(r.store)
    ensures r.reply.status == Forbidden <==> !HasRole(caller, Employer)
    ensures HasRole(caller, Employer) && CompanyOf(s, caller.value.id).None? ==>
      r.reply == Failure(BadRequest, "Company profile not found")
    ensures r.reply.Success? <==> OwnsJob(s, caller, id)
    ensures r.reply.status == NotFound <==>
      HasRole(caller, Employer) && CompanyOf(s, caller.value.id).Some? && !OwnsJob(s, caller, id)
    ensures r.reply.Failure? ==> r.store == s
    ensures r.reply.Success? ==>
      && r.reply.status == Ok
      && r.store == s.(jobs := s.jobs[id := r.reply.data])
      && r.reply.data == PatchJob(s.jobs[id], p)
      && r.reply.data.companyId == s.jobs[id].companyId
  {
    if !HasRole(caller, Employer) then Step(Failure(Forbidden, "Only employers can update jobs"), s)
    else match CompanyOf(s, caller.value.id)
      case None => Step(Failure(BadRequest, "Company profile not found"), s)
      case Some(c) =>
        if id !in s.jobs || s.jobs[id].companyId != c then
          Step(Failure(NotFound, "Job not found or unauthorized"), s)
        else
          var j := PatchJob(s.jobs[id], p);
          ReplaceJobValid(s, id, j);
          Step(Success(Ok, j), s.(jobs := s.jobs[id := j]))
  }

  /** `DELETE /api/jobs/:id`: the database cascades the delete. */
  function DeleteJob(caller: Option<Caller>, id: Id, s: Store): (r: Step<()>)
    requires Valid(s)
    ensures Valid(r.store)
    ensures r.reply.status == Forbidden <==> !HasRole(caller, Employer)
    ensures HasRole(caller, Employer) && CompanyOf(s, caller.value.id).None? ==>
      r.reply == Failure(BadRequest, "Company profile not found")
    ensures r.reply.Success? <==> OwnsJob(s, caller, id)
    ensures r.reply.status == NotFound <==>
      HasRole(caller, Employer) && CompanyOf(s, caller.value.id).Some? && !OwnsJob(s, caller, id)
    ensures r.reply.Failure? ==> r.store == s
    ensures r.reply.Success? ==> r.reply.status == Ok && r.store == Schema.DeleteJob(s, id)
  {
    if !HasRole(caller, Employer) then Step(Failure(Forbidden, "Only employers can delete jobs"), s)
    else match CompanyOf(s, caller.value.id)
      case None => Step(Failure(BadRequest, "Company profile not found"), s)
      case Some(c) =>
        if id !in s.jobs || s.jobs[id].companyId != c then
          Step(Failure(NotFound, "Job not found or unauthorized"), s)
        else
          Step(Success(Ok, ()), Schema.DeleteJob(s, id))
  }

  /** After a successful delete the job is gone, nobody has applied to or
      saved it, and no conversation refers to it. */
  lemma DeletedJobIsGone(caller: Option<Caller>, id: Id, s: Store)
    requires Valid(s)
    requires DeleteJob(caller, id, s).reply.Success?
    ensures var t := DeleteJob(caller, id, s).store;
      && GetJobById(id, t).status == NotFound
      && (forall a :: a in t.applications ==> t.applications[a].jobId != id)
      && (forall a :: a in t.savedJobs ==> t.savedJobs[a].jobId != id)
      && (forall c :: c in t.conversations ==> t.conversations[c].jobId != Some(id))
      && t.conversations.Keys == s.conversations.Keys
  {
  }

  /** `GET /api/jobs/my-jobs`: the jobs of the caller's company, any status;
      an employer without a company gets an empty list. */
  function GetMyJobs(caller: Option<Caller>, s: Store): (r: Reply<set<Id>>)
    requires Valid(s)
    ensures r.Failure? <==> !HasRole(caller, Employer)
    ensures r.Failure? ==> r.status == Forbidden
    ensures r.Success? ==> r.status == Ok
    ensures r.Success? ==> forall j :: j in r.data <==> OwnsJob(s, caller, j)
  {
    if !HasRole(caller, Employer) then Failure(Forbidden, "Only employers can view their jobs")
    else match CompanyOf(s, caller.value.id)
      case None => Success(Ok, {})
      case Some(c) => Success(Ok, set j | j in s.jobs && s.jobs[j].companyId == c)
  }

  /** A job an employer has just created shows up among the employer's jobs
      and in the unfiltered listing. */
  lemma CreatedJobIsVisible(caller: Option<Caller>, b: JobInput, s: Store)
    requires Valid(s)
    requires CreateJob(caller, b, s).reply.Success?
    ensures var r := CreateJob(caller, b, s);
      && r.reply.data in GetMyJobs(caller, r.store).data
      && r.reply.data in GetAllJobs(NoFilters, r.store).data
  {
    var r := CreateJob(caller, b, s);
    var c := CompanyOf(s, caller.value.id).value;
    assert r.store.companies == s.companies;
    assert CompanyOf(r.store, caller.value.id) == Some(c);
  }

  /** Fetching a job just created gives back the row built from the body,
      with status "active", joined with the card of the employer's
      company. */
  lemma CreatedJobReadsBack(caller: Option<Caller>, b: JobInput, s: Store)
    requires Valid(s)
    requires CreateJob(caller, b, s).reply.Success?
    ensures var r := CreateJob(caller, b, s);
      && CompanyOf(s, caller.value.id).Some?
      && var c := CompanyOf(s, caller.value.id).value;
      && GetJobById(r.reply.data, r.store) == Success(Ok, DetailOf(r.reply.data, NewJob(c, b), CardOf(c, s.companies[c])))
  {
    var r := CreateJob(caller, b, s);
    var c := CompanyOf(s, caller.value.id).value;
    assert r.store.jobs[r.reply.data] == NewJob(c, b);
  }
}
