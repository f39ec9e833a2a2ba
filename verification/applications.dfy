/** The application endpoints: a job seeker applies and lists their
    applications; an employer lists the applications to one of their jobs
    and moves an application through its statuses. */
module Applications {

  import opened Wrappers
  import opened Schema
  import opened Api
  import Jobs

  /** The wire text of each status, as stored in `applications.status`. */
  function StatusText(a: AppStatus): string
  {
    match a
    case Pending => "pending"
    case Reviewing => "reviewing"
    case Accepted => "accepted"
    case Rejected => "rejected"
  }

  /** The controller's status check: absent or empty text, or text outside
      the four statuses, is refused. */
  function ParseStatus(text: Option<string>): (r: Option<AppStatus>)
    ensures r.Some? ==> text == Some(StatusText(r.value))
  {
    if text == Some("pending") then Some(Pending)
    else if text == Some("reviewing") then Some(Reviewing)
    else if text == Some("accepted") then Some(Accepted)
    else if text == Some("rejected") then Some(Rejected)
    else None
  }

  /** Every status is accepted in its wire form. */
  lemma ParseStatusText(a: AppStatus)
    ensures ParseStatus(Some(StatusText(a))) == Some(a)
  {
  }

  /** Text is accepted exactly when it is the wire form of a status; case
      matters ("Pending" is refused). */
  lemma ParseStatusAccepts(text: string)
    ensures ParseStatus(Some(text)).Some? <==> exists a :: StatusText(a) == text
  {
    if exists a :: StatusText(a) == text {
      var a :| StatusText(a) == text;
      ParseStatusText(a);
    }
  }

  // Applying.

  /** The body of an application. */
  datatype ApplyRequest = ApplyRequest(jobId: Option<Id>, coverLetter: Option<string>)

  /** `t` is `s` with the one new application `id`, and nothing else changed. */
  predicate ApplicationAdded(s: Store, t: Store, id: Id, a: Application)
  {
    && id !in s.applications
    && t.applications == s.applications[id := a]
    && t.(applications := s.applications, nextId := s.nextId) == s
  }

  /** `POST /api/applications`.  Whether the job is still open is not
      checked: a closed or draft job accepts applications too.  A caller
      whose user row is gone makes the insert fail its foreign key, which the
      controller reports as an internal error. */
  function ApplyToJob(caller: Option<Caller>, b: ApplyRequest, s: Store): (r: Step<Id>)
    requires Valid(s)
    ensures Valid(r.store)
    ensures r.reply.status == Forbidden <==> !HasRole(caller, JobSeeker)
    ensures r.reply.Failure? ==> r.store == s
    ensures HasRole(caller, JobSeeker) && b.jobId.None? ==> r.reply == Failure(BadRequest, "Job ID is required")
    ensures HasRole(caller, JobSeeker) && b.jobId.Some? && b.jobId.value !in s.jobs ==>
      r.reply == Failure(NotFound, "Job not found")
    ensures HasRole(caller, JobSeeker) && b.jobId.Some? && b.jobId.value in s.jobs
            && ApplicationOf(s, caller.value.id, b.jobId.value).Some? ==>
      r.reply == Failure(BadRequest, "You have already applied to this job")
    ensures r.reply.Success? <==>
      && HasRole(caller, JobSeeker) && b.jobId.Some? && b.jobId.value in s.jobs
      && ApplicationOf(s, caller.value.id, b.jobId.value).None? && caller.value.id in s.users
    ensures r.reply.Success? ==>
      && r.reply.status == Created
      && ApplicationAdded(s, r.store, r.reply.data,
                          Application(caller.value.id, b.jobId.value, DefaultAppStatus, b.coverLetter))
  {
    if !HasRole(caller, JobSeeker) then Step(Failure(Forbidden, "Only job seekers can apply to jobs"), s)
    else if b.jobId.None? then Step(Failure(BadRequest, "Job ID is required"), s)
    else if b.jobId.value !in s.jobs then Step(Failure(NotFound, "Job not found"), s)
    else Apply(caller.value.id, b.jobId.value, b.coverLetter, s)
  }

  /** The duplicate check and the insert, once the job is known to exist. */
  function Apply(user: Id, job: Id, coverLetter: Option<string>, s: Store): (r: Step<Id>)
    requires Valid(s) && job in s.jobs
    ensures Valid(r.store)
    ensures r.reply.Failure? ==> r.store == s
    ensures ApplicationOf(s, user, job).Some? ==> r.reply == Failure(BadRequest, "You have already applied to this job")
    ensures ApplicationOf(s, user, job).None? && user !in s.users ==> r.reply == Failure(ServerError, InternalError)
    ensures r.reply.Success? <==> ApplicationOf(s, user, job).None? && user in s.users
    ensures r.reply.Success? ==>
      r.reply.status == Created && ApplicationAdded(s, r.store, r.reply.data, Application(user, job, Pending, coverLetter))
  {
    if ApplicationOf(s, user, job).Some? then
      Step(Failure(BadRequest, "You have already applied to this job"), s)
    else
      match InsertApplication(s, Application(user, job, Pending, coverLetter))
      case None => Step(Failure(ServerError, InternalError), s)
      case Some(t) => Step(Success(Created, s.nextId), t)
  }

  /** Applying again to the same job is refused and changes nothing. */
  lemma ApplyTwiceRefused(caller: Option<Caller>, b: ApplyRequest, s: Store)
    requires Valid(s)
    requires ApplyToJob(caller, b, s).reply.Success?
    ensures var t := ApplyToJob(caller, b, s).store;
      ApplyToJob(caller, b, t) == Step(Failure(BadRequest, "You have already applied to this job"), t)
  {
    var r := ApplyToJob(caller, b, s);
    var t := r.store;
    assert t.applications[r.reply.data] == Application(caller.value.id, b.jobId.value, Pending, b.coverLetter);
    assert ApplicationOf(t, caller.value.id, b.jobId.value).Some?;
  }

  // Listing.

  /** `GET /api/applications/my-applications`: the caller's applications joined with their
      job and its company. */
  function GetMyApplications(caller: Option<Caller>, s: Store): (r: Reply<set<Id>>)
    requires Valid(s)
    ensures r.Failure? <==> !HasRole(caller, JobSeeker)
    ensures r.Failure? ==> r.status == Forbidden
    ensures r.Success? ==> r.status == Ok
    ensures r.Success? ==> forall a :: a in r.data <==> a in s.applications && s.applications[a].userId == caller.value.id
  {
    if !HasRole(caller, JobSeeker) then Failure(Forbidden, "Only job seekers can view their applications")
    else
      Success(Ok, set a | a in s.applications && s.applications[a].jobId in s.jobs
                          && s.jobs[s.applications[a].jobId].companyId in s.companies
                          && s.applications[a].userId == caller.value.id)
  }

  /** An application that was just submitted is among the applicant's
      applications. */
  lemma AppliedIsListed(caller: Option<Caller>, b: ApplyRequest, s: Store)
    requires Valid(s)
    requires ApplyToJob(caller, b, s).reply.Success?
    ensures var r := ApplyToJob(caller, b, s);
      r.reply.data in GetMyApplications(caller, r.store).data
  {
  }

  /** `GET /api/applications/job/:jobId`: the applications to one of the
      employer's jobs, joined with the applicant (and their profile, if
      any). */
  function GetJobApplications(caller: Option<Caller>, job: Id, s: Store): (r: Reply<set<Id>>)
    requires Valid(s)
    ensures r.status == Forbidden <==> !HasRole(caller, Employer)
    ensures HasRole(caller, Employer) && CompanyOf(s, caller.value.id).None? ==>
      r == Failure(BadRequest, "Company profile not found")
    ensures r.Success? <==> Jobs.OwnsJob(s, caller, job)
    ensures r.status == NotFound <==>
      HasRole(caller, Employer) && CompanyOf(s, caller.value.id).Some? && !Jobs.OwnsJob(s, caller, job)
    ensures r.Success? ==> r.status == Ok
    ensures r.Success? ==> forall a :: a in r.data <==> a in s.applications && s.applications[a].jobId == job
  {
    if !HasRole(caller, Employer) then Failure(Forbidden, "Only employers can view job applications")
    else match CompanyOf(s, caller.value.id)
      case None => Failure(BadRequest, "Company profile not found")
      case Some(c) =>
        if job !in s.jobs || s.jobs[job].companyId != c then Failure(NotFound, "Job not found or unauthorized")
        else Success(Ok, set a | a in s.applications && s.applications[a].userId in s.users
                                 && s.applications[a].jobId == job)
  }

  // Moving an application through its statuses.

  /** The employer's company owns the job the application `id` is for. */
  predicate OwnsApplication(s: Store, caller: Option<Caller>, id: Id)
    requires Valid(s)
  {
    && HasRole(caller, Employer)
    && CompanyOf(s, caller.value.id).Some?
    && id in s.applications
    && s.applications[id].jobId in s.jobs
    && s.jobs[s.applications[id].jobId].companyId == CompanyOf(s, caller.value.id).value
  }

  lemma ReplaceApplicationValid(s: Store, id: Id, a: Application)
    requires Valid(s) && id in s.applications
    requires a.userId == s.applications[id].userId && a.jobId == s.applications[id].jobId
    ensures Valid(s.(applications := s.applications[id := a]))
  {
    FreshAfter(s, s.(applications := s.applications[id := a]));
    UniqueReplace(s.applications, ApplicationPair, id, a);
    RefsAdd(s.applications, ApplicationUser, s.users, id, a);
    RefsAdd(s.applications, ApplicationJob, s.jobs, id, a);
  }

  /** `PUT /api/applications/:id/status`.  The status text is checked before
      the company, so an employer without a company who sends a bad status
      is told the status is invalid. */
  function UpdateApplicationStatus(caller: Option<Caller>, id: Id, status: Option<string>, s: Store): (r: Step<Application>)
    requires Valid(s)
    ensures Valid(r.store)
    ensures r.reply.status == Forbidden <==> !HasRole(caller, Employer)
    ensures HasRole(caller, Employer) && ParseStatus(status).None? ==> r.reply == Failure(BadRequest, "Invalid status")
    ensures HasRole(caller, Employer) && ParseStatus(status).Some? && CompanyOf(s, caller.value.id).None? ==>
      r.reply == Failure(BadRequest, "Company profile not found")
    ensures r.reply.Success? <==> ParseStatus(status).Some? && OwnsApplication(s, caller, id)
    ensures r.reply.status == NotFound <==>
      ParseStatus(status).Some? && HasRole(caller, Employer) && CompanyOf(s, caller.value.id).Some?
      && !OwnsApplication(s, caller, id)
    ensures r.reply.Failure? ==> r.store == s
    ensures r.reply.Success? ==>
      && r.reply.status == Ok
      && r.reply.data == s.applications[id].(status := ParseStatus(status).value)
      && r.store == s.(applications := s.applications[id := r.reply.data])
  {
    if !HasRole(caller, Employer) then Step(Failure(Forbidden, "Only employers can update application status"), s)
    else match ParseStatus(status)
      case None => Step(Failure(BadRequest, "Invalid status"), s)
      case Some(st) => SetStatus(caller.value.id, id, st, s)
  }

  /** The ownership check and the update, once the status is known valid. */
  function SetStatus(employer: Id, id: Id, st: AppStatus, s: Store): (r: Step<Application>)
    requires Valid(s)
    ensures Valid(r.store)
    ensures r.reply.Failure? ==> r.store == s && r.reply.status in {BadRequest, NotFound}
    ensures r.reply.status == BadRequest <==> CompanyOf(s, employer).None?
    ensures CompanyOf(s, employer).None? ==> r.reply == Failure(BadRequest, "Company profile not found")
    ensures r.reply.Success? <==> OwnsApplication(s, Some(Caller(employer, Employer)), id)
    ensures r.reply.Success? ==>
      && r.reply.status == Ok
      && r.reply.data == s.applications[id].(status := st)
      && r.store == s.(applications := s.applications[id := r.reply.data])
  {
    match CompanyOf(s, employer)
    case None => Step(Failure(BadRequest, "Company profile not found"), s)
    case Some(c) =>
      if id !in s.applications || s.applications[id].jobId !in s.jobs
         || s.jobs[s.applications[id].jobId].companyId != c then
        Step(Failure(NotFound, "Application not found or unauthorized"), s)
      else
        var a := s.applications[id].(status := st);
        ReplaceApplicationValid(s, id, a);
        Step(Success(Ok, a), s.(applications := s.applications[id := a]))
  }

  /** Setting the same status twice leaves the store as setting it once. */
  lemma UpdateStatusIdempotent(caller: Option<Caller>, id: Id, status: Option<string>, s: Store)
    requires Valid(s)
    requires UpdateApplicationStatus(caller, id, status, s).reply.Success?
    ensures var t := UpdateApplicationStatus(caller, id, status, s).store;
      UpdateApplicationStatus(caller, id, status, t).store == t
  {
    var t := UpdateApplicationStatus(caller, id, status, s).store;
    assert t.companies == s.companies && t.jobs == s.jobs;
    assert CompanyOf(t, caller.value.id) == CompanyOf(s, caller.value.id);
    assert t.applications[id] == t.applications[id].(status := ParseStatus(status).value);
  }

  /** A status update touches the status of one application and nothing
      else: every other application, and every other column of this one,
      is as before. */
  lemma UpdateStatusFrame(caller: Option<Caller>, id: Id, status: Option<string>, s: Store)
    requires Valid(s)
    requires UpdateApplicationStatus(caller, id, status, s).reply.Success?
    ensures var t := UpdateApplicationStatus(caller, id, status, s).store;
      && t.applications.Keys == s.applications.Keys
      && (forall a :: a in s.applications && a != id ==> t.applications[a] == s.applications[a])
      && t.applications[id].userId == s.applications[id].userId
      && t.applications[id].jobId == s.applications[id].jobId
      && t.applications[id].coverLetter == s.applications[id].coverLetter
      && StatusText(t.applications[id].status) == status.value
  {
    var st := ParseStatus(status).value;
    StatusOnlyChanges(s.applications, id, st, UpdateApplicationStatus(caller, id, status, s).store.applications);
  }

  lemma StatusOnlyChanges(apps: map<Id, Application>, id: Id, st: AppStatus, apps': map<Id, Application>)
    requires id in apps && apps' == apps[id := apps[id].(status := st)]
    ensures apps'.Keys == apps.Keys
    ensures forall a :: a in apps && a != id ==> apps'[a] == apps[a]
    ensures apps'[id].userId == apps[id].userId && apps'[id].jobId == apps[id].jobId
    ensures apps'[id].coverLetter == apps[id].coverLetter && apps'[id].status == st
  {
  }
}
