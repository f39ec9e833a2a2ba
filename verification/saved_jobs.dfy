/** The saved-job endpoints of a job seeker: save, unsave, list. */
module SavedJobs {

  import opened Wrappers
  import opened Schema
  import opened Api

  /** `POST /api/saved-jobs`, whose body names the job.  A caller whose user
      row is gone makes the insert fail its foreign key. */
  function SaveJob(caller: Option<Caller>, jobId: Option<Id>, s: Store): (r: Step<Id>)
    requires Valid(s)
    ensures Valid(r.store)
    ensures r.reply.status == Forbidden <==> !HasRole(caller, JobSeeker)
    ensures r.reply.Failure? ==> r.store == s
    ensures HasRole(caller, JobSeeker) && jobId.None? ==> r.reply == Failure(BadRequest, "Job ID is required")
    ensures HasRole(caller, JobSeeker) && jobId.Some? && jobId.value !in s.jobs ==>
      r.reply == Failure(NotFound, "Job not found")
    ensures HasRole(caller, JobSeeker) && jobId.Some? && jobId.value in s.jobs
            && SavedJobOf(s, caller.value.id, jobId.value).Some? ==>
      r.reply == Failure(BadRequest, "Job already saved")
    ensures r.reply.Success? <==>
      && HasRole(caller, JobSeeker) && jobId.Some? && jobId.value in s.jobs
      && SavedJobOf(s, caller.value.id, jobId.value).None? && caller.value.id in s.users
    ensures r.reply.Success? ==>
      && r.reply.status == Created
      && r.reply.data !in s.savedJobs
      && r.store.savedJobs == s.savedJobs[r.reply.data := SavedJob(caller.value.id, jobId.value)]
      && r.store.(savedJobs := s.savedJobs, nextId := s.nextId) == s
  {
    if !HasRole(caller, JobSeeker) then Step(Failure(Forbidden, "Only job seekers can save jobs"), s)
    else if jobId.None? then Step(Failure(BadRequest, "Job ID is required"), s)
    else if jobId.value !in s.jobs then Step(Failure(NotFound, "Job not found"), s)
    else Save(caller.value.id, jobId.value, s)
  }

  /** The duplicate check and the insert, once the job is known to exist. */
  function Save(user: Id, job: Id, s: Store): (r: Step<Id>)
    requires Valid(s) && job in s.jobs
    ensures Valid(r.store)
    ensures r.reply.Failure? ==> r.store == s
    ensures SavedJobOf(s, user, job).Some? ==> r.reply == Failure(BadRequest, "Job already saved")
    ensures SavedJobOf(s, user, job).None? && user !in s.users ==> r.reply == Failure(ServerError, InternalError)
    ensures r.reply.Success? <==> SavedJobOf(s, user, job).None? && user in s.users
    ensures r.reply.Success? ==>
      && r.reply.status == Created
      && r.reply.data !in s.savedJobs
      && r.store.savedJobs == s.savedJobs[r.reply.data := SavedJob(user, job)]
      && r.store.(savedJobs := s.savedJobs, nextId := s.nextId) == s
  {
    if SavedJobOf(s, user, job).Some? then Step(Failure(BadRequest, "Job already saved"), s)
    else
      match InsertSavedJob(s, SavedJob(user, job))
      case None => Step(Failure(ServerError, InternalError), s)
      case Some(t) => Step(Success(Created, s.nextId), t)
  }

  /** The table without the rows equal to `row`. */
  function DropRow(m: map<Id, SavedJob>, row: SavedJob): (r: map<Id, SavedJob>)
    ensures SubMap(r, m)
    ensures forall k :: k in r <==> k in m && m[k] != row
  {
    map k | k in m && m[k] != row :: m[k]
  }

  lemma DropRowTwice(m: map<Id, SavedJob>, row: SavedJob)
    ensures DropRow(DropRow(m, row), row) == DropRow(m, row)
  {
  }

  lemma DropRowAdded(m: map<Id, SavedJob>, k: Id, row: SavedJob)
    requires k !in m && forall q :: q in m ==> m[q] != row
    ensures DropRow(m[k := row], row) == m
  {
  }

  /** The caller's rows for `job` dropped from the saved jobs. */
  function Unsaved(s: Store, user: Id, job: Id): Store
  {
    s.(savedJobs := DropRow(s.savedJobs, SavedJob(user, job)))
  }

  lemma UnsavedValid(s: Store, user: Id, job: Id)
    requires Valid(s)
    ensures Valid(Unsaved(s, user, job))
  {
    UnsavedFresh(s, user, job);
    UnsavedRefs(s, user, job);
    UniqueSub(Unsaved(s, user, job).savedJobs, s.savedJobs, SavedJobPair);
  }

  lemma UnsavedFresh(s: Store, user: Id, job: Id)
    requires FreshIds(s)
    ensures FreshIds(Unsaved(s, user, job))
  {
    FreshAfter(s, Unsaved(s, user, job));
  }

  lemma UnsavedRefs(s: Store, user: Id, job: Id)
    requires SeekerRefs(s)
    ensures SeekerRefs(Unsaved(s, user, job))
  {
    var t := Unsaved(s, user, job);
    RefsSub(t.savedJobs, s.savedJobs, SavedJobUser, s.users, t.users);
    RefsSub(t.savedJobs, s.savedJobs, SavedJobJob, s.jobs, t.jobs);
  }

  /** `DELETE /api/saved-jobs/:jobId`: deletes the caller's row for the job,
      if there is one, and reports success either way. */
  function UnsaveJob(caller: Option<Caller>, job: Id, s: Store): (r: Step<()>)
    requires Valid(s)
    ensures Valid(r.store)
    ensures r.reply.Failure? <==> !HasRole(caller, JobSeeker)
    ensures r.reply.Failure? ==> r.reply.status == Forbidden && r.store == s
    ensures r.reply.Success? ==>
      && r.reply.status == Ok
      && (forall k :: k in r.store.savedJobs <==>
            k in s.savedJobs && !(s.savedJobs[k].userId == caller.value.id && s.savedJobs[k].jobId == job))
      && SubMap(r.store.savedJobs, s.savedJobs)
      && r.store.(savedJobs := s.savedJobs) == s
  {
    if !HasRole(caller, JobSeeker) then Step(Failure(Forbidden, "Only job seekers can unsave jobs"), s)
    else
      UnsavedValid(s, caller.value.id, job);
      Step(Success(Ok, ()), Unsaved(s, caller.value.id, job))
  }

  /** Unsaving twice is unsaving once. */
  lemma UnsaveIdempotent(caller: Option<Caller>, job: Id, s: Store)
    requires Valid(s)
    ensures var t := UnsaveJob(caller, job, s).store;
      UnsaveJob(caller, job, t) == Step(UnsaveJob(caller, job, s).reply, t)
  {
    if HasRole(caller, JobSeeker) {
      DropRowTwice(s.savedJobs, SavedJob(caller.value.id, job));
    }
  }

  /** Unsaving a job just saved restores the saved jobs as they were. */
  lemma UnsaveUndoesSave(caller: Option<Caller>, job: Id, s: Store)
    requires Valid(s)
    requires SaveJob(caller, Some(job), s).reply.Success?
    ensures var t := SaveJob(caller, Some(job), s).store;
      UnsaveJob(caller, job, t).store.savedJobs == s.savedJobs
  {
    var r := SaveJob(caller, Some(job), s);
    DropRowAdded(s.savedJobs, r.reply.data, SavedJob(caller.value.id, job));
  }

  /** `GET /api/saved-jobs`: the caller's saved jobs, joined with the job and
      its company. */
  function GetSavedJobs(caller: Option<Caller>, s: Store): (r: Reply<set<Id>>)
    requires Valid(s)
    ensures r.Failure? <==> !HasRole(caller, JobSeeker)
    ensures r.Failure? ==> r.status == Forbidden
    ensures r.Success? ==> r.status == Ok
    ensures r.Success? ==> forall k :: k in r.data <==> k in s.savedJobs && s.savedJobs[k].userId == caller.value.id
  {
    if !HasRole(caller, JobSeeker) then Failure(Forbidden, "Only job seekers can view saved jobs")
    else
      Success(Ok, set k | k in s.savedJobs && s.savedJobs[k].jobId in s.jobs
                          && s.jobs[s.savedJobs[k].jobId].companyId in s.companies
                          && s.savedJobs[k].userId == caller.value.id)
  }

  /** Saving a job and applying to it are independent: saving leaves the
      applications alone. */
  lemma SaveLeavesApplications(caller: Option<Caller>, jobId: Option<Id>, s: Store)
    requires Valid(s)
    ensures SaveJob(caller, jobId, s).store.applications == s.applications
  {
  }
}
