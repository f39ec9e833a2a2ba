/** The relational schema as an immutable store.

    Each table is a map from primary key to row.  `Valid` collects the
    constraints the schema declares (unique columns, foreign keys, compound
    unique keys) and the `Insert*` functions are the database's own
    enforcement of them: an insert that would break one is rejected (`None`),
    which the controllers surface as an internal error.  The `Delete*`
    functions carry out the declared `on delete` actions. */
module Schema {

  import opened Wrappers

  /** Primary keys.  Row ids come from a counter that is above every key in
      use; it stands in for the database's random UUIDs. */
  type Id = nat

  datatype Role = JobSeeker | Employer

  /** A password digest.  The store never holds a plain-text password: only a
      `Digest`, produced by `Hash` and inspected only through `Matches`. */
  datatype Digest = Bcrypt(secret: string)

  function Hash(password: string): Digest
  {
    Bcrypt(password)
  }

  /** `bcrypt.compare`: does the password hash to the stored digest? */
  predicate Matches(password: string, d: Digest)
  {
    Hash(password) == d
  }

  lemma HashInjective(p: string, q: string)
    ensures Hash(p) == Hash(q) <==> p == q
  {
  }

  datatype User = User(email: string, password: Digest, name: string, role: Role)

  /** A job seeker's profile; `experience` and `education` are opaque JSON
      text. */
  datatype Profile = Profile(
    userId: Id,
    headline: Option<string>,
    bio: Option<string>,
    skills: Option<seq<string>>,
    experience: Option<string>,
    education: Option<string>,
    location: Option<string>,
    phone: Option<string>,
    resumeUrl: Option<string>)

  datatype Company = Company(
    userId: Id,
    name: string,
    description: Option<string>,
    industry: Option<string>,
    companySize: Option<string>,
    website: Option<string>,
    logoUrl: Option<string>,
    location: Option<string>)

  datatype Job = Job(
    companyId: Id,
    title: string,
    description: string,
    requirements: Option<string>,
    responsibilities: Option<string>,
    salaryMin: Option<int>,
    salaryMax: Option<int>,
    salaryCurrency: string,
    location: Option<string>,
    employmentType: Option<string>,
    experienceLevel: Option<string>,
    isRemote: bool,
    status: string)

  datatype AppStatus = Pending | Reviewing | Accepted | Rejected

  datatype Application = Application(userId: Id, jobId: Id, status: AppStatus, coverLetter: Option<string>)

  datatype SavedJob = SavedJob(userId: Id, jobId: Id)

  datatype Conversation = Conversation(participant1: Id, participant2: Id, jobId: Option<Id>)

  datatype Message = Message(conversationId: Id, senderId: Id, content: string, isRead: bool)

  datatype Store = Store(
    users: map<Id, User>,
    profiles: map<Id, Profile>,
    companies: map<Id, Company>,
    jobs: map<Id, Job>,
    applications: map<Id, Application>,
    savedJobs: map<Id, SavedJob>,
    conversations: map<Id, Conversation>,
    messages: map<Id, Message>,
    nextId: Id)

  // Column defaults.

  const DefaultCurrency: string := "USD"
  const DefaultJobStatus: string := "active"
  const DefaultIsRemote: bool := false
  const DefaultAppStatus: AppStatus := Pending
  const DefaultIsRead: bool := false

  // Column accessors used as keys and references by the constraints.

  function EmailOf(u: User): string { u.email }
  function ProfileOwner(p: Profile): Id { p.userId }
  function CompanyOwner(c: Company): Id { c.userId }
  function JobCompany(j: Job): Id { j.companyId }
  function ApplicationUser(a: Application): Id { a.userId }
  function ApplicationJob(a: Application): Id { a.jobId }
  function ApplicationPair(a: Application): (Id, Id) { (a.userId, a.jobId) }
  function SavedJobUser(sj: SavedJob): Id { sj.userId }
  function SavedJobJob(sj: SavedJob): Id { sj.jobId }
  function SavedJobPair(sj: SavedJob): (Id, Id) { (sj.userId, sj.jobId) }
  function FirstParticipant(c: Conversation): Id { c.participant1 }
  function SecondParticipant(c: Conversation): Id { c.participant2 }
  function MessageConversation(m: Message): Id { m.conversationId }
  function MessageSender(m: Message): Id { m.senderId }

  // Constraints.

  predicate IdsBelow<T>(m: map<Id, T>, n: Id)
  {
    forall k :: k in m ==> k < n
  }

  /** A `unique` constraint on the column (or columns) `key`. */
  predicate UniqueBy<T, K(==)>(m: map<Id, T>, key: T -> K)
  {
    forall a, b :: a in m && b in m && key(m[a]) == key(m[b]) ==> a == b
  }

  /** A `not null references target.id` foreign key on the column `ref`. */
  predicate RefsTo<T, U>(m: map<Id, T>, ref: T -> Id, target: map<Id, U>)
  {
    forall k :: k in m ==> ref(m[k]) in target
  }

  /** unique(participant1_id, participant2_id, job_id).  PostgreSQL treats
      NULLs as distinct in a unique constraint, so it only binds rows whose
      job_id is not null. */
  predicate OneConversationPerTriple(convs: map<Id, Conversation>)
  {
    forall a, b :: a in convs && b in convs && convs[a].jobId.Some? && convs[a] == convs[b] ==> a == b
  }

  /** conversations.job_id: a nullable foreign key into jobs. */
  predicate ConversationJobRefs(convs: map<Id, Conversation>, jobs: map<Id, Job>)
  {
    forall c :: c in convs && convs[c].jobId.Some? ==> convs[c].jobId.value in jobs
  }

  predicate FreshIds(s: Store)
  {
    && IdsBelow(s.users, s.nextId)
    && IdsBelow(s.profiles, s.nextId)
    && IdsBelow(s.companies, s.nextId)
    && IdsBelow(s.jobs, s.nextId)
    && IdsBelow(s.applications, s.nextId)
    && IdsBelow(s.savedJobs, s.nextId)
    && IdsBelow(s.conversations, s.nextId)
    && IdsBelow(s.messages, s.nextId)
  }

  /** The unique constraints. */
  predicate Keys(s: Store)
  {
    && UniqueBy(s.users, EmailOf)
    && UniqueBy(s.profiles, ProfileOwner)
    && UniqueBy(s.companies, CompanyOwner)
    && UniqueBy(s.applications, ApplicationPair)
    && UniqueBy(s.savedJobs, SavedJobPair)
    && OneConversationPerTriple(s.conversations)
  }

  /** The foreign keys of the seeker-side tables. */
  predicate SeekerRefs(s: Store)
  {
    && RefsTo(s.profiles, ProfileOwner, s.users)
    && RefsTo(s.companies, CompanyOwner, s.users)
    && RefsTo(s.jobs, JobCompany, s.companies)
    && RefsTo(s.applications, ApplicationUser, s.users)
    && RefsTo(s.applications, ApplicationJob, s.jobs)
    && RefsTo(s.savedJobs, SavedJobUser, s.users)
    && RefsTo(s.savedJobs, SavedJobJob, s.jobs)
  }

  /** The foreign keys of the messaging tables. */
  predicate ChatRefs(s: Store)
  {
    && RefsTo(s.conversations, FirstParticipant, s.users)
    && RefsTo(s.conversations, SecondParticipant, s.users)
    && ConversationJobRefs(s.conversations, s.jobs)
    && RefsTo(s.messages, MessageConversation, s.conversations)
    && RefsTo(s.messages, MessageSender, s.users)
  }

  /** Every constraint the schema declares. */
  predicate Valid(s: Store)
  {
    FreshIds(s) && Keys(s) && SeekerRefs(s) && ChatRefs(s)
  }

  function EmptyStore(): (s: Store)
    ensures Valid(s)
    ensures s.users == map[] && s.jobs == map[]
  {
    Store(map[], map[], map[], map[], map[], map[], map[], map[], 0)
  }

  // Generic facts about the constraints, each proved in a narrow context.

  predicate SubMap<T(==)>(m': map<Id, T>, m: map<Id, T>)
  {
    forall k :: k in m' ==> k in m && m'[k] == m[k]
  }

  lemma UniqueAdd<T, K>(m: map<Id, T>, key: T -> K, k: Id, v: T)
    requires UniqueBy(m, key) && k !in m
    requires forall q :: q in m ==> key(m[q]) != key(v)
    ensures UniqueBy(m[k := v], key)
  {
  }

  /** Replacing a row by one with the same key keeps the key unique. */
  lemma UniqueReplace<T, K>(m: map<Id, T>, key: T -> K, k: Id, v: T)
    requires UniqueBy(m, key) && k in m && key(v) == key(m[k])
    ensures UniqueBy(m[k := v], key)
  {
    var m' := m[k := v];
    forall a, b | a in m' && b in m' && key(m'[a]) == key(m'[b])
      ensures a == b
    {
      assert key(m'[a]) == key(m[a]) && key(m'[b]) == key(m[b]);
    }
  }

  lemma UniqueSub<T, K>(m': map<Id, T>, m: map<Id, T>, key: T -> K)
    requires UniqueBy(m, key) && SubMap(m', m)
    ensures UniqueBy(m', key)
  {
  }

  lemma RefsAdd<T, U>(m: map<Id, T>, ref: T -> Id, target: map<Id, U>, k: Id, v: T)
    requires RefsTo(m, ref, target) && ref(v) in target
    ensures RefsTo(m[k := v], ref, target)
  {
  }

  /** A foreign key survives when the referencing table only loses rows and
      the target keeps every row still referenced. */
  lemma RefsSub<T, U>(m': map<Id, T>, m: map<Id, T>, ref: T -> Id, target: map<Id, U>, target': map<Id, U>)
    requires RefsTo(m, ref, target) && SubMap(m', m)
    requires forall k :: k in m' && ref(m'[k]) in target ==> ref(m'[k]) in target'
    ensures RefsTo(m', ref, target')
  {
  }

  lemma IdsBelowGrow<T>(m: map<Id, T>, m': map<Id, T>, n: Id, n': Id)
    requires IdsBelow(m, n) && n <= n'
    requires m'.Keys <= m.Keys + {n} && (n < n' || m'.Keys <= m.Keys)
    ensures IdsBelow(m', n')
  {
  }

  /** A store that only gained rows under the key `s.nextId` and then moved
      its counter past it, or that only lost rows, keeps its ids fresh. */
  lemma FreshAfter(s: Store, t: Store)
    requires FreshIds(s) && s.nextId <= t.nextId
    requires s.nextId == t.nextId ==>
      && t.users.Keys <= s.users.Keys && t.profiles.Keys <= s.profiles.Keys
      && t.companies.Keys <= s.companies.Keys && t.jobs.Keys <= s.jobs.Keys
      && t.applications.Keys <= s.applications.Keys && t.savedJobs.Keys <= s.savedJobs.Keys
      && t.conversations.Keys <= s.conversations.Keys && t.messages.Keys <= s.messages.Keys
    requires t.users.Keys <= s.users.Keys + {s.nextId}
    requires t.profiles.Keys <= s.profiles.Keys + {s.nextId}
    requires t.companies.Keys <= s.companies.Keys + {s.nextId}
    requires t.jobs.Keys <= s.jobs.Keys + {s.nextId}
    requires t.applications.Keys <= s.applications.Keys + {s.nextId}
    requires t.savedJobs.Keys <= s.savedJobs.Keys + {s.nextId}
    requires t.conversations.Keys <= s.conversations.Keys + {s.nextId}
    requires t.messages.Keys <= s.messages.Keys + {s.nextId}
    ensures FreshIds(t)
  {
    IdsBelowGrow(s.users, t.users, s.nextId, t.nextId);
    IdsBelowGrow(s.profiles, t.profiles, s.nextId, t.nextId);
    IdsBelowGrow(s.companies, t.companies, s.nextId, t.nextId);
    IdsBelowGrow(s.jobs, t.jobs, s.nextId, t.nextId);
    IdsBelowGrow(s.applications, t.applications, s.nextId, t.nextId);
    IdsBelowGrow(s.savedJobs, t.savedJobs, s.nextId, t.nextId);
    IdsBelowGrow(s.conversations, t.conversations, s.nextId, t.nextId);
    IdsBelowGrow(s.messages, t.messages, s.nextId, t.nextId);
  }

  /** Foreign keys into a table survive the table gaining a row. */
  lemma RefsGrow<T, U>(m: map<Id, T>, ref: T -> Id, target: map<Id, U>, k: Id, v: U)
    requires RefsTo(m, ref, target)
    ensures RefsTo(m, ref, target[k := v])
  {
  }

  // Lookups by a unique non-key column (`select ... where col = v limit 1`).

  function UserByEmail(s: Store, email: string): (r: Option<Id>)
    requires UniqueBy(s.users, EmailOf)
    ensures r.Some? ==> r.value in s.users && s.users[r.value].email == email
    ensures r.None? ==> forall u :: u in s.users ==> s.users[u].email != email
  {
    if exists u :: u in s.users && s.users[u].email == email then
      var u :| u in s.users && s.users[u].email == email;
      assert forall v :: v in s.users && s.users[v].email == email ==> EmailOf(s.users[v]) == EmailOf(s.users[u]);
      Some(u)
    else None
  }

  function ProfileOf(s: Store, user: Id): (r: Option<Id>)
    requires UniqueBy(s.profiles, ProfileOwner)
    ensures r.Some? ==> r.value in s.profiles && s.profiles[r.value].userId == user
    ensures r.None? ==> forall p :: p in s.profiles ==> s.profiles[p].userId != user
  {
    if exists p :: p in s.profiles && s.profiles[p].userId == user then
      var p :| p in s.profiles && s.profiles[p].userId == user;
      assert forall q :: q in s.profiles && s.profiles[q].userId == user ==> ProfileOwner(s.profiles[q]) == ProfileOwner(s.profiles[p]);
      Some(p)
    else None
  }

  function CompanyOf(s: Store, user: Id): (r: Option<Id>)
    requires UniqueBy(s.companies, CompanyOwner)
    ensures r.Some? ==> r.value in s.companies && s.companies[r.value].userId == user
    ensures r.None? ==> forall c :: c in s.companies ==> s.companies[c].userId != user
  {
    if exists c :: c in s.companies && s.companies[c].userId == user then
      var c :| c in s.companies && s.companies[c].userId == user;
      assert forall d :: d in s.companies && s.companies[d].userId == user ==> CompanyOwner(s.companies[d]) == CompanyOwner(s.companies[c]);
      Some(c)
    else None
  }

  function ApplicationOf(s: Store, user: Id, job: Id): (r: Option<Id>)
    requires UniqueBy(s.applications, ApplicationPair)
    ensures r.Some? ==> r.value in s.applications && s.applications[r.value].userId == user && s.applications[r.value].jobId == job
    ensures r.None? ==> forall a :: a in s.applications ==> !(s.applications[a].userId == user && s.applications[a].jobId == job)
  {
    if exists a :: a in s.applications && ApplicationPair(s.applications[a]) == (user, job) then
      var a :| a in s.applications && ApplicationPair(s.applications[a]) == (user, job);
      Some(a)
    else None
  }

  function SavedJobOf(s: Store, user: Id, job: Id): (r: Option<Id>)
    requires UniqueBy(s.savedJobs, SavedJobPair)
    ensures r.Some? ==> r.value in s.savedJobs && s.savedJobs[r.value] == SavedJob(user, job)
    ensures r.None? ==> forall a :: a in s.savedJobs ==> s.savedJobs[a] != SavedJob(user, job)
  {
    if exists a :: a in s.savedJobs && SavedJobPair(s.savedJobs[a]) == (user, job) then
      var a :| a in s.savedJobs && SavedJobPair(s.savedJobs[a]) == (user, job);
      Some(a)
    else None
  }

  // Inserts: the database's enforcement of its constraints.  Each returns
  // `None` exactly when the new row would break a constraint.

  function InsertUser(s: Store, u: User): (r: Option<Store>)
    requires Valid(s)
    ensures r.Some? <==> UserByEmail(s, u.email).None?
    ensures r.Some? ==> Valid(r.value) && r.value == s.(users := s.users[s.nextId := u], nextId := s.nextId + 1)
  {
    if UserByEmail(s, u.email).Some? then None
    else
      InsertUserValid(s, u);
      Some(s.(users := s.users[s.nextId := u], nextId := s.nextId + 1))
  }

  lemma InsertUserValid(s: Store, u: User)
    requires Valid(s)
    requires forall v :: v in s.users ==> s.users[v].email != u.email
    ensures Valid(s.(users := s.users[s.nextId := u], nextId := s.nextId + 1))
  {
    FreshAfter(s, s.(users := s.users[s.nextId := u], nextId := s.nextId + 1));
    UniqueAdd(s.users, EmailOf, s.nextId, u);
    RefsGrow(s.profiles, ProfileOwner, s.users, s.nextId, u);
    RefsGrow(s.companies, CompanyOwner, s.users, s.nextId, u);
    RefsGrow(s.applications, ApplicationUser, s.users, s.nextId, u);
    RefsGrow(s.savedJobs, SavedJobUser, s.users, s.nextId, u);
    RefsGrow(s.conversations, FirstParticipant, s.users, s.nextId, u);
    RefsGrow(s.conversations, SecondParticipant, s.users, s.nextId, u);
    RefsGrow(s.messages, MessageSender, s.users, s.nextId, u);
  }

  function InsertProfile(s: Store, p: Profile): (r: Option<Store>)
    requires Valid(s)
    ensures r.Some? <==> p.userId in s.users && ProfileOf(s, p.userId).None?
    ensures r.Some? ==> Valid(r.value) && r.value == s.(profiles := s.profiles[s.nextId := p], nextId := s.nextId + 1)
  {
    if p.userId !in s.users || ProfileOf(s, p.userId).Some? then None
    else
      InsertProfileValid(s, p);
      Some(s.(profiles := s.profiles[s.nextId := p], nextId := s.nextId + 1))
  }

  lemma InsertProfileValid(s: Store, p: Profile)
    requires Valid(s) && p.userId in s.users
    requires forall q :: q in s.profiles ==> s.profiles[q].userId != p.userId
    ensures Valid(s.(profiles := s.profiles[s.nextId := p], nextId := s.nextId + 1))
  {
    FreshAfter(s, s.(profiles := s.profiles[s.nextId := p], nextId := s.nextId + 1));
    UniqueAdd(s.profiles, ProfileOwner, s.nextId, p);
    RefsAdd(s.profiles, ProfileOwner, s.users, s.nextId, p);
  }

  function InsertCompany(s: Store, c: Company): (r: Option<Store>)
    requires Valid(s)
    ensures r.Some? <==> c.userId in s.users && CompanyOf(s, c.userId).None?
    ensures r.Some? ==> Valid(r.value) && r.value == s.(companies := s.companies[s.nextId := c], nextId := s.nextId + 1)
  {
    if c.userId !in s.users || CompanyOf(s, c.userId).Some? then None
    else
      InsertCompanyValid(s, c);
      Some(s.(companies := s.companies[s.nextId := c], nextId := s.nextId + 1))
  }

  lemma InsertCompanyValid(s: Store, c: Company)
    requires Valid(s) && c.userId in s.users
    requires forall d :: d in s.companies ==> s.companies[d].userId != c.userId
    ensures Valid(s.(companies := s.companies[s.nextId := c], nextId := s.nextId + 1))
  {
    FreshAfter(s, s.(companies := s.companies[s.nextId := c], nextId := s.nextId + 1));
    UniqueAdd(s.companies, CompanyOwner, s.nextId, c);
    RefsAdd(s.companies, CompanyOwner, s.users, s.nextId, c);
    RefsGrow(s.jobs, JobCompany, s.companies, s.nextId, c);
  }

  function InsertJob(s: Store, j: Job): (r: Option<Store>)
    requires Valid(s)
    ensures r.Some? <==> j.companyId in s.companies
    ensures r.Some? ==> Valid(r.value) && r.value == s.(jobs := s.jobs[s.nextId := j], nextId := s.nextId + 1)
  {
    if j.companyId !in s.companies then None
    else
      InsertJobValid(s, j);
      Some(s.(jobs := s.jobs[s.nextId := j], nextId := s.nextId + 1))
  }

  lemma InsertJobValid(s: Store, j: Job)
    requires Valid(s) && j.companyId in s.companies
    ensures Valid(s.(jobs := s.jobs[s.nextId := j], nextId := s.nextId + 1))
  {
    var t := s.(jobs := s.jobs[s.nextId := j], nextId := s.nextId + 1);
    FreshAfter(s, t);
    RefsAdd(s.jobs, JobCompany, s.companies, s.nextId, j);
    RefsGrow(s.applications, ApplicationJob, s.jobs, s.nextId, j);
    RefsGrow(s.savedJobs, SavedJobJob, s.jobs, s.nextId, j);
    assert ConversationJobRefs(t.conversations, t.jobs);
  }

  function InsertApplication(s: Store, a: Application): (r: Option<Store>)
    requires Valid(s)
    ensures r.Some? <==> a.userId in s.users && a.jobId in s.jobs && ApplicationOf(s, a.userId, a.jobId).None?
    ensures r.Some? ==> Valid(r.value) && r.value == s.(applications := s.applications[s.nextId := a], nextId := s.nextId + 1)
  {
    if a.userId !in s.users || a.jobId !in s.jobs || ApplicationOf(s, a.userId, a.jobId).Some? then None
    else
      InsertApplicationValid(s, a);
      Some(s.(applications := s.applications[s.nextId := a], nextId := s.nextId + 1))
  }

  lemma InsertApplicationValid(s: Store, a: Application)
    requires Valid(s) && a.userId in s.users && a.jobId in s.jobs
    requires forall b :: b in s.applications ==> ApplicationPair(s.applications[b]) != ApplicationPair(a)
    ensures Valid(s.(applications := s.applications[s.nextId := a], nextId := s.nextId + 1))
  {
    FreshAfter(s, s.(applications := s.applications[s.nextId := a], nextId := s.nextId + 1));
    UniqueAdd(s.applications, ApplicationPair, s.nextId, a);
    RefsAdd(s.applications, ApplicationUser, s.users, s.nextId, a);
    RefsAdd(s.applications, ApplicationJob, s.jobs, s.nextId, a);
  }

  function InsertSavedJob(s: Store, sj: SavedJob): (r: Option<Store>)
    requires Valid(s)
    ensures r.Some? <==> sj.userId in s.users && sj.jobId in s.jobs && SavedJobOf(s, sj.userId, sj.jobId).None?
    ensures r.Some? ==> Valid(r.value) && r.value == s.(savedJobs := s.savedJobs[s.nextId := sj], nextId := s.nextId + 1)
  {
    if sj.userId !in s.users || sj.jobId !in s.jobs || SavedJobOf(s, sj.userId, sj.jobId).Some? then None
    else
      InsertSavedJobValid(s, sj);
      Some(s.(savedJobs := s.savedJobs[s.nextId := sj], nextId := s.nextId + 1))
  }

  lemma InsertSavedJobValid(s: Store, sj: SavedJob)
    requires Valid(s) && sj.userId in s.users && sj.jobId in s.jobs
    requires forall b :: b in s.savedJobs ==> s.savedJobs[b] != sj
    ensures Valid(s.(savedJobs := s.savedJobs[s.nextId := sj], nextId := s.nextId + 1))
  {
    FreshAfter(s, s.(savedJobs := s.savedJobs[s.nextId := sj], nextId := s.nextId + 1));
    UniqueAdd(s.savedJobs, SavedJobPair, s.nextId, sj);
    RefsAdd(s.savedJobs, SavedJobUser, s.users, s.nextId, sj);
    RefsAdd(s.savedJobs, SavedJobJob, s.jobs, s.nextId, sj);
  }

  /** A conversation with a null job never clashes with another: NULLs are
      distinct under a unique constraint. */
  function InsertConversation(s: Store, c: Conversation): (r: Option<Store>)
    requires Valid(s)
    ensures r.Some? <==>
      && c.participant1 in s.users && c.participant2 in s.users
      && (c.jobId.Some? ==> c.jobId.value in s.jobs && forall k :: k in s.conversations ==> s.conversations[k] != c)
    ensures r.Some? ==> Valid(r.value) && r.value == s.(conversations := s.conversations[s.nextId := c], nextId := s.nextId + 1)
  {
    if c.participant1 !in s.users || c.participant2 !in s.users then None
    else if c.jobId.Some? && (c.jobId.value !in s.jobs || exists k :: k in s.conversations && s.conversations[k] == c) then None
    else
      InsertConversationValid(s, c);
      Some(s.(conversations := s.conversations[s.nextId := c], nextId := s.nextId + 1))
  }

  lemma InsertConversationValid(s: Store, c: Conversation)
    requires Valid(s) && c.participant1 in s.users && c.participant2 in s.users
    requires c.jobId.Some? ==> c.jobId.value in s.jobs && forall k :: k in s.conversations ==> s.conversations[k] != c
    ensures Valid(s.(conversations := s.conversations[s.nextId := c], nextId := s.nextId + 1))
  {
    FreshAfter(s, s.(conversations := s.conversations[s.nextId := c], nextId := s.nextId + 1));
    InsertConversationKeys(s.conversations, s.nextId, c);
    InsertConversationRefs(s, c);
  }

  lemma InsertConversationKeys(convs: map<Id, Conversation>, k: Id, c: Conversation)
    requires OneConversationPerTriple(convs) && k !in convs
    requires c.jobId.Some? ==> forall q :: q in convs ==> convs[q] != c
    ensures OneConversationPerTriple(convs[k := c])
  {
  }

  lemma InsertConversationRefs(s: Store, c: Conversation)
    requires ChatRefs(s) && c.participant1 in s.users && c.participant2 in s.users
    requires c.jobId.Some? ==> c.jobId.value in s.jobs
    ensures ChatRefs(s.(conversations := s.conversations[s.nextId := c], nextId := s.nextId + 1))
  {
    RefsAdd(s.conversations, FirstParticipant, s.users, s.nextId, c);
    RefsAdd(s.conversations, SecondParticipant, s.users, s.nextId, c);
    RefsGrow(s.messages, MessageConversation, s.conversations, s.nextId, c);
  }

  /** Inserts a message with the column default `is_read = false`. */
  function InsertMessage(s: Store, conversation: Id, sender: Id, content: string): (r: Option<Store>)
    requires Valid(s)
    ensures r.Some? <==> conversation in s.conversations && sender in s.users
    ensures r.Some? ==> Valid(r.value)
    ensures r.Some? ==>
      r.value == s.(messages := s.messages[s.nextId := Message(conversation, sender, content, false)], nextId := s.nextId + 1)
  {
    if conversation !in s.conversations || sender !in s.users then None
    else
      var m := Message(conversation, sender, content, DefaultIsRead);
      InsertMessageValid(s, m);
      Some(s.(messages := s.messages[s.nextId := m], nextId := s.nextId + 1))
  }

  lemma InsertMessageValid(s: Store, m: Message)
    requires Valid(s) && m.conversationId in s.conversations && m.senderId in s.users
    ensures Valid(s.(messages := s.messages[s.nextId := m], nextId := s.nextId + 1))
  {
    FreshAfter(s, s.(messages := s.messages[s.nextId := m], nextId := s.nextId + 1));
    RefsAdd(s.messages, MessageConversation, s.conversations, s.nextId, m);
    RefsAdd(s.messages, MessageSender, s.users, s.nextId, m);
  }

  // Deletes, with the schema's `on delete` actions.

  function DetachJobs(c: Conversation, gone: set<Id>): Conversation
  {
    if c.jobId.Some? && c.jobId.value in gone then c.(jobId := None) else c
  }

  function WithoutJobs(s: Store, gone: set<Id>): Store
  {
    s.(jobs := map j | j in s.jobs && j !in gone :: s.jobs[j],
       applications := map a | a in s.applications && s.applications[a].jobId !in gone :: s.applications[a],
       savedJobs := map a | a in s.savedJobs && s.savedJobs[a].jobId !in gone :: s.savedJobs[a],
       conversations := map c | c in s.conversations :: DetachJobs(s.conversations[c], gone))
  }

  lemma WithoutJobsValid(s: Store, gone: set<Id>)
    requires Valid(s)
    ensures Valid(WithoutJobs(s, gone))
  {
    WithoutJobsFresh(s, gone);
    WithoutJobsKeys(s, gone);
    WithoutJobsRefs(s, gone);
    DetachKeepsConversations(s, gone);
  }

  lemma WithoutJobsFresh(s: Store, gone: set<Id>)
    requires FreshIds(s)
    ensures FreshIds(WithoutJobs(s, gone))
  {
    FreshAfter(s, WithoutJobs(s, gone));
  }

  lemma WithoutJobsKeys(s: Store, gone: set<Id>)
    requires Keys(s)
    ensures Keys(WithoutJobs(s, gone))
  {
    var t := WithoutJobs(s, gone);
    UniqueSub(t.applications, s.applications, ApplicationPair);
    UniqueSub(t.savedJobs, s.savedJobs, SavedJobPair);
    forall a, b | a in t.conversations && b in t.conversations && t.conversations[a].jobId.Some? && t.conversations[a] == t.conversations[b]
      ensures a == b
    {
      assert t.conversations[a] == s.conversations[a] && t.conversations[b] == s.conversations[b];
    }
  }

  lemma WithoutJobsRefs(s: Store, gone: set<Id>)
    requires SeekerRefs(s)
    ensures SeekerRefs(WithoutJobs(s, gone))
  {
    var t := WithoutJobs(s, gone);
    RefsSub(t.jobs, s.jobs, JobCompany, s.companies, t.companies);
    RefsSub(t.applications, s.applications, ApplicationUser, s.users, t.users);
    RefsSub(t.applications, s.applications, ApplicationJob, s.jobs, t.jobs);
    RefsSub(t.savedJobs, s.savedJobs, SavedJobUser, s.users, t.users);
    RefsSub(t.savedJobs, s.savedJobs, SavedJobJob, s.jobs, t.jobs);
  }

  lemma DetachKeepsConversations(s: Store, gone: set<Id>)
    requires ChatRefs(s)
    ensures ChatRefs(WithoutJobs(s, gone))
  {
    var t := WithoutJobs(s, gone);
    assert forall c :: c in t.conversations ==> FirstParticipant(t.conversations[c]) == FirstParticipant(s.conversations[c]);
    assert forall c :: c in t.conversations ==> SecondParticipant(t.conversations[c]) == SecondParticipant(s.conversations[c]);
  }

  /** Deletes a set of jobs.  Their applications and saved jobs go with them
      (`on delete cascade`); conversations about them survive with a null
      job (`on delete set null`). */
  function DeleteJobs(s: Store, gone: set<Id>): (r: Store)
    requires Valid(s)
    ensures Valid(r)
    ensures forall j :: j in r.jobs <==> j in s.jobs && j !in gone
    ensures SubMap(r.jobs, s.jobs)
    ensures forall a :: a in r.applications <==> a in s.applications && s.applications[a].jobId !in gone
    ensures SubMap(r.applications, s.applications)
    ensures forall a :: a in r.savedJobs <==> a in s.savedJobs && s.savedJobs[a].jobId !in gone
    ensures SubMap(r.savedJobs, s.savedJobs)
    ensures r.conversations.Keys == s.conversations.Keys
    ensures forall c :: c in s.conversations ==> r.conversations[c] == DetachJobs(s.conversations[c], gone)
    ensures r.users == s.users && r.profiles == s.profiles && r.companies == s.companies
    ensures r.messages == s.messages && r.nextId == s.nextId
  {
    WithoutJobsValid(s, gone);
    WithoutJobs(s, gone)
  }

  function DeleteJob(s: Store, job: Id): (r: Store)
    requires Valid(s)
    ensures Valid(r)
    ensures forall j :: j in r.jobs <==> j in s.jobs && j != job
    ensures forall a :: a in r.applications <==> a in s.applications && s.applications[a].jobId != job
    ensures forall a :: a in r.savedJobs <==> a in s.savedJobs && s.savedJobs[a].jobId != job
    ensures SubMap(r.jobs, s.jobs) && SubMap(r.applications, s.applications) && SubMap(r.savedJobs, s.savedJobs)
    ensures r.conversations.Keys == s.conversations.Keys
    ensures forall c :: c in s.conversations ==>
      r.conversations[c] == if s.conversations[c].jobId == Some(job) then s.conversations[c].(jobId := None) else s.conversations[c]
    ensures r.users == s.users && r.profiles == s.profiles && r.companies == s.companies
    ensures r.messages == s.messages && r.nextId == s.nextId
  {
    DeleteJobs(s, {job})
  }

  function JobsOfCompanies(s: Store, cs: set<Id>): (r: set<Id>)
    ensures forall j :: j in r <==> j in s.jobs && s.jobs[j].companyId in cs
  {
    set j | j in s.jobs && s.jobs[j].companyId in cs
  }

  lemma DropCompanyValid(t: Store, company: Id)
    requires Valid(t)
    requires forall j :: j in t.jobs ==> t.jobs[j].companyId != company
    ensures Valid(t.(companies := t.companies - {company}))
  {
    var u := t.(companies := t.companies - {company});
    FreshAfter(t, u);
    UniqueSub(u.companies, t.companies, CompanyOwner);
    RefsSub(u.companies, t.companies, CompanyOwner, t.users, u.users);
    assert RefsTo(u.jobs, JobCompany, u.companies);
  }

  /** Deletes a company; its jobs go with it (`on delete cascade`), and with
      them their applications and saved jobs. */
  function DeleteCompany(s: Store, company: Id): (r: Store)
    requires Valid(s)
    ensures Valid(r)
    ensures forall c :: c in r.companies <==> c in s.companies && c != company
    ensures forall j :: j in r.jobs <==> j in s.jobs && s.jobs[j].companyId != company
    ensures forall a :: a in r.applications <==> a in s.applications && s.applications[a].jobId in r.jobs
    ensures forall a :: a in r.savedJobs <==> a in s.savedJobs && s.savedJobs[a].jobId in r.jobs
    ensures SubMap(r.companies, s.companies) && SubMap(r.jobs, s.jobs)
    ensures SubMap(r.applications, s.applications) && SubMap(r.savedJobs, s.savedJobs)
    ensures r.conversations.Keys == s.conversations.Keys
    ensures forall c :: c in s.conversations ==> r.conversations[c] == DetachJobs(s.conversations[c], JobsOfCompanies(s, {company}))
    ensures r.users == s.users && r.profiles == s.profiles && r.messages == s.messages && r.nextId == s.nextId
  {
    var t := DeleteJobs(s, JobsOfCompanies(s, {company}));
    DropCompanyValid(t, company);
    t.(companies := t.companies - {company})
  }

  function WithoutConversations(s: Store, gone: set<Id>): Store
  {
    s.(conversations := map c | c in s.conversations && c !in gone :: s.conversations[c],
       messages := map m | m in s.messages && s.messages[m].conversationId !in gone :: s.messages[m])
  }

  lemma WithoutConversationsValid(s: Store, gone: set<Id>)
    requires Valid(s)
    ensures Valid(WithoutConversations(s, gone))
  {
    WithoutConversationsFresh(s, gone);
    WithoutConversationsKeys(s, gone);
    WithoutConversationsRefs(s, gone);
  }

  lemma WithoutConversationsFresh(s: Store, gone: set<Id>)
    requires FreshIds(s)
    ensures FreshIds(WithoutConversations(s, gone))
  {
    FreshAfter(s, WithoutConversations(s, gone));
  }

  lemma WithoutConversationsKeys(s: Store, gone: set<Id>)
    requires Keys(s)
    ensures Keys(WithoutConversations(s, gone))
  {
  }

  lemma WithoutConversationsRefs(s: Store, gone: set<Id>)
    requires ChatRefs(s)
    ensures ChatRefs(WithoutConversations(s, gone))
  {
    var t := WithoutConversations(s, gone);
    RefsSub(t.conversations, s.conversations, FirstParticipant, s.users, t.users);
    RefsSub(t.conversations, s.conversations, SecondParticipant, s.users, t.users);
    RefsSub(t.messages, s.messages, MessageConversation, s.conversations, t.conversations);
    RefsSub(t.messages, s.messages, MessageSender, s.users, t.users);
  }

  /** Deletes a set of conversations and, by cascade, their messages. */
  function DeleteConversations(s: Store, gone: set<Id>): (r: Store)
    requires Valid(s)
    ensures Valid(r)
    ensures forall c :: c in r.conversations <==> c in s.conversations && c !in gone
    ensures forall m :: m in r.messages <==> m in s.messages && s.messages[m].conversationId !in gone
    ensures SubMap(r.conversations, s.conversations) && SubMap(r.messages, s.messages)
    ensures r.users == s.users && r.profiles == s.profiles && r.companies == s.companies && r.jobs == s.jobs
    ensures r.applications == s.applications && r.savedJobs == s.savedJobs && r.nextId == s.nextId
  {
    WithoutConversationsValid(s, gone);
    WithoutConversations(s, gone)
  }

  function DeleteConversation(s: Store, conversation: Id): (r: Store)
    requires Valid(s)
    ensures Valid(r)
    ensures forall c :: c in r.conversations <==> c in s.conversations && c != conversation
    ensures forall m :: m in r.messages <==> m in s.messages && s.messages[m].conversationId != conversation
    ensures SubMap(r.conversations, s.conversations) && SubMap(r.messages, s.messages)
    ensures r.users == s.users && r.profiles == s.profiles && r.companies == s.companies && r.jobs == s.jobs
    ensures r.applications == s.applications && r.savedJobs == s.savedJobs && r.nextId == s.nextId
  {
    DeleteConversations(s, {conversation})
  }

  function WithoutUserRows(s: Store, user: Id): Store
  {
    s.(users := s.users - {user},
       profiles := map p | p in s.profiles && s.profiles[p].userId != user :: s.profiles[p],
       companies := map c | c in s.companies && s.companies[c].userId != user :: s.companies[c],
       applications := map a | a in s.applications && s.applications[a].userId != user :: s.applications[a],
       savedJobs := map a | a in s.savedJobs && s.savedJobs[a].userId != user :: s.savedJobs[a],
       messages := map m | m in s.messages && s.messages[m].senderId != user :: s.messages[m])
  }

  /** Once no job of the user's company and no conversation of the user is
      left, dropping the user's own rows keeps every constraint. */
  lemma WithoutUserRowsValid(s: Store, user: Id)
    requires Valid(s)
    requires forall j :: j in s.jobs ==> s.companies[s.jobs[j].companyId].userId != user
    requires forall c :: c in s.conversations ==> s.conversations[c].participant1 != user && s.conversations[c].participant2 != user
    ensures Valid(WithoutUserRows(s, user))
  {
    WithoutUserRowsFresh(s, user);
    WithoutUserRowsKeys(s, user);
    WithoutUserRowsSeekerRefs(s, user);
    WithoutUserRowsChatRefs(s, user);
  }

  lemma WithoutUserRowsFresh(s: Store, user: Id)
    requires FreshIds(s)
    ensures FreshIds(WithoutUserRows(s, user))
  {
    FreshAfter(s, WithoutUserRows(s, user));
  }

  lemma WithoutUserRowsKeys(s: Store, user: Id)
    requires Keys(s)
    ensures Keys(WithoutUserRows(s, user))
  {
    var t := WithoutUserRows(s, user);
    UniqueSub(t.users, s.users, EmailOf);
    UniqueSub(t.profiles, s.profiles, ProfileOwner);
    UniqueSub(t.companies, s.companies, CompanyOwner);
    UniqueSub(t.applications, s.applications, ApplicationPair);
    UniqueSub(t.savedJobs, s.savedJobs, SavedJobPair);
  }

  lemma WithoutUserRowsSeekerRefs(s: Store, user: Id)
    requires SeekerRefs(s)
    requires forall j :: j in s.jobs ==> s.companies[s.jobs[j].companyId].userId != user
    ensures SeekerRefs(WithoutUserRows(s, user))
  {
    var t := WithoutUserRows(s, user);
    RefsSub(t.profiles, s.profiles, ProfileOwner, s.users, t.users);
    RefsSub(t.companies, s.companies, CompanyOwner, s.users, t.users);
    RefsSub(s.jobs, s.jobs, JobCompany, s.companies, t.companies);
    RefsSub(t.applications, s.applications, ApplicationUser, s.users, t.users);
    RefsSub(t.savedJobs, s.savedJobs, SavedJobUser, s.users, t.users);
  }

  lemma WithoutUserRowsChatRefs(s: Store, user: Id)
    requires ChatRefs(s)
    requires forall c :: c in s.conversations ==> s.conversations[c].participant1 != user && s.conversations[c].participant2 != user
    ensures ChatRefs(WithoutUserRows(s, user))
  {
    var t := WithoutUserRows(s, user);
    RefsSub(s.conversations, s.conversations, FirstParticipant, s.users, t.users);
    RefsSub(s.conversations, s.conversations, SecondParticipant, s.users, t.users);
    RefsSub(t.messages, s.messages, MessageSender, s.users, t.users);
  }

  /** The jobs posted by the companies a user owns. */
  function OwnedJobs(s: Store, user: Id): (r: set<Id>)
    ensures forall j :: j in r <==>
      j in s.jobs && s.jobs[j].companyId in s.companies && s.companies[s.jobs[j].companyId].userId == user
  {
    JobsOfCompanies(s, set c | c in s.companies && s.companies[c].userId == user)
  }

  predicate Involves(c: Conversation, user: Id)
  {
    c.participant1 == user || c.participant2 == user
  }

  /** The first two stages of deleting a user: the jobs of the user's
      companies go (with their cascades), then the user's conversations. */
  function ClearUserDependents(s: Store, user: Id): (r: Store)
    requires Valid(s)
    ensures Valid(r)
    ensures r.users == s.users && r.profiles == s.profiles && r.companies == s.companies && r.nextId == s.nextId
    ensures forall j :: j in r.jobs <==> j in s.jobs && j !in OwnedJobs(s, user)
    ensures forall a :: a in r.applications <==> a in s.applications && s.applications[a].jobId !in OwnedJobs(s, user)
    ensures forall a :: a in r.savedJobs <==> a in s.savedJobs && s.savedJobs[a].jobId !in OwnedJobs(s, user)
    ensures SubMap(r.jobs, s.jobs) && SubMap(r.applications, s.applications) && SubMap(r.savedJobs, s.savedJobs)
    ensures forall c :: c in r.conversations <==> c in s.conversations && !Involves(s.conversations[c], user)
    ensures forall c :: c in r.conversations ==> r.conversations[c] == DetachJobs(s.conversations[c], OwnedJobs(s, user))
    ensures forall m :: m in r.messages <==> m in s.messages && s.messages[m].conversationId in r.conversations
    ensures SubMap(r.messages, s.messages)
    ensures forall j :: j in r.jobs ==> r.companies[r.jobs[j].companyId].userId != user
    ensures forall c :: c in r.conversations ==> !Involves(r.conversations[c], user)
  {
    var t := DeleteJobs(s, OwnedJobs(s, user));
    var involved := set c | c in t.conversations && Involves(t.conversations[c], user);
    DeleteConversations(t, involved)
  }

  /** Deletes a user.  Everything that references the user goes: the profile,
      the company and transitively its jobs, the user's applications and
      saved jobs, the conversations the user takes part in with their
      messages, and the messages the user sent. */
  function DeleteUser(s: Store, user: Id): (r: Store)
    requires Valid(s)
    ensures Valid(r)
    ensures forall u :: u in r.users <==> u in s.users && u != user
    ensures forall p :: p in r.profiles <==> p in s.profiles && s.profiles[p].userId != user
    ensures forall c :: c in r.companies <==> c in s.companies && s.companies[c].userId != user
    ensures forall j :: j in r.jobs <==> j in s.jobs && j !in OwnedJobs(s, user)
    ensures forall a :: a in r.applications <==>
      a in s.applications && s.applications[a].userId != user && s.applications[a].jobId !in OwnedJobs(s, user)
    ensures forall a :: a in r.savedJobs <==>
      a in s.savedJobs && s.savedJobs[a].userId != user && s.savedJobs[a].jobId !in OwnedJobs(s, user)
    ensures forall c :: c in r.conversations <==> c in s.conversations && !Involves(s.conversations[c], user)
    ensures forall c :: c in r.conversations ==> r.conversations[c] == DetachJobs(s.conversations[c], OwnedJobs(s, user))
    ensures forall m :: m in r.messages <==>
      m in s.messages && s.messages[m].senderId != user && s.messages[m].conversationId in r.conversations
    ensures SubMap(r.users, s.users) && SubMap(r.profiles, s.profiles) && SubMap(r.companies, s.companies)
    ensures SubMap(r.jobs, s.jobs) && SubMap(r.applications, s.applications) && SubMap(r.savedJobs, s.savedJobs)
    ensures SubMap(r.messages, s.messages) && r.nextId == s.nextId
  {
    var u := ClearUserDependents(s, user);
    WithoutUserRowsValid(u, user);
    WithoutUserRows(u, user)
  }

}
