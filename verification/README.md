# Job board backend — a Dafny model

This project models the server side of a job board. Job seekers keep a
profile, browse and save job postings, and apply to them. Employers keep a
company profile, post jobs, review applications and browse candidates. A
small socket relay fans chat messages out to conversation rooms.

The model has three layers.

- **`Schema`** (`schema.dfy`) is the relational database as an immutable
  store: one map per table, keyed by primary key. `Valid` collects what the
  schema declares: unique columns, foreign keys, compound unique keys and
  fresh ids. The `Insert*` functions are the database's own enforcement. An
  insert that would break a constraint is refused, and every `on delete`
  action (cascade, set null) is carried out by the `Delete*` functions.
- **One module per controller**: `Jobs`, `Applications`, `SavedJobs`,
  `Profiles`, `Companies`, `Candidates` and `Auth`. Each endpoint is a pure
  function from the caller, the request and the store to a reply (HTTP
  status plus data or error text) and the next store. The role checks,
  validation order, error texts and status codes are those of the
  controllers. `Text` models the `ilike` patterns the listings build.
- **`Relay`** (`relay.dfy`) is the socket layer: the process-wide registry
  from user id to socket id, room membership, the `connection` event (which
  puts the socket in socket.io's room named by its own id), and the
  `register`, `join_conversation`, `send_message`, `message_read` and
  `disconnect` events. It does not import `Schema`, so no socket event reads or writes a
  table.

Behaviour of the code that the model keeps as written:

- The candidate browse endpoint ORs its filters. A search plus a location
  lists everyone matching either, so adding a location can list *more*
  candidates.
- The job listing filters on remoteness only for the exact text `"true"`.
- Search text is put into `ilike` patterns unescaped, so `%` and `_` in it
  act as wildcards.
- A caller whose user row has been deleted still passes the role check.
  Their insert then fails its foreign key, and the endpoint replies 500
  with the store unchanged.
- `disconnect` removes only the first registry entry of the closing
  socket.
- A room is named by a bare conversation id, in the same namespace as
  socket.io's own per-socket rooms, so a conversation id equal to a socket
  id reaches that socket.

## Model

| member | source | states |
|---|---|---|
| `Text.ILikeIsSubstring` | server/controllers/jobs.controller.ts:44-52 | For search text without `%`, `_` or `\`, the `ilike '%text%'` filter is exactly case-insensitive substring search. |
| `Text.UnderscoreIsWildcard` | server/controllers/jobs.controller.ts:44-52 | An `_` in search text matches any character, so "a_c" finds "ABC", which does not contain "a_c". |
| `Text.LikeLeadingPercent` | server/controllers/jobs.controller.ts:44-52 | A pattern starting with `%` matches a text exactly when the rest of the pattern matches some suffix of it. |
| `Schema.UserByEmail` | db/schema/index.ts:7 | Finds the one user with the email, or reports that no user has it. |
| `Schema.ProfileOf` | db/schema/index.ts:18 | Finds the one profile of a user, or reports that the user has none. |
| `Schema.CompanyOf` | db/schema/index.ts:34 | Finds the one company of a user, or reports that the user has none. |
| `Schema.ApplicationOf` | db/schema/index.ts:75-77 | Finds the one application of a user to a job, or reports that there is none. |
| `Schema.SavedJobOf` | db/schema/index.ts:85-87 | Finds the one saved-job row of a user and a job, or reports that there is none. |
| `Schema.InsertUser` | db/schema/index.ts:5-13 | Succeeds exactly when the email is unused; the result adds one user under a fresh id and keeps every constraint. |
| `Schema.InsertProfile` | db/schema/index.ts:16-29 | Succeeds exactly when the owner exists and has no profile yet; the result keeps every constraint. |
| `Schema.InsertCompany` | db/schema/index.ts:32-44 | Succeeds exactly when the owner exists and has no company yet; the result keeps every constraint. |
| `Schema.InsertJob` | db/schema/index.ts:47-64 | Succeeds exactly when the company exists; the result keeps every constraint. |
| `Schema.InsertApplication` | db/schema/index.ts:67-77 | Succeeds exactly when the user and job exist and the pair is new; the result keeps every constraint. |
| `Schema.InsertSavedJob` | db/schema/index.ts:80-87 | Succeeds exactly when the user and job exist and the pair is new; the result keeps every constraint. |
| `Schema.InsertConversation` | db/schema/index.ts:90-99 | Succeeds exactly when both participants and any job exist, and no equal triple with a non-null job exists; NULL jobs never clash. |
| `Schema.InsertMessage` | db/schema/index.ts:102-109 | Succeeds exactly when the conversation and sender exist; the result is the old store plus one unread message under a fresh id, and nothing else changes. |
| `Schema.DeleteJobs` | db/schema/index.ts:70-94 | Deleting jobs deletes their applications and saved-job rows, and sets `jobId` to null in conversations; nothing else changes and every constraint holds. |
| `Schema.DeleteJob` | db/schema/index.ts:70-94 | Deleting a job deletes exactly its applications and saved-job rows; conversations about it keep their row with a null job; every other row and table is unchanged. |
| `Schema.DeleteCompany` | db/schema/index.ts:49-83 | Deleting a company deletes exactly its jobs and their applications and saved jobs; conversations about those jobs get a null job; users, profiles, messages and all surviving rows are unchanged. |
| `Schema.DeleteConversations` | db/schema/index.ts:104 | Deleting conversations deletes their messages and nothing else. |
| `Schema.DeleteConversation` | db/schema/index.ts:104 | Deleting a conversation deletes exactly it and its messages; every other row and table is unchanged. |
| `Schema.ClearUserDependents` | db/schema/index.ts:34-94 | Deletes exactly the jobs of the user's companies with their applications and saved jobs, and exactly the user's conversations with their messages; other conversations lose only references to the deleted jobs; users, profiles and companies are unchanged. |
| `Schema.DeleteUser` | db/schema/index.ts:18-105 | Each table keeps exactly the rows that reach the user through no cascade (other users, their profiles and companies, jobs of other companies, and so on), unchanged except for the nulled job of a conversation; every constraint holds. |
| `Jobs.Conditions` | server/controllers/jobs.controller.ts:42-76 | The listing's condition list: first the "active" condition, then at most seven more. |
| `Jobs.ConditionsMeanListed` | server/controllers/jobs.controller.ts:42-76 | The `and(...)` of the condition list holds exactly when the job meets the filter-by-filter specification `Listed`. |
| `Jobs.HeadMeansListed` | server/controllers/jobs.controller.ts:42-60 | The status, search, location and employment-type conditions mean their part of `Listed`. |
| `Jobs.TailMeansListed` | server/controllers/jobs.controller.ts:62-76 | The experience, remote and salary conditions mean their part of `Listed`. |
| `Jobs.AllHoldAppend` | server/controllers/jobs.controller.ts:78 | `and` over two concatenated condition lists is the conjunction of the two. |
| `Jobs.GetAllJobs` | server/controllers/jobs.controller.ts:7-85 | Lists exactly the jobs that meet `Listed`; the join with companies drops none. |
| `Jobs.NoFiltersListsActive` | server/controllers/jobs.controller.ts:42 | With no filter, the listing is exactly the active jobs. |
| `Jobs.RemoteFilterOnlyForTrue` | server/controllers/jobs.controller.ts:66-68 | Any `isRemote` text other than "true" lists the same jobs as no `isRemote` at all. |
| `Jobs.MoreFiltersListFewer` | server/controllers/jobs.controller.ts:54-56 | Adding a location filter never lists more jobs. |
| `Jobs.GetJobById` | server/controllers/jobs.controller.ts:87-125 | Finds a job of any status and shows every column but its company id, with only the company's id, name, description, logo, location and website; otherwise 404 "Job not found". |
| `Jobs.NewJob` | server/controllers/jobs.controller.ts:158-172 | The new row carries every field of the body; an absent currency becomes "USD", the job is remote only for `isRemote: true`, and the status is "active". |
| `Jobs.CreateJob` | server/controllers/jobs.controller.ts:127-179 | 403 "Only employers can create jobs" exactly for non-employers; succeeds with 201 exactly for an employer with a company and a non-empty title and description; the one job added belongs to the caller's company and carries the body's fields. |
| `Jobs.CreateForEmployer` | server/controllers/jobs.controller.ts:133-172 | 400 "Please create a company profile first" without a company, before the body is checked; otherwise the outcome of the title and description check and the insert. |
| `Jobs.CreateCompanyJob` | server/controllers/jobs.controller.ts:154-172 | 400 "Title and description are required" unless both are given; otherwise one job carrying the body's fields is added and nothing else changes. |
| `Jobs.PatchJob` | server/controllers/jobs.controller.ts:205-209 | Each column takes the body's value when the body carries the field and keeps its old value otherwise; the company never changes. |
| `Jobs.PatchJobIgnoresIdentity` | server/controllers/jobs.controller.ts:205-207 | The `id` and `companyId` of an update body have no effect. |
| `Jobs.PatchJobEmpty` | server/controllers/jobs.controller.ts:209 | An empty update body leaves the job as it was. |
| `Jobs.PatchJobIdempotent` | server/controllers/jobs.controller.ts:209 | Applying the same update twice is applying it once. |
| `Jobs.UpdateJob` | server/controllers/jobs.controller.ts:181-216 | 403 for non-employers, 400 "Company profile not found" without a company, 404 unless the caller's company owns the job; on success only that job changes, and it keeps its company. |
| `Jobs.DeleteJob` | server/controllers/jobs.controller.ts:218-249 | 403 for non-employers, 400 without a company; succeeds exactly when the caller's company owns the job, and the result is the schema's cascading delete of that job. |
| `Jobs.DeletedJobIsGone` | server/controllers/jobs.controller.ts:242 | After a delete, the job is not found, no application or saved job refers to it, and conversations survive with the job cleared. |
| `Jobs.GetMyJobs` | server/controllers/jobs.controller.ts:251-271 | Lists exactly the jobs of the caller's company, of any status; an employer without a company gets an empty list. |
| `Jobs.CreatedJobIsVisible` | server/controllers/jobs.controller.ts:158-172 | A new job is among the employer's jobs and in the unfiltered listing. |
| `Jobs.CreatedJobReadsBack` | server/controllers/jobs.controller.ts:158-172 | Fetching a new job by id returns the row built from the body, with status "active", joined with the employer's company card. |
| `Applications.ParseStatus` | server/controllers/applications.controller.ts:133-136 | Accepts a text only when it is the wire form of the status it returns. |
| `Applications.ParseStatusText` | server/controllers/applications.controller.ts:133-136 | Every status's wire form is accepted as that status. |
| `Applications.ParseStatusAccepts` | server/controllers/applications.controller.ts:133-136 | A text is accepted exactly when it is some status's wire form. |
| `Applications.ApplyToJob` | server/controllers/applications.controller.ts:7-47 | 403, then 400 without a job id, 404 for an unknown job, 400 for a repeat application; otherwise one pending application with the cover letter is added. |
| `Applications.Apply` | server/controllers/applications.controller.ts:27-40 | Refuses a repeat application and replies 500 when the applicant's user row is gone; otherwise adds exactly one application. |
| `Applications.ApplyTwiceRefused` | server/controllers/applications.controller.ts:27-33 | Applying again to the same job is refused with the store unchanged. |
| `Applications.AppliedIsListed` | server/controllers/applications.controller.ts:34-76 | An application just submitted is among the applicant's own applications. |
| `Applications.GetMyApplications` | server/controllers/applications.controller.ts:49-76 | Lists exactly the caller's applications. |
| `Applications.GetJobApplications` | server/controllers/applications.controller.ts:78-123 | 403 for non-employers, 400 without a company; succeeds exactly when the caller's company owns the job, and then lists exactly that job's applications. |
| `Applications.UpdateApplicationStatus` | server/controllers/applications.controller.ts:125-168 | 403, then 400 "Invalid status" before any company check, then 400 "Company profile not found", then 404 unless the company owns the job applied to; on success the status is set. |
| `Applications.SetStatus` | server/controllers/applications.controller.ts:139-161 | Replies 400 exactly when the employer has no company; succeeds exactly when their company owns the application's job. |
| `Applications.UpdateStatusIdempotent` | server/controllers/applications.controller.ts:158-161 | Setting the same status twice leaves the store as setting it once. |
| `Applications.UpdateStatusFrame` | server/controllers/applications.controller.ts:158-161 | A status update changes only the status of the one application; every other table and row is unchanged. |
| `SavedJobs.SaveJob` | server/controllers/savedJobs.controller.ts:7-45 | 403, then 400 without a job id, 404 for an unknown job, 400 "Job already saved"; otherwise exactly one row is added. |
| `SavedJobs.Save` | server/controllers/savedJobs.controller.ts:27-38 | Refuses a duplicate and replies 500 when the user row is gone; otherwise adds exactly one row. |
| `SavedJobs.UnsaveJob` | server/controllers/savedJobs.controller.ts:47-64 | 403 for non-job-seekers; otherwise removes exactly the caller's rows for the job and replies success even when there was none. |
| `SavedJobs.UnsaveIdempotent` | server/controllers/savedJobs.controller.ts:55-57 | Unsaving twice is unsaving once. |
| `SavedJobs.UnsaveUndoesSave` | server/controllers/savedJobs.controller.ts:55-57 | Unsaving a job just saved restores the saved jobs as they were. |
| `SavedJobs.GetSavedJobs` | server/controllers/savedJobs.controller.ts:66-97 | Lists exactly the caller's saved jobs. |
| `SavedJobs.SaveLeavesApplications` | server/controllers/savedJobs.controller.ts:35-38 | Saving a job never changes the applications. |
| `SavedJobs.DropRow` | server/controllers/savedJobs.controller.ts:55-57 | The rows kept are exactly those not equal to the deleted pair, and none is altered. |
| `Profiles.GetProfile` | server/controllers/profile.controller.ts:7-24 | 401 without a caller, 404 without a profile; otherwise the caller's own profile. |
| `Profiles.CreateProfile` | server/controllers/profile.controller.ts:26-67 | 403, then 400 "Profile already exists"; otherwise one profile carrying exactly the body's fields is added for the caller. |
| `Profiles.CreatedProfileReadBack` | server/controllers/profile.controller.ts:50-60 | A profile just created is what its owner reads back. |
| `Profiles.PatchProfile` | server/controllers/profile.controller.ts:75-82 | Each column takes the body's value when the body carries the field and keeps its old value otherwise; the owner never changes. |
| `Profiles.PatchProfileIgnoresIdentity` | server/controllers/profile.controller.ts:75-77 | The `id` and `userId` of an update body have no effect. |
| `Profiles.PatchProfileIdempotent` | server/controllers/profile.controller.ts:79-82 | Applying the same update twice is applying it once. |
| `Profiles.UpdateProfile` | server/controllers/profile.controller.ts:69-93 | 403, then 404 without a profile; otherwise the caller's profile, and only it, takes the body's fields. |
| `Profiles.UpdateProfileOnlyOwn` | server/controllers/profile.controller.ts:79-82 | An update leaves every other profile as it was, keeps every owner, and the caller reads back the updated profile. |
| `Profiles.GetPublicProfile` | server/controllers/profile.controller.ts:95-124 | Looks a profile up by its owner's user id without checking the caller; shows every column but the phone and resume link, plus the owner's name; 404 without a profile. |
| `Profiles.PublicProfileHidesContact` | server/controllers/profile.controller.ts:99-113 | The public view does not depend on the phone number or the resume link. |
| `Companies.GetCompany` | server/controllers/company.controller.ts:7-24 | 401 without a caller, 404 without a company; otherwise the caller's own company. |
| `Companies.CreateCompany` | server/controllers/company.controller.ts:26-69 | 403 exactly for non-employers; succeeds exactly for an employer with no company yet, a non-empty name and an existing user row; success adds one company carrying exactly the body's fields. |
| `Companies.Create` | server/controllers/company.controller.ts:33-62 | 400 "Company already exists" comes before 400 "Company name is required"; success adds one company carrying exactly the body's fields. |
| `Companies.Found` | server/controllers/company.controller.ts:53-62 | The insert replies 500 exactly when the owner's user row is gone; otherwise one company is added. |
| `Companies.CreatedCompanyReadBack` | server/controllers/company.controller.ts:33-37 | A company just created is what its owner reads back, and any second create is refused. |
| `Companies.PatchCompany` | server/controllers/company.controller.ts:77-84 | Each column takes the body's value when the body carries the field and keeps its old value otherwise; the owner never changes. |
| `Companies.PatchCompanyIgnoresIdentity` | server/controllers/company.controller.ts:77-79 | The `id` and `userId` of an update body have no effect. |
| `Companies.PatchCompanyIdempotent` | server/controllers/company.controller.ts:81-84 | Applying the same update twice is applying it once. |
| `Companies.UpdateCompany` | server/controllers/company.controller.ts:71-95 | 403, then 404 without a company; otherwise the caller's company, and only it, takes the body's fields. |
| `Companies.UpdateCompanyOnlyOwn` | server/controllers/company.controller.ts:81-84 | An update leaves every other company as it was, keeps every owner, and the caller reads back the updated company. |
| `Candidates.Conditions` | server/controllers/candidates.controller.ts:27-41 | The list is empty exactly when neither filter text is given. |
| `Candidates.ConditionsMeanMatches` | server/controllers/candidates.controller.ts:29-48 | "All rows when the list is empty, else `or(...)`" holds exactly when the candidate meets the filter-by-filter specification `Matches`. |
| `Candidates.AnyHoldsAppend` | server/controllers/candidates.controller.ts:47 | `or` over two concatenated condition lists is the disjunction of the two. |
| `Candidates.GetAllCandidates` | server/controllers/candidates.controller.ts:7-55 | 403 for non-employers; otherwise lists exactly the profiles that meet `Matches`. |
| `Candidates.NoFiltersListsEveryone` | server/controllers/candidates.controller.ts:46-48 | With no filter, every profile is listed. |
| `Candidates.LocationWidensSearch` | server/controllers/candidates.controller.ts:39-47 | With a search given, adding a location never hides a candidate, and lists every candidate in that location. |
| `Candidates.SearchAndLocationIsNotNarrower` | server/controllers/candidates.controller.ts:39-47 | A candidate who fails the search but matches the location is hidden by the search alone and listed by search plus location. |
| `Candidates.GetCandidateById` | server/controllers/candidates.controller.ts:57-92 | 403 for non-employers, 404 "Candidate not found" without a profile; otherwise every column of that profile but the phone and resume link, with the owner's name and email. |
| `Candidates.ListedCandidateOpens` | server/controllers/candidates.controller.ts:65-81 | Every listed candidate opens by its owner's id and shows that same profile. |
| `Candidates.CandidateHidesContact` | server/controllers/candidates.controller.ts:65-77 | The single view does not depend on the phone number or the resume link. |
| `Auth.ParseRole` | server/controllers/auth.controller.ts:18-20 | Accepts exactly "job_seeker" and "employer", as the role they name. |
| `Auth.RoleRoundTrip` | server/controllers/auth.controller.ts:18-20 | Every role's text parses back to that role. |
| `Auth.SessionOf` | server/controllers/auth.controller.ts:41-56 | The token and the user view carry the same id, email and role. |
| `Auth.Signup` | server/controllers/auth.controller.ts:9-61 | 400 for a missing field, then for a bad role, then for a used email; otherwise one user with the hashed password is added, and the reply is its token and view. Never 500. |
| `Auth.Login` | server/controllers/auth.controller.ts:63-107 | 400 for a missing field; succeeds exactly when the email exists and the password matches its digest; an unknown email and a wrong password get the identical 401. |
| `Auth.GetMe` | server/controllers/auth.controller.ts:109-131 | 401 without a caller, 404 when the caller's user row is gone; otherwise the caller's view. |
| `Auth.SignupThenLogin` | server/controllers/auth.controller.ts:63-102 | Logging in with the signup credentials yields the very session the signup returned. |
| `Auth.SignupThenGetMe` | server/controllers/auth.controller.ts:109-126 | The signup token authenticates "who am I", which shows the signed-up user. |
| `Auth.SignupTwiceRefused` | server/controllers/auth.controller.ts:23-27 | A second signup with the same email is refused with the store unchanged. |
| `Auth.OnlyThePasswordLogsIn` | server/controllers/auth.controller.ts:80-84 | With password hashing taken as injective, two passwords that both log in to one account are equal. |
| `Relay.Lookup` | server/index.ts:51 | Finds the socket of a user, or reports that the user is not registered. |
| `Relay.Set` | server/index.ts:58 | `Map.set`: afterwards the user maps to the socket and every other user is unchanged; an existing key keeps its place in insertion order, and a new key is appended last. |
| `Relay.SetKeepsUnique` | server/index.ts:58 | Setting a key keeps one entry per user. |
| `Relay.Unregister` | server/index.ts:87-93 | Removes at most one entry, and changes nothing when no entry has the socket. |
| `Relay.UnregisterRemovesFirst` | server/index.ts:87-93 | It removes exactly the first entry, in insertion order, whose socket is the closing one. |
| `Relay.RemoveFirst` | server/index.ts:87-93 | The loop with `break`: removes the first matching entry, or none. |
| `Relay.UnregisterKeepsOthers` | server/index.ts:87-93 | A user not mapped to the closing socket keeps their entry. |
| `Relay.UnregisterForgets` | server/index.ts:87-93 | The user whose entry is removed is no longer registered. |
| `Relay.Register` | server/index.ts:57-60 | Maps the user to the sending socket, overwriting any earlier one; other users and rooms are unchanged. |
| `Relay.Connect` | server/index.ts:53 | On connection the socket is in the room named by its own id, as socket.io does for every socket; nothing else changes. |
| `Relay.RegisterIdempotent` | server/index.ts:57-60 | Registering twice is registering once, and re-registering from a new socket replaces the old one. |
| `Relay.Join` | server/index.ts:63-66 | Adds the socket to the room with no check, and nothing else. |
| `Relay.SendMessage` | server/index.ts:69-77 | Emits `new_message` with the data unchanged to exactly the sockets in the room named by the conversation id. |
| `Relay.ReadMessage` | server/index.ts:80-82 | Emits `message_read` with the data unchanged to exactly the sockets in the room named by the conversation id. |
| `Relay.Disconnect` | server/index.ts:85-95 | Users not mapped to the closing socket keep their entries, and the socket leaves every room. |
| `Relay.JoinedSocketReceives` | server/index.ts:63-77 | A socket that joins a room receives what is sent there, its own messages included. |
| `Relay.OwnRoomReceives` | server/index.ts:53-82 | A message sent to a conversation id equal to a connected socket's id reaches that socket, which never joined that conversation. |
| `Relay.DisconnectedSocketReceivesNothing` | server/index.ts:85-95 | A disconnected socket receives no later message or read receipt. |
| `Relay.RegisterThenDisconnect` | server/index.ts:57-93 | A user registered from a socket nobody else uses is forgotten when that socket closes. |
| `Relay.StaleEntryAfterDisconnect` | server/index.ts:85-93 | When two users registered from one socket, closing it removes only the first; the second keeps pointing at the closed socket. |

## Left out

- Unexpected database and runtime errors are left out: a lost connection, or a malformed uuid string that Postgres rejects. Each controller maps them to 500 "Internal server error". The model keeps one such path, the failed foreign key of an insert by a deleted user.
- Requests are atomic transitions. The check-then-insert races between concurrent requests are not modelled, nor is socket.io's transport delivery.
- Row ids come from a counter above every id in use, standing in for `defaultRandom()` uuids. Timestamp columns (`createdAt`, `updatedAt`, `appliedAt`, `savedAt`) are not modelled, since no rule depends on them.
- `varchar` length limits are not modelled; strings are unbounded.
- Request bodies carry each field as absent or as a value. An explicit JSON `null` and non-string values (arrays from repeated query keys, numbers for text fields) are not modelled.
- `Number()` parsing of the salary query strings is reduced to the parsed integer; `NaN` and fractional values are not modelled.
- Listings are sets of ids. The queries have no `order by`, so row order is not modelled. The joined columns each listing selects are not modelled either; the single-row endpoints (a job, a public profile, a candidate) do return their projections.
- Password hashing is an injective function, and bcrypt's salt and cost factor are not modelled. A token is its payload `{id, email, role}`: the JWT signature, secret and expiry, and the authentication middleware that decodes the token into a caller, are not modelled.
- `Auth.OnlyThePasswordLogsIn`: holds for the injective hash of the model. Node's `bcrypt` uses only the first 72 bytes of a password, so two long passwords sharing those bytes both log in; that truncation is not modelled.
- `Text.LowerChar`: folds case for ASCII letters only. PostgreSQL's `ilike` folds by the database's locale, so "É" and "é" match there and not here.
- The routes run the `authenticate` and `requireRole` middleware before most controllers. The model takes each controller's own checks only, so a controller that checks no role (such as `getProfile`) accepts any signed-in caller in the model.
- Conversations and messages have no controller in this backend. The model covers their table constraints, inserts and cascades, but no endpoint creates or reads them.
- `Schema.DeleteUser`: no controller deletes users. It is modelled to show that the declared cascades leave no dangling reference.
- The socket events do not check who sent them: `join_conversation` admits any socket to any room, and `send_message` trusts the sender id. Messages sent over the relay are not written to the `messages` table.
- Logging (`console.log`, `console.error`) and the HTTP wiring (routes, CORS, the health check, listening on a port) are not modelled.
- The relay's keys are plain strings. Nothing ties a registered user id to a row in `users`, because the relay never consults the database.
