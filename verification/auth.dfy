/** The authentication endpoints: sign up, log in, and "who am I".

    A token stands for its payload: signing, the secret and the expiry are
    outside the model, so a token is the triple the controller signs. */
module Auth {

  import opened Wrappers
  import opened Schema
  import opened Api

  /** The text of a role, as stored and as sent by clients. */
  function RoleText(r: Role): string
  {
    match r
    case JobSeeker => "job_seeker"
    case Employer => "employer"
  }

  /** `['job_seeker', 'employer'].includes(role)`, returning the role. */
  function ParseRole(text: string): (r: Option<Role>)
    ensures r.Some? <==> text == "job_seeker" || text == "employer"
    ensures r.Some? ==> RoleText(r.value) == text
  {
    if text == "job_seeker" then Some(JobSeeker)
    else if text == "employer" then Some(Employer)
    else None
  }

  lemma RoleRoundTrip(r: Role)
    ensures ParseRole(RoleText(r)) == Some(r)
  {
  }

  datatype SignupRequest = SignupRequest(
    email: Option<string>,
    password: Option<string>,
    name: Option<string>,
    role: Option<string>)

  datatype LoginRequest = LoginRequest(email: Option<string>, password: Option<string>)

  /** The payload the controller signs. */
  datatype Token = Token(id: Id, email: string, role: Role)

  /** The user as the replies show it: never the password digest. */
  datatype UserView = UserView(id: Id, email: string, name: string, role: Role)

  /** The body of a successful signup or login. */
  datatype Session = Session(token: Token, user: UserView)

  function ViewOf(id: Id, u: User): (r: UserView)
    ensures r.id == id && r.email == u.email && r.name == u.name && r.role == u.role
  {
    UserView(id, u.email, u.name, u.role)
  }

  /** The token and the user view for a stored user: both carry the same id,
      email and role. */
  function SessionOf(id: Id, u: User): (r: Session)
    ensures r.token.id == r.user.id == id
    ensures r.token.email == r.user.email == u.email
    ensures r.token.role == r.user.role == u.role
  {
    Session(Token(id, u.email, u.role), ViewOf(id, u))
  }

  /** What the authentication layer makes of a token. */
  function CallerOf(t: Token): (r: Caller)
    ensures r.id == t.id && r.role == t.role
  {
    Caller(t.id, t.role)
  }

  predicate AllGiven(b: SignupRequest)
  {
    Given(b.email) && Given(b.password) && Given(b.name) && Given(b.role)
  }

  /** `POST /api/auth/signup`.  The email check runs before the insert, so
      the unique constraint on `users.email` never fires here. */
  function Signup(b: SignupRequest, s: Store): (r: Step<Session>)
    requires Valid(s)
    ensures Valid(r.store)
    ensures r.reply.Failure? ==> r.store == s && r.reply.status == BadRequest
    ensures !AllGiven(b) ==> r.reply == Failure(BadRequest, "All fields are required")
    ensures AllGiven(b) && ParseRole(b.role.value).None? ==>
      r.reply == Failure(BadRequest, "Invalid role. Must be job_seeker or employer")
    ensures AllGiven(b) && ParseRole(b.role.value).Some? && UserByEmail(s, b.email.value).Some? ==>
      r.reply == Failure(BadRequest, "User with this email already exists")
    ensures r.reply.Success? <==>
      AllGiven(b) && ParseRole(b.role.value).Some? && UserByEmail(s, b.email.value).None?
    ensures r.reply.Success? ==>
      && r.reply.status == Created
      && var id := r.reply.data.user.id;
      && var u := User(b.email.value, Hash(b.password.value), b.name.value, ParseRole(b.role.value).value);
      && id !in s.users
      && r.store.users == s.users[id := u]
      && r.store.(users := s.users, nextId := s.nextId) == s
      && r.reply.data == SessionOf(id, u)
  {
    if !AllGiven(b) then Step(Failure(BadRequest, "All fields are required"), s)
    else match ParseRole(b.role.value)
      case None => Step(Failure(BadRequest, "Invalid role. Must be job_seeker or employer"), s)
      case Some(role) =>
        if UserByEmail(s, b.email.value).Some? then
          Step(Failure(BadRequest, "User with this email already exists"), s)
        else
          var u := User(b.email.value, Hash(b.password.value), b.name.value, role);
          var t := InsertUser(s, u);
          Step(Success(Created, SessionOf(s.nextId, u)), t.value)
  }

  /** `POST /api/auth/login`.  An unknown email and a wrong password get the
      very same reply, so the reply does not reveal which accounts exist. */
  function Login(b: LoginRequest, s: Store): (r: Reply<Session>)
    requires Valid(s)
    ensures !(Given(b.email) && Given(b.password)) ==> r == Failure(BadRequest, "Email and password are required")
    ensures r.Success? <==>
      && Given(b.email) && Given(b.password)
      && UserByEmail(s, b.email.value).Some?
      && Matches(b.password.value, s.users[UserByEmail(s, b.email.value).value].password)
    ensures r.Failure? && Given(b.email) && Given(b.password) ==> r == Failure(Unauthorized, "Invalid email or password")
    ensures r.Success? ==>
      && r.status == Ok
      && r.data.user.id in s.users
      && s.users[r.data.user.id].email == b.email.value
      && r.data == SessionOf(r.data.user.id, s.users[r.data.user.id])
  {
    if !(Given(b.email) && Given(b.password)) then Failure(BadRequest, "Email and password are required")
    else match UserByEmail(s, b.email.value)
      case None => Failure(Unauthorized, "Invalid email or password")
      case Some(id) =>
        if !Matches(b.password.value, s.users[id].password) then Failure(Unauthorized, "Invalid email or password")
        else Success(Ok, SessionOf(id, s.users[id]))
  }

  /** `GET /api/auth/me`: the caller's row, looked up afresh. */
  function GetMe(caller: Option<Caller>, s: Store): (r: Reply<UserView>)
    requires Valid(s)
    ensures caller.None? ==> r == Failure(Unauthorized, "Not authenticated")
    ensures caller.Some? && caller.value.id !in s.users ==> r == Failure(NotFound, "User not found")
    ensures r.Success? <==> caller.Some? && caller.value.id in s.users
    ensures r.Success? ==> r.status == Ok && r.data == ViewOf(caller.value.id, s.users[caller.value.id])
  {
    if caller.None? then Failure(Unauthorized, "Not authenticated")
    else if caller.value.id !in s.users then Failure(NotFound, "User not found")
    else Success(Ok, ViewOf(caller.value.id, s.users[caller.value.id]))
  }

  /** Logging in with the credentials one signed up with succeeds and yields
      the same session the signup did. */
  lemma SignupThenLogin(b: SignupRequest, s: Store)
    requires Valid(s)
    requires Signup(b, s).reply.Success?
    ensures var r := Signup(b, s);
      Login(LoginRequest(b.email, b.password), r.store) == Success(Ok, r.reply.data)
  {
    var r := Signup(b, s);
    var id := r.reply.data.user.id;
    assert r.store.users[id].email == b.email.value;
    assert UserByEmail(r.store, b.email.value) == Some(id);
  }

  /** The token of a fresh signup authenticates "who am I", which shows the
      same user the signup did. */
  lemma SignupThenGetMe(b: SignupRequest, s: Store)
    requires Valid(s)
    requires Signup(b, s).reply.Success?
    ensures var r := Signup(b, s);
      GetMe(Some(CallerOf(r.reply.data.token)), r.store) == Success(Ok, r.reply.data.user)
  {
  }

  /** A second signup with the same email is refused and changes nothing,
      whatever its other fields. */
  lemma SignupTwiceRefused(b: SignupRequest, b': SignupRequest, s: Store)
    requires Valid(s)
    requires Signup(b, s).reply.Success?
    requires AllGiven(b') && b'.email == b.email && ParseRole(b'.role.value).Some?
    ensures var t := Signup(b, s).store;
      Signup(b', t) == Step(Failure(BadRequest, "User with this email already exists"), t)
  {
    var r := Signup(b, s);
    assert r.store.users[r.reply.data.user.id].email == b.email.value;
  }

  /** With hashing taken as injective, a stored digest admits only the
      password it was made from: two passwords that both log in to the same
      account are the same. */
  lemma OnlyThePasswordLogsIn(email: Option<string>, p: string, q: string, s: Store)
    requires Valid(s)
    requires Login(LoginRequest(email, Some(p)), s).Success?
    requires Login(LoginRequest(email, Some(q)), s).Success?
    ensures p == q
  {
    HashInjective(p, q);
  }
}
