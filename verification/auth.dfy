/** The authentication endpoints (app/routers/auth.py), each a function from
    the user store and the request to the new store and the response. */
module Auth {
  import opened Wrappers
  import opened Http
  import opened Settings
  import opened Security
  import opened Models

  const GuestEmail: string := "guest@local"
  const GuestRole: string := "guest"
  const DefaultRole: string := "user"

  const DuplicateEmailDetail: string := "Email already registered"
  const RegistrationFailedDetail: string := "Registration failed"
  const BadLoginDetail: string := "Incorrect email or password"
  const BadFormLoginDetail: string := "Incorrect username or password"
  const BadRefreshDetail: string := "Invalid refresh token"

  /** The public projection of a user that registration answers with
      (`UserOut`): everything but the password hash. */
  datatype UserOut = UserOut(id: nat, email: string, role: string, isActive: bool)

  function ToUserOut(u: User): (out: UserOut) {
    UserOut(u.id, u.email, u.role, u.isActive)
  }

  /** Response bodies: the token pair, the access-only form-login reply, or
      the created user's projection. The constant `token_type: "bearer"` is
      left out. */
  datatype Reply =
    | TokenPair(accessToken: Token, refreshToken: Token)
    | AccessOnly(accessToken: Token)
    | UserCreated(user: UserOut)

  /** `reply` is the access and refresh token issued to `sub` with `role` at `now`. */
  predicate IsPairFor(reply: Reply, cfg: Config, sub: string, role: string, now: int) {
    reply == TokenPair(CreateAccessToken(cfg, sub, role, now), CreateRefreshToken(cfg, sub, role, now))
  }

  /** Python truthiness of an optional string: present and non-empty. */
  predicate Truthy(s: Option<string>) {
    s.Some? && s.value != ""
  }

  /** Python's `s or fallback` on strings. */
  function Or(s: string, fallback: string): (r: string) {
    if s != "" then s else fallback
  }

  /** The credential check shared by password login and form login: the user
      exists, has a password hash, and the password verifies against it. */
  function Authenticate(store: Store, h: Hasher, email: string, password: string): (r: Option<User>)
    ensures r.Some? <==>
      && email in store.users
      && store.users[email].hashedPassword.Some?
      && store.users[email].hashedPassword.value != ""
      && h.verify(password, store.users[email].hashedPassword.value)
    ensures r.Some? ==> r.value == store.users[email]
  {
    match FindByEmail(store, email)
    case None => None
    case Some(user) =>
      if !Truthy(user.hashedPassword) || !VerifyPassword(h, password, user.hashedPassword.value) then None
      else Some(user)
  }

  /** Registration with a hashed password, role "user", active. A taken email
      is a 400; `storageFails` stands for any other commit failure, a 500;
      both roll back. */
  function Register(store: Store, h: Hasher, salt: Salt, email: string, password: string, storageFails: bool)
    : (r: (Store, Response<Reply>))
    requires 8 <= |password| <= 256
    ensures r.1.Ok? <==> email !in store.users && !storageFails
    ensures r.1.Ok? ==>
      && email in r.0.users
      && r.0.users[email].email == email
      && r.0.users[email].hashedPassword == Some(h.hash(password, salt))
      && r.0.users[email].role == DefaultRole
      && r.0.users[email].isActive
      && r.0.users == store.users[email := r.0.users[email]]
      && r.1.value == UserCreated(UserOut(r.0.users[email].id, email, DefaultRole, true))
    ensures email in store.users ==> r == (store, Err(HttpError(BadRequest, DuplicateEmailDetail)))
    ensures email !in store.users && storageFails ==> r == (store, Err(HttpError(InternalServerError, RegistrationFailedDetail)))
    ensures Valid(store) ==> Valid(r.0)
  {
    var hashed := HashPassword(h, password, salt);
    if email in store.users then
      (store, Err(HttpError(BadRequest, DuplicateEmailDetail)))
    else if storageFails then
      (store, Err(HttpError(InternalServerError, RegistrationFailedDetail)))
    else
      var (store', user) := Insert(store, email, Some(hashed), DefaultRole, true);
      (store', Ok(UserCreated(ToUserOut(user))))
  }

  /** Password login: the token pair for the stored user, or one uniform 401
      whichever check failed. */
  function Login(store: Store, cfg: Config, h: Hasher, email: string, password: string, now: int)
    : (r: (Store, Response<Reply>))
    ensures r.0 == store
    ensures r.1.Ok? <==> Authenticate(store, h, email, password).Some?
    ensures r.1.Err? ==> r.1.error == HttpError(Unauthorized, BadLoginDetail)
    ensures r.1.Ok? ==>
      email in store.users && IsPairFor(r.1.value, cfg, store.users[email].email, store.users[email].role, now)
  {
    match Authenticate(store, h, email, password)
    case None => (store, Err(HttpError(Unauthorized, BadLoginDetail)))
    case Some(user) =>
      (store, Ok(TokenPair(CreateAccessToken(cfg, user.email, user.role, now),
                           CreateRefreshToken(cfg, user.email, user.role, now))))
  }

  /** Get-or-create of the one shared guest account, then its token pair.
      An existing row is reused as it is, whatever its role or status. */
  function GuestLogin(store: Store, cfg: Config, now: int): (r: (Store, Response<Reply>))
    ensures GuestEmail in store.users ==> r.0 == store
    ensures GuestEmail !in store.users ==>
      r.0 == Store(store.users[GuestEmail := User(store.nextId, GuestEmail, None, GuestRole, true)],
                   store.nextId + 1)
    ensures GuestEmail in r.0.users && r.1.Ok?
    ensures IsPairFor(r.1.value, cfg, r.0.users[GuestEmail].email, r.0.users[GuestEmail].role, now)
    ensures Valid(store) ==> Valid(r.0)
  {
    var (store', user) :=
      match FindByEmail(store, GuestEmail)
      case Some(u) => (store, u)
      case None => Insert(store, GuestEmail, None, GuestRole, true);
    (store', Ok(TokenPair(CreateAccessToken(cfg, user.email, user.role, now),
                          CreateRefreshToken(cfg, user.email, user.role, now))))
  }

  /** The store after guest logins at each of the times in `nows`, in order. */
  function GuestSessions(store: Store, cfg: Config, nows: seq<int>): (r: Store)
    ensures |nows| == 0 ==> r == store
    ensures |nows| > 0 ==> r == GuestLogin(store, cfg, nows[0]).0
    decreases |nows|
  {
    if |nows| == 0 then store
    else GuestSessions(GuestLogin(store, cfg, nows[0]).0, cfg, nows[1..])
  }

  /** Refresh exchange: a valid refresh token buys a new pair for the claimed
      subject and role (an empty role reads as "user"). The store is never
      consulted. */
  function RefreshToken(store: Store, cfg: Config, token: Token, now: int): (r: (Store, Response<Reply>))
    ensures r.0 == store
    ensures r.1.Ok? <==> Authentic(token, cfg, now) && token.claims.typ == RefreshTyp
    ensures r.1.Err? ==> r.1.error == HttpError(Unauthorized, BadRefreshDetail)
    ensures r.1.Ok? ==>
      && token.Signed?
      && IsPairFor(r.1.value, cfg, token.claims.sub,
                   if token.claims.role == "" then DefaultRole else token.claims.role, now)
  {
    match DecodeToken(token, cfg, now)
    case None => (store, Err(HttpError(Unauthorized, BadRefreshDetail)))
    case Some(data) =>
      if data.typ != RefreshTyp then (store, Err(HttpError(Unauthorized, BadRefreshDetail)))
      else
        var email := data.sub;
        var role := Or(data.role, DefaultRole);
        (store, Ok(TokenPair(CreateAccessToken(cfg, email, role, now), CreateRefreshToken(cfg, email, role, now))))
  }

  /** The OAuth2 password-form endpoint: the same credential check as
      `Login`, with its own uniform 401, returning an access token only. */
  function OAuth2Token(store: Store, cfg: Config, h: Hasher, username: string, password: string, now: int)
    : (r: (Store, Response<Reply>))
    ensures r.0 == store
    ensures r.1.Ok? <==> Authenticate(store, h, username, password).Some?
    ensures r.1.Err? ==> r.1.error == HttpError(Unauthorized, BadFormLoginDetail)
    ensures r.1.Ok? ==>
      && username in store.users
      && r.1.value == AccessOnly(CreateAccessToken(cfg, store.users[username].email, store.users[username].role, now))
  {
    match Authenticate(store, h, username, password)
    case None => (store, Err(HttpError(Unauthorized, BadFormLoginDetail)))
    case Some(user) => (store, Ok(AccessOnly(CreateAccessToken(cfg, user.email, user.role, now))))
  }

}
