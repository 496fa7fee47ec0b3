/** Properties that relate several auth flows to each other and to the
    identity resolver. */
module Scenarios {
  import opened Wrappers
  import opened Http
  import opened Settings
  import opened Security
  import opened Models
  import opened Deps
  import opened Auth

  /** Login never reveals which check failed: an unknown email, a guest
      account without a password and a wrong password all get the same reply. */
  lemma LoginFailureIsUniform(store: Store, cfg: Config, h: Hasher,
                              email1: string, password1: string, email2: string, password2: string, now: int)
    requires Authenticate(store, h, email1, password1).None?
    requires Authenticate(store, h, email2, password2).None?
    ensures Login(store, cfg, h, email1, password1, now) == Login(store, cfg, h, email2, password2, now)
    ensures Login(store, cfg, h, email1, password1, now) == (store, Err(HttpError(Unauthorized, BadLoginDetail)))
  {
  }

  /** Form login accepts exactly the credentials password login accepts, and
      hands out the same access token. */
  lemma FormLoginAgreesWithLogin(store: Store, cfg: Config, h: Hasher, email: string, password: string, now: int)
    ensures var form := OAuth2Token(store, cfg, h, email, password, now).1;
            var login := Login(store, cfg, h, email, password, now).1;
      && (form.Ok? <==> login.Ok?)
      && (form.Ok? ==> form.value.accessToken == login.value.accessToken)
  {
  }

  /** A registered user can log in with the password they registered, and the
      access token resolves to that very user for its whole lifetime. */
  lemma RegisterThenLogin(store: Store, cfg: Config, h: Hasher, salt: Salt,
                          email: string, password: string, now: int, at: int)
    requires Sound(h) && Valid(store)
    requires 8 <= |password| <= 256
    requires email !in store.users
    requires now <= at <= now + cfg.accessTokenExpireMinutes * 60
    ensures var (store', created) := Register(store, h, salt, email, password, false);
            var login := Login(store', cfg, h, email, password, now).1;
      && created.Ok?
      && login.Ok?
      && login.value.accessToken.claims.sub == email
      && login.value.accessToken.claims.role == DefaultRole
      && GetCurrentUser(store', cfg, login.value.accessToken, at) == Ok(store'.users[email])
      && ToUserOut(GetCurrentUser(store', cfg, login.value.accessToken, at).value) == created.value.user
  {
    HashThenVerify(h, password, salt);
  }

  /** Registering an email twice: the second attempt is a 400 and the table
      still holds exactly one row with that email. */
  lemma RegisterTwiceConflicts(store: Store, h: Hasher, salt1: Salt, salt2: Salt,
                               email: string, password1: string, password2: string)
    requires Valid(store)
    requires 8 <= |password1| <= 256 && 8 <= |password2| <= 256
    requires email !in store.users
    ensures var (store1, first) := Register(store, h, salt1, email, password1, false);
            var (store2, second) := Register(store1, h, salt2, email, password2, false);
      && first.Ok?
      && second == Err(HttpError(BadRequest, DuplicateEmailDetail))
      && store2 == store1
      && WithEmail(store2, email) == {email}
  {
  }

  /** Any positive number of guest logins leaves exactly one guest row,
      created by the first call if it was missing, and leaves every other row
      as it was. */
  lemma GuestSessionsKeepOneGuest(store: Store, cfg: Config, nows: seq<int>)
    requires Valid(store) && |nows| > 0
    ensures var store' := GuestSessions(store, cfg, nows);
      && Valid(store')
      && WithEmail(store', GuestEmail) == {GuestEmail}
      && (GuestEmail !in store.users ==>
            store'.users[GuestEmail] == User(store.nextId, GuestEmail, None, GuestRole, true))
      && (forall e :: e != GuestEmail ==> (e in store'.users <==> e in store.users))
      && (forall e :: e != GuestEmail && e in store.users ==> store'.users[e] == store.users[e])
  {
  }

  /** Two guest logins in a row get token pairs for one and the same identity,
      and the second creates nothing. */
  lemma GuestLoginTwiceSameIdentity(store: Store, cfg: Config, now1: int, now2: int)
    ensures var (store1, first) := GuestLogin(store, cfg, now1);
            var (store2, second) := GuestLogin(store1, cfg, now2);
      && store2 == store1
      && first.Ok? && second.Ok?
      && first.value.accessToken.claims.sub == second.value.accessToken.claims.sub
      && first.value.accessToken.claims.role == second.value.accessToken.claims.role
  {
  }

  /** An access token cannot be exchanged for a new pair, even while valid;
      the refresh token of the same login can, for the same subject. */
  lemma OnlyRefreshTokensRefresh(store: Store, cfg: Config, h: Hasher, email: string, password: string,
                                 now: int, at: int)
    requires Login(store, cfg, h, email, password, now).1.Ok?
    requires now <= at <= now + cfg.refreshTokenExpireDays * 86400
    ensures var pair := Login(store, cfg, h, email, password, now).1.value;
      && RefreshToken(store, cfg, pair.accessToken, at).1 == Err(HttpError(Unauthorized, BadRefreshDetail))
      && RefreshToken(store, cfg, pair.refreshToken, at).1.Ok?
      && RefreshToken(store, cfg, pair.refreshToken, at).1.value.accessToken.claims.sub == store.users[email].email
  {
  }

  /** The refresh exchange trusts signature and expiry alone: its reply does
      not depend on the store, so a deleted or deactivated user keeps
      refreshing until the refresh token expires. */
  lemma RefreshIgnoresStore(store1: Store, store2: Store, cfg: Config, token: Token, now: int)
    ensures RefreshToken(store1, cfg, token, now).1 == RefreshToken(store2, cfg, token, now).1
  {
  }

}
