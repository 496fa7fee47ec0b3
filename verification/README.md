# Authentication core of the bike-suspension backend, in Dafny

This project models the authentication decision logic of a small FastAPI
backend: how it hashes and checks passwords, how it issues and verifies its
JWT access and refresh tokens, how a bearer token is resolved to an active
user, and the five auth endpoints (register, login, guest login, refresh
exchange, OAuth2 form login). The database becomes a store of users keyed by
email. Password hashing and token signing become abstract stand-ins. Every
endpoint is a pure function from the store, the request and the current time
to the new store and the response.

Modules follow the source files:

- `Settings` (settings.dfy): the configuration record and its defaults (HS256, 30 minutes, 7 days).
- `Security` (security.dfy): the abstract hasher `Hasher(hash, verify)`, the claims set, tokens as
  `Signed(claims, key, alg) | Malformed(text)`, the JWT library's verification steps and `DecodeToken`.
- `Models` (models.dfy): `User`, the `Store`, and its validity invariant. The invariant says each row is
  filed under its own email and primary keys are distinct. `User` models the table of
  `app/models.py`; that file itself is not shown, so its fields are the ones the code reads and writes.
- `Deps` (deps.dfy): the identity resolver `GetCurrentUser`.
- `Auth` (auth.dfy): the endpoints.
- `Scenarios` (scenarios.dfy): properties that relate several flows.
- `Wrappers`, `Http`: `Option`, and the HTTP error/response shapes.

Three behaviours of the code are worth stating up front, because the model keeps them as they are:

- The resolver uses two different 401 details. "Invalid or expired token" covers decode and typ
  failures (app/deps.py:14-15). "Inactive or unknown user" covers lookup and status failures
  (app/deps.py:18-19). `GetCurrentUser` states exactly which detail goes with which failure.
- Roles are free-form strings, stored and copied as they are. The refresh exchange turns an empty
  role into "user" (app/routers/auth.py:68).
- The guest flow reuses an existing `guest@local` row as it is. It does not check the row's role or
  `is_active` (app/routers/auth.py:48-55).

## Model

| member | source | states |
|---|---|---|
| Settings.WithDefaults | app/settings.py:10-13 | With only the secret given, the algorithm is HS256, access tokens live 1800 s and refresh tokens 604800 s. |
| Security.HashThenVerify | app/security.py:11-15 | For a sound hasher, a fresh hash of a password verifies that password and is a non-empty string. |
| Security.EncodeJwt | app/security.py:17-26 | An encoded token is signed with the configured secret and algorithm. Its claims copy sub, role and typ verbatim, have iat equal to the current time, and have exp - iat equal to the given lifetime. |
| Security.CreateAccessToken | app/security.py:28-29 | An access token has typ "access", the given sub and role, iat = now, and exp - iat = access_token_expire_minutes * 60. |
| Security.CreateRefreshToken | app/security.py:31-32 | A refresh token has typ "refresh", the given sub and role, iat = now, and exp - iat = refresh_token_expire_days * 86400. |
| Security.DecodeToken | app/security.py:34-38 | Decoding returns Some exactly when the token is well formed, the secret matches, the algorithm matches and now <= exp. It then returns the token's own claims. Every other case gives None, never a failure. |
| Security.DefaultAccessTokenWindow | app/settings.py:12 | Under the default settings an access token decodes to its claims 1800 s after issuance and is refused at 1801 s. |
| Security.IssuedTokenRoundTrip | app/security.py:17-38 | An issued token decodes to exactly its issued claims under the same secret and algorithm at any time up to exp. With another secret, another algorithm or after exp it decodes to None. |
| Models.FindByEmail | app/deps.py:17 | In a valid store, the lookup finds a user exactly when some row has that email, and the row it returns has that email. |
| Models.UniqueEmail | app/routers/auth.py:17-22 | In a valid store, the rows with a given email are exactly the one filed under it, or none. This is the unique-email constraint the duplicate check relies on. |
| Models.Insert | app/routers/auth.py:50-51 | Inserting an absent email adds one row with the next primary key. All other rows stay the same, and validity is preserved. |
| Deps.GetCurrentUser | app/deps.py:11-20 | The resolver succeeds exactly for an authentic, unexpired access token whose subject is stored and active. It then returns the stored row, whose role comes from the store. Every failure is a 401, and the detail tells decode and typ failures apart from lookup and inactive failures. |
| Deps.RefreshTokenNeverResolves | app/deps.py:13-15 | A refresh token, even a valid one, is refused with 401 "Invalid or expired token". |
| Deps.AccessTokenResolves | app/deps.py:17-20 | An issued access token resolves to the stored active user at every moment from issuance to expiry. The result carries the store's current role, not the token's. |
| Deps.AccessTokenRevokedOnlyByStoreOrTime | app/deps.py:13-19 | Past exp an access token fails at decoding. Before exp, a deleted or deactivated subject fails at the lookup step. |
| Auth.Authenticate | app/routers/auth.py:32-33 | Credentials pass exactly when the email is stored, its hash is present and non-empty, and the password verifies against that hash. |
| Auth.Register | app/routers/auth.py:14-28 | Success happens exactly when the email is new and storage does not fail. The new stored row has the hash of the password, role "user" and active status, and no other row changes. The reply is that row's `UserOut` projection (id, email, role, is_active), without the hash. A duplicate email gives 400 and a storage failure gives 500, both with the store unchanged. Validity is preserved. |
| Auth.Login | app/routers/auth.py:30-37 | Login succeeds exactly when the credentials pass. It then issues an access and refresh pair for the stored email and role. Every failure is the same 401. The store never changes. |
| Auth.GuestLogin | app/routers/auth.py:39-55 | If the guest row is missing, it is created with no password, role "guest" and active status. If present, it is reused and the store is unchanged. The reply is always a token pair for the guest row's email and role. |
| Auth.GuestSessions | app/routers/auth.py:47-51 | Any positive number of sequential guest logins leaves the same store as a single one. |
| Auth.RefreshToken | app/routers/auth.py:57-72 | The exchange succeeds exactly for an authentic, unexpired token with typ "refresh". It then issues a pair for the claimed sub, with the claimed role or "user" when that role is empty. Failure is 401 "Invalid refresh token". The store is unchanged. |
| Auth.OAuth2Token | app/routers/auth.py:74-88 | The same credential check as login, with its own uniform 401 detail. On success it returns only an access token for the stored email and role. The store is unchanged. |
| Scenarios.LoginFailureIsUniform | app/routers/auth.py:32-34 | Any two failing logins give identical replies, 401 "Incorrect email or password", with the store unchanged. An unknown email and a wrong password are indistinguishable. |
| Scenarios.FormLoginAgreesWithLogin | app/routers/auth.py:83-87 | Form login accepts exactly the credentials password login accepts, and returns the same access token. |
| Scenarios.RegisterThenLogin | app/routers/auth.py:16-37 | After registering a new email, logging in with that password succeeds. The token carries that email and role "user". Until it expires, it resolves to the stored row, whose projection is the registration reply. |
| Scenarios.RegisterTwiceConflicts | app/routers/auth.py:17-22 | Registering an email a second time gives 400 and leaves the store as it was, with exactly one row for that email. |
| Scenarios.GuestSessionsKeepOneGuest | app/routers/auth.py:47-51 | After any positive number of guest logins there is exactly one guest@local row (no password, role "guest", active if it was created). Every other row is unchanged, and validity is preserved. |
| Scenarios.GuestLoginTwiceSameIdentity | app/routers/auth.py:47-55 | Two successive guest logins create nothing the second time, and both get tokens for the same subject and role. |
| Scenarios.OnlyRefreshTokensRefresh | app/routers/auth.py:63-72 | The access token of a login cannot be exchanged (401). That login's refresh token can be, for the same subject, at any time up to its expiry. |
| Scenarios.RefreshIgnoresStore | app/routers/auth.py:63-72 | The refresh reply does not depend on the store, so deleted or deactivated users can refresh until the refresh token expires. |

## Left out

- HTTP routing, dependency injection, CORS, start-up and the landing endpoints in `app/main.py` and
  `app/routers/index.py`. They are framework plumbing, and the landing endpoints only project user fields.
- Bearer-token extraction from the `Authorization` header. This is the framework's
  `OAuth2PasswordBearer`, whose own 401 is not in the core; the resolver receives the token directly.
- Database engine, sessions and transactions. These become one atomic update of the store, and the
  primary key is the store's `nextId`.
- Reading settings from the environment: a `Config` is passed in.
- Argon2, HMAC-SHA256, base64url and the JWS byte layout. These are foreign libraries. The hasher is
  abstract, and the only facts assumed of it are in `Sound`. Besides the law that a fresh hash verifies
  its own password, `Sound` also assumes that a hash is never empty, as Argon2's encoded hashes never
  are. The salt is a parameter because the model has no randomness.
- The JWT library's other claim checks (nbf, aud, the types of iat and sub). Tokens carry only the
  five claims the issuer writes, so a correctly signed token always has them. A missing claim, and
  Python's `or` on a non-string role, are therefore not modelled.
- Wall-clock time and the float-to-int truncation of timestamps. Times are integer seconds passed in.
  With integer times, `exp - iat` is the lifetime exactly.
- The check-then-insert race in guest login. Calls are sequential here.
- Auth.GuestLogin: a commit failure while creating the guest is not modelled. The source has no
  handler for it, so it surfaces as the framework's generic 500.
- Pydantic validation and logging. The e-mail syntax check is not modelled, and neither is the
  normalization `EmailStr` applies to the register and login emails (app/schemas.py:16, :20). The raw form `username`
  of form login gets no such normalization, so `Scenarios.FormLoginAgreesWithLogin` holds only when both
  handlers are given the same string. The 8 to 256 character
  password rule is a precondition of `Register`.
- The constant `token_type: "bearer"` field of token replies, and the 201 status of register and
  guest login.
- Two library details. First, each token in a pair reads the clock separately (app/security.py:18), so
  the two `iat` values can differ by a second; the model issues both at one `now`. Second, passlib's
  `verify` raises on a stored hash it cannot identify, giving a 500, where the model's `verify` returns
  false and login answers 401.
- Scenarios.LoginFailureIsUniform: uniformity, and the single 401 of `Auth.Login` and `Auth.OAuth2Token`,
  holds only for passwords within passlib's 4096-character limit. Above it, passlib raises before
  verifying, and neither login schema bounds the password (app/schemas.py:17). That exception is
  reached only for a stored account with a hash, because of the short-circuit at
  app/routers/auth.py:33 and :84, so such a password gets a 500 there and a 401 for an unknown email.
  The model's hasher is total and does not reproduce this.
- Security.EncodeJwt: `Config.jwtAlgorithm` is assumed to be an HMAC algorithm the JWT library
  supports. For any other algorithm, `jwt.encode` (app/security.py:26) raises, and login, guest login,
  refresh and form login answer 500. The lifetimes are likewise assumed to keep `iat + lifetime`
  within the range of Python's `datetime` (up to the year 9999). A larger lifetime makes
  `timedelta(...)` (app/security.py:29, :32) or `now + expires_delta` (app/security.py:24) raise, and
  the same four flows answer 500. The model always issues a token.
