/** The identity resolver behind every protected route (app/deps.py):
    bearer token in, active stored user out, 401 on every failure.

    Extracting the bearer token from the `Authorization` header is framework
    work and is not modelled; the resolver receives the token itself. */
module Deps {
  import opened Wrappers
  import opened Http
  import opened Settings
  import opened Security
  import opened Models

  const InvalidTokenDetail: string := "Invalid or expired token"
  const UnknownUserDetail: string := "Inactive or unknown user"

  /** Decode, require an access token, look the subject up, require it active. */
  function GetCurrentUser(store: Store, cfg: Config, token: Token, now: int): (r: Response<User>)
    ensures r.Ok? <==>
      && Authentic(token, cfg, now)
      && token.claims.typ == AccessTyp
      && token.claims.sub in store.users
      && store.users[token.claims.sub].isActive
    ensures r.Ok? ==> token.Signed? && token.claims.sub in store.users && r.value == store.users[token.claims.sub]
    ensures Valid(store) && r.Ok? ==> r.value.email == token.claims.sub && r.value.isActive
    ensures r.Err? ==> r.error.status == Unauthorized
    ensures r.Err? ==>
      (r.error.detail == InvalidTokenDetail <==> !Authentic(token, cfg, now) || token.claims.typ != AccessTyp)
    ensures r.Err? ==>
      (r.error.detail == UnknownUserDetail <==> Authentic(token, cfg, now) && token.claims.typ == AccessTyp)
  {
    match DecodeToken(token, cfg, now)
    case None => Err(HttpError(Unauthorized, InvalidTokenDetail))
    case Some(data) =>
      if data.typ != AccessTyp then
        Err(HttpError(Unauthorized, InvalidTokenDetail))
      else
        match FindByEmail(store, data.sub)
        case None => Err(HttpError(Unauthorized, UnknownUserDetail))
        case Some(user) =>
          if !user.isActive then Err(HttpError(Unauthorized, UnknownUserDetail))
          else Ok(user)
  }

  /** Type confusion is refused: a refresh token, however valid, never
      authenticates a request. */
  lemma RefreshTokenNeverResolves(store: Store, cfg: Config, sub: string, role: string, issuedAt: int, now: int)
    ensures GetCurrentUser(store, cfg, CreateRefreshToken(cfg, sub, role, issuedAt), now)
      == Err(HttpError(Unauthorized, InvalidTokenDetail))
  {
  }

  /** A freshly issued access token resolves to the stored user for its whole
      lifetime, with the role the store holds now rather than the one the
      token carries. */
  lemma AccessTokenResolves(store: Store, cfg: Config, sub: string, tokenRole: string, issuedAt: int, now: int)
    requires Valid(store)
    requires sub in store.users && store.users[sub].isActive
    requires issuedAt <= now <= issuedAt + cfg.accessTokenExpireMinutes * 60
    ensures var r := GetCurrentUser(store, cfg, CreateAccessToken(cfg, sub, tokenRole, issuedAt), now);
      r.Ok? && r.value.email == sub && r.value.role == store.users[sub].role
  {
  }

  /** An access token outlives neither its expiry nor the account: past `exp`
      it fails at decoding; before that, a subject that has been deleted or
      deactivated fails at the lookup step. */
  lemma AccessTokenRevokedOnlyByStoreOrTime(store: Store, cfg: Config, sub: string, role: string, issuedAt: int, now: int)
    ensures var r := GetCurrentUser(store, cfg, CreateAccessToken(cfg, sub, role, issuedAt), now);
      && (now > issuedAt + cfg.accessTokenExpireMinutes * 60 ==> r == Err(HttpError(Unauthorized, InvalidTokenDetail)))
      && (now <= issuedAt + cfg.accessTokenExpireMinutes * 60 && (sub !in store.users || !store.users[sub].isActive)
          ==> r == Err(HttpError(Unauthorized, UnknownUserDetail)))
  {
  }

}
