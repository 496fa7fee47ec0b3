/** Password hashing and the JWT codec (app/security.py).

    The Argon2 hasher and the JWS signer are foreign libraries; both are kept
    abstract. A token is reduced to what verification can observe: its claims,
    the key it was signed with and the `alg` named in its header. */
module Security {
  import opened Wrappers
  import opened Settings

  // ---------------------------------------------------------------------------
  // Credential hasher
  // ---------------------------------------------------------------------------

  /** The salt the hasher draws internally; a parameter here, since the model
      has no source of randomness. */
  type Salt = nat

  /** An abstract password hasher: `hash` encodes a plaintext under a salt,
      `verify` checks a plaintext against an encoded hash. */
  datatype Hasher = Hasher(hash: (string, Salt) -> string, verify: (string, string) -> bool)

  /** All the model assumes of the hasher: a fresh hash verifies the password
      it was made from, and (being a self-describing `$argon2...` string) is
      never empty. */
  ghost predicate Sound(h: Hasher) {
    forall password: string, salt: Salt ::
      h.hash(password, salt) != "" && h.verify(password, h.hash(password, salt))
  }

  function HashPassword(h: Hasher, password: string, salt: Salt): (hashed: string) {
    h.hash(password, salt)
  }

  function VerifyPassword(h: Hasher, password: string, hashed: string): (ok: bool) {
    h.verify(password, hashed)
  }

  /** The hasher's defining law, as the rest of the model uses it. */
  lemma HashThenVerify(h: Hasher, password: string, salt: Salt)
    requires Sound(h)
    ensures HashPassword(h, password, salt) != ""
    ensures VerifyPassword(h, password, HashPassword(h, password, salt))
  {
  }

  // ---------------------------------------------------------------------------
  // Token codec
  // ---------------------------------------------------------------------------

  const AccessTyp: string := "access"
  const RefreshTyp: string := "refresh"

  /** The JWT claims set the codec issues: `sub`, `iat` and `exp` of RFC 7519
      (sections 4.1.2, 4.1.6 and 4.1.4), plus `role` and the `typ` discriminator.
      Times are integer seconds since the epoch. */
  datatype Claims = Claims(sub: string, role: string, typ: string, iat: int, exp: int)

  /** A compact token: either a JWS over `claims`, signed with `key` under the
      algorithm `alg` of its header, or text that does not parse as a JWS. */
  datatype Token =
    | Signed(claims: Claims, key: string, alg: string)
    | Malformed(text: string)

  /** Why the JWT library refuses a token; each is a `JWTError` in the source. */
  datatype JwtError = NotAToken | AlgorithmNotAllowed | SignatureMismatch | SignatureExpired

  datatype Verification = Verified(claims: Claims) | Rejected(reason: JwtError)

  /** `timedelta(minutes = m)` and `timedelta(days = d)`, in seconds. */
  function Minutes(m: int): (seconds: int) { m * 60 }
  function Days(d: int): (seconds: int) { d * 24 * 60 * 60 }

  /** Builds and signs a claims set issued at `now` that lives `lifetime` seconds. */
  function EncodeJwt(cfg: Config, sub: string, role: string, typ: string, lifetime: int, now: int): (t: Token)
    ensures t.Signed? && t.key == cfg.jwtSecret && t.alg == cfg.jwtAlgorithm
    ensures t.claims.sub == sub && t.claims.role == role && t.claims.typ == typ
    ensures t.claims.iat == now && t.claims.exp - t.claims.iat == lifetime
  {
    Signed(Claims(sub, role, typ, now, now + lifetime), cfg.jwtSecret, cfg.jwtAlgorithm)
  }

  function CreateAccessToken(cfg: Config, sub: string, role: string, now: int): (t: Token)
    ensures t.Signed? && t.key == cfg.jwtSecret && t.alg == cfg.jwtAlgorithm
    ensures t.claims.typ == AccessTyp
    ensures t.claims.sub == sub && t.claims.role == role && t.claims.iat == now
    ensures t.claims.exp - t.claims.iat == cfg.accessTokenExpireMinutes * 60
  {
    EncodeJwt(cfg, sub, role, AccessTyp, Minutes(cfg.accessTokenExpireMinutes), now)
  }

  function CreateRefreshToken(cfg: Config, sub: string, role: string, now: int): (t: Token)
    ensures t.Signed? && t.key == cfg.jwtSecret && t.alg == cfg.jwtAlgorithm
    ensures t.claims.typ == RefreshTyp
    ensures t.claims.sub == sub && t.claims.role == role && t.claims.iat == now
    ensures t.claims.exp - t.claims.iat == cfg.refreshTokenExpireDays * 86400
  {
    EncodeJwt(cfg, sub, role, RefreshTyp, Days(cfg.refreshTokenExpireDays), now)
  }

  /** The JWT library's verification, in its order: the header's algorithm
      must be allowed, the signature must match the key, and the token must
      not have expired (`exp < now`, no leeway). The rejection reasons are
      kept only to record the library's order of checks: `DecodeToken` maps
      every one of them to `None`. */
  function JoseDecode(tok: Token, key: string, algorithms: seq<string>, now: int): (r: Verification)
  {
    match tok
    case Malformed(_) => Rejected(NotAToken)
    case Signed(c, k, a) =>
      if a !in algorithms then Rejected(AlgorithmNotAllowed)
      else if k != key then Rejected(SignatureMismatch)
      else if c.exp < now then Rejected(SignatureExpired)
      else Verified(c)
  }

  /** The token was signed with the configured secret under the configured
      algorithm and has not expired at `now`. */
  predicate Authentic(tok: Token, cfg: Config, now: int) {
    && tok.Signed?
    && tok.key == cfg.jwtSecret
    && tok.alg == cfg.jwtAlgorithm
    && now <= tok.claims.exp
  }

  /** Decodes a token against the configured secret and algorithm; every
      library failure becomes `None`, so decoding never fails. */
  function DecodeToken(tok: Token, cfg: Config, now: int): (r: Option<Claims>)
    ensures r.Some? <==> Authentic(tok, cfg, now)
    ensures r.Some? ==> tok.Signed? && r.value == tok.claims
  {
    match JoseDecode(tok, cfg.jwtSecret, [cfg.jwtAlgorithm], now)
    case Verified(c) => Some(c)
    case Rejected(_) => None
  }

  /** Round trip: a token issued under `cfg` decodes under `verifier` to
      exactly the issued claims, up to and including its expiry second, and
      only when secret and algorithm agree. */
  lemma IssuedTokenRoundTrip(cfg: Config, verifier: Config, sub: string, role: string, typ: string,
                             lifetime: int, now: int, at: int)
    ensures var t := EncodeJwt(cfg, sub, role, typ, lifetime, now);
      DecodeToken(t, verifier, at)
        == if verifier.jwtSecret == cfg.jwtSecret && verifier.jwtAlgorithm == cfg.jwtAlgorithm
              && at <= now + lifetime
           then Some(Claims(sub, role, typ, now, now + lifetime))
           else None
  {
  }

  /** With the default settings an access token is accepted through its
      1800th second and refused from the 1801st. */
  lemma DefaultAccessTokenWindow(secret: string, sub: string, role: string, now: int)
    ensures var cfg := WithDefaults(secret);
            var t := CreateAccessToken(cfg, sub, role, now);
      && DecodeToken(t, cfg, now + 1800) == Some(t.claims)
      && DecodeToken(t, cfg, now + 1801) == None
  {
  }

}
