/** The process-wide auth configuration (app/settings.py), read once at start-up.
    Loading it from the environment is not modelled: a `Config` is passed in. */
module Settings {

  datatype Config = Config(
    jwtSecret: string,
    jwtAlgorithm: string,
    accessTokenExpireMinutes: int,
    refreshTokenExpireDays: int)

  const DefaultJwtAlgorithm: string := "HS256"
  const DefaultAccessTokenExpireMinutes: int := 30
  const DefaultRefreshTokenExpireDays: int := 7

  /** The settings when only the (mandatory) secret is supplied. */
  function WithDefaults(jwtSecret: string): (c: Config)
    ensures c.jwtSecret == jwtSecret
    ensures c.jwtAlgorithm == DefaultJwtAlgorithm
    ensures c.accessTokenExpireMinutes * 60 == 1800
    ensures c.refreshTokenExpireDays * 86400 == 604800
  {
    Config(jwtSecret, DefaultJwtAlgorithm, DefaultAccessTokenExpireMinutes, DefaultRefreshTokenExpireDays)
  }

}
