/** The JWT the controller issues on login: issuer, audience, expiry and
    claims (the registered claims "iss", "aud" and "exp" of RFC 7519,
    sections 4.1.1, 4.1.3 and 4.1.4). Serialisation and signing are not
    modelled; the token stops at the values it is built from. */
module Tokens {
  import opened Claims

  /** The "JWT" configuration section. */
  datatype JwtConfig = JwtConfig(secret: string, validIssuer: string, validAudience: string)

  /** Clock time is in whole seconds; a token is valid for four hours. */
  const SecondsPerHour: int := 60 * 60
  const TokenLifetimeHours: int := 4

  datatype JwtSecurityToken = JwtSecurityToken(
    issuer: string,
    audience: string,
    expires: int,
    claims: seq<Claim>)

  /** GetToken: a token for `claims` issued at `now`, taking issuer and
      audience unchanged from the configuration and expiring four hours later. */
  function GetToken(configuration: JwtConfig, claims: seq<Claim>, now: int): (t: JwtSecurityToken)
    ensures t.issuer == configuration.validIssuer
    ensures t.audience == configuration.validAudience
    ensures t.claims == claims
    ensures t.expires > now
    ensures t.expires - now == 4 * 3600
  {
    JwtSecurityToken(
      configuration.validIssuer,
      configuration.validAudience,
      now + TokenLifetimeHours * SecondsPerHour,
      claims)
  }
}
