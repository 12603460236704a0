/** The session token shared by `src/app/api/login/route.js`, which signs it, and
    `src/app/middleware.js`, which verifies it. Signing and verification (HS256) are the
    caller's functions; only the claims, the secret and the lifetime are modelled. */
module Tokens {
  import opened Common

  /** The payload: `user_id`, `email`, `role`, `name`, the optional `service_provider_id`, and
      the `iat`/`exp` times (seconds) the signer adds. */
  datatype Claims = Claims(
    userId: int,
    email: string,
    role: string,
    name: string,
    providerId: Option<int>,
    issuedAt: int,
    expiresAt: int)

  /** The secret used when the `JWT_SECRET` setting is absent or empty. */
  const FallbackSecret: string := "your-secret-key"

  /** `setExpirationTime('24h')`, in seconds. */
  const TokenLifetime: int := 24 * 60 * 60

  /** `process.env.JWT_SECRET || 'your-secret-key'`. */
  function JwtSecret(env: Option<string>): (secret: string)
    ensures secret != ""
    ensures Truthy(env) ==> secret == env.value
    ensures !Truthy(env) ==> secret == FallbackSecret
  {
    OrElse(env, FallbackSecret)
  }
}
