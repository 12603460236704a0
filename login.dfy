/** `src/app/api/login/route.js`: checks an e-mail address and password, then issues a signed
    session token in an HTTP-only cookie. An unknown address and a wrong password get the same
    reply. */
module Login {
  import opened Common
  import opened Rows
  import opened Tokens

  /** The JSON body; `None` is a field that is absent. */
  datatype Credentials = Credentials(email: Option<string>, password: Option<string>)

  /** The `token` cookie and its options. */
  datatype Cookie = Cookie(name: string, value: string, httpOnly: bool, secure: bool, sameSite: string, maxAge: int)

  /** The reply body's `data.user` (the user without its password, with the provider profile
      the lookup includes, if any) and the cookie set on the reply. */
  datatype Session = Session(user: PublicUser, profile: Option<Provider>, cookie: Cookie)

  const CookieName: string := "token"
  /** `24 * 60 * 60`: the cookie's `maxAge`, in seconds. */
  const CookieMaxAge: int := 24 * 60 * 60
  const ProviderRole: string := "SERVICE_PROVIDER"

  const CredentialsRequired: string := "Email and password are required."
  const InvalidCredentials: string := "Invalid credentials."

  predicate HasCredentials(c: Credentials)
  {
    Truthy(c.email) && Truthy(c.password)
  }

  /** POST /api/login. `compare` is the password-hash check, `sign` the token signer, `env` the
      `JWT_SECRET` setting, `now` the signing time in seconds and `production` whether the
      server runs in production (the cookie is then `secure`). `payload` is the signed claims. */
  method PostLogin(users: seq<User>, providers: seq<Provider>, body: Credentials,
                   compare: (string, string) -> bool, sign: (Claims, string) -> string,
                   env: Option<string>, now: int, production: bool)
    returns (resp: Reply<Session>, payload: Option<Claims>)
    ensures !HasCredentials(body) <==> resp == Failure(400, CredentialsRequired)
    ensures resp == Failure(401, InvalidCredentials) <==>
      HasCredentials(body)
      && (|| Find(users, UserEmail, body.email.value).None?
          || !compare(body.password.value, Find(users, UserEmail, body.email.value).value.password))
    ensures resp.Success? <==>
      HasCredentials(body) && Find(users, UserEmail, body.email.value).Some?
      && compare(body.password.value, Find(users, UserEmail, body.email.value).value.password)
    ensures resp.Success? <==> payload.Some?
    ensures resp.Success? ==>
      var u := Find(users, UserEmail, body.email.value).value;
      var c := payload.value;
      && resp.status == 200
      && u.email == body.email.value && compare(body.password.value, u.password)
      && resp.value.user == Public(u)
      && resp.value.profile == Find(providers, ProviderUserId, u.id)
      && c.userId == u.id && c.email == u.email && c.role == RoleName(u.role) && c.name == u.name
      && c.issuedAt == now && c.expiresAt == now + TokenLifetime
      && resp.value.cookie == Cookie(CookieName, sign(c, JwtSecret(env)), true, production, "strict", CookieMaxAge)
    ensures resp.Success? ==>
      var u := Find(users, UserEmail, body.email.value).value;
      var c := payload.value;
      && (c.providerId.Some? <==> u.role == ServiceProvider && Find(providers, ProviderUserId, u.id).Some?)
      && (c.providerId.Some? ==> c.providerId.value == Find(providers, ProviderUserId, u.id).value.id)
  {
    payload := None;
    if !Truthy(body.email) || !Truthy(body.password) {
      return Failure(400, CredentialsRequired), None;
    }
    var user := Find(users, UserEmail, body.email.value);
    if user.None? {
      return Failure(401, InvalidCredentials), None;
    }
    var u := user.value;
    if !compare(body.password.value, u.password) {
      return Failure(401, InvalidCredentials), None;
    }
    var claims := Claims(u.id, u.email, RoleName(u.role), u.name, None, now, now + TokenLifetime);
    var profile := Find(providers, ProviderUserId, u.id);
    if RoleName(u.role) == ProviderRole && profile.Some? {
      claims := claims.(providerId := Some(profile.value.id));
    }
    var token := sign(claims, JwtSecret(env));
    var cookie := Cookie(CookieName, token, true, production, "strict", CookieMaxAge);
    resp, payload := Success(200, Session(Public(u), profile, cookie)), Some(claims);
  }
}
