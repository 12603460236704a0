/** `src/app/middleware.js`: the access gate meant for the booking and service routes. A
    protected request needs a verifiable `token` cookie; the gate then forwards the incoming
    headers with the caller's identity written over four (or five) of them. Header names are
    taken already lower-cased, as the header map of the request keeps them. */
module Gate {
  import opened Common
  import opened Tokens

  /** `AUTH_PATHS`. */
  const AuthPaths: seq<string> := ["/api/bookings", "/api/services"]

  const XUserId: string := "x-user-id"
  const XUserRole: string := "x-user-role"
  const XUserEmail: string := "x-user-email"
  const XUserName: string := "x-user-name"
  const XProviderId: string := "x-service-provider-id"

  const AuthRequired: string := "Authentication required."
  const InvalidToken: string := "Invalid or expired token."

  /** A request as the gate sees it: the path, the `token` cookie and the headers. */
  datatype GateRequest = GateRequest(path: string, token: Option<string>, headers: map<string, string>)

  /** Refuse with a status and a message, or let the request through with these headers. */
  datatype GateResult = Reject(status: nat, message: string) | Next(headers: map<string, string>)

  /** `AUTH_PATHS.some(path => pathname.startsWith(path))`. */
  predicate IsProtected(path: string)
  {
    exists i | 0 <= i < |AuthPaths| :: StartsWith(path, AuthPaths[i])
  }

  /** The `config.matcher` patterns `/api/bookings/:path*` and `/api/services/:path*`: the
      paths the framework runs the gate on at all. */
  predicate InMatcher(path: string)
  {
    || path == "/api/bookings" || StartsWith(path, "/api/bookings/")
    || path == "/api/services" || StartsWith(path, "/api/services/")
  }

  /** `if (payload.service_provider_id)`: a missing claim and the id 0 are both falsy. */
  predicate HasProviderClaim(c: Claims)
  {
    c.providerId.Some? && c.providerId.value != 0
  }

  /** The header names the gate writes for these claims. */
  function IdentityKeys(c: Claims): set<string>
  {
    {XUserId, XUserRole, XUserEmail, XUserName} + (if HasProviderClaim(c) then {XProviderId} else {})
  }

  /** HTTP whitespace: tab, line feed, carriage return and space. */
  predicate IsHttpWhitespace(c: char)
  {
    c == ' ' || c == '\t' || c == '\n' || c == '\r'
  }

  /** Drops the leading HTTP whitespace. */
  function TrimStart(s: string): string
  {
    if s != [] && IsHttpWhitespace(s[0]) then TrimStart(s[1..]) else s
  }

  /** Drops the trailing HTTP whitespace. */
  function TrimEnd(s: string): string
  {
    if s != [] && IsHttpWhitespace(s[|s| - 1]) then TrimEnd(s[..|s| - 1]) else s
  }

  /** Trimming removes exactly a run of whitespace at the front and leaves a non-whitespace
      first character. */
  lemma {:induction false} TrimStartRemovesLeadingRun(s: string)
    ensures var r := TrimStart(s);
      && |r| <= |s| && r == s[|s| - |r|..]
      && (r != [] ==> !IsHttpWhitespace(r[0]))
      && (forall i | 0 <= i < |s| - |r| :: IsHttpWhitespace(s[i]))
  {
    if s != [] && IsHttpWhitespace(s[0]) {
      var rest := s[1..];
      TrimStartRemovesLeadingRun(rest);
      var r := TrimStart(rest);
      assert TrimStart(s) == r;
      assert rest[|rest| - |r|..] == s[|s| - |r|..];
      forall i | 0 <= i < |s| - |r| ensures IsHttpWhitespace(s[i]) {
        if i > 0 {
          assert s[i] == rest[i - 1];
        }
      }
    }
  }

  /** Trimming removes exactly a run of whitespace at the back and leaves a non-whitespace
      last character. */
  lemma {:induction false} TrimEndRemovesTrailingRun(s: string)
    ensures var r := TrimEnd(s);
      && |r| <= |s| && r == s[..|r|]
      && (r != [] ==> !IsHttpWhitespace(r[|r| - 1]))
      && (forall i | |r| <= i < |s| :: IsHttpWhitespace(s[i]))
  {
    if s != [] && IsHttpWhitespace(s[|s| - 1]) {
      var init := s[..|s| - 1];
      TrimEndRemovesTrailingRun(init);
      var r := TrimEnd(init);
      assert TrimEnd(s) == r;
      assert init[..|r|] == s[..|r|];
      forall i | |r| <= i < |s| ensures IsHttpWhitespace(s[i]) {
        if i < |s| - 1 {
          assert s[i] == init[i];
        }
      }
    }
  }

  /** The value `Headers.set` stores: the text with HTTP whitespace removed from both ends
      (the header-value normalization of the Fetch standard). */
  function Normalize(s: string): string
  {
    TrimEnd(TrimStart(s))
  }

  /** `r` is the slice of `s` from `a` on, with only whitespace before and after it. */
  ghost predicate InnerSlice(s: string, r: string, a: int)
  {
    && 0 <= a <= |s| - |r| && r == s[a..a + |r|]
    && (forall i | 0 <= i < a :: IsHttpWhitespace(s[i]))
    && (forall i | a + |r| <= i < |s| :: IsHttpWhitespace(s[i]))
  }

  /** The stored value is the text between the leading and the trailing run of whitespace: a
      slice of the original starting and ending with a non-whitespace character. */
  lemma NormalizeStripsEnds(s: string)
    ensures exists a :: InnerSlice(s, Normalize(s), a)
    ensures var r := Normalize(s); r != [] ==> !IsHttpWhitespace(r[0]) && !IsHttpWhitespace(r[|r| - 1])
  {
    var t := TrimStart(s);
    var r := TrimEnd(t);
    TrimStartRemovesLeadingRun(s);
    TrimEndRemovesTrailingRun(t);
    var a := |s| - |t|;
    assert r == s[a..a + |r|];
    forall i | a + |r| <= i < |s| ensures IsHttpWhitespace(s[i]) {
      assert s[i] == t[i - a];
    }
    assert Normalize(s) == r && InnerSlice(s, r, a);
  }

  /** Every character is at most U+00FF, as the `ByteString` argument of `Headers.set` requires. */
  predicate IsByteString(s: string)
  {
    forall i | 0 <= i < |s| :: s[i] as int <= 0xFF
  }

  /** `Headers.set` accepts the value: it is a `ByteString`, and once normalized it holds no
      NUL, line feed or carriage return. Otherwise it throws a `TypeError`. */
  predicate AcceptedValue(s: string)
  {
    IsByteString(s) && forall i | 0 <= i < |Normalize(s)| :: Normalize(s)[i] !in {'\0', '\n', '\r'}
  }

  /** The text claims the gate copies into headers are all accepted by `Headers.set`. */
  predicate IdentityAccepted(c: Claims)
  {
    AcceptedValue(c.role) && AcceptedValue(c.email) && AcceptedValue(c.name)
  }

  /** The gate. `env` is the `JWT_SECRET` setting; `verify` is the token verifier, giving the
      claims of a token that is well signed and unexpired under the secret, and `None` otherwise.
      A header value that `Headers.set` refuses throws inside the same `try` as the verifier, so
      it gets the same 401. */
  method Middleware(req: GateRequest, env: Option<string>, verify: (string, string) -> Option<Claims>)
    returns (out: GateResult)
    ensures !IsProtected(req.path) ==> out == Next(req.headers)
    ensures IsProtected(req.path) && !Truthy(req.token) ==> out == Reject(401, AuthRequired)
    ensures (IsProtected(req.path) && Truthy(req.token)
             && verify(JwtSecret(env), req.token.value).None?) ==>
      out == Reject(401, InvalidToken)
    ensures (IsProtected(req.path) && Truthy(req.token)
             && verify(JwtSecret(env), req.token.value).Some?
             && !IdentityAccepted(verify(JwtSecret(env), req.token.value).value)) ==>
      out == Reject(401, InvalidToken)
    ensures out.Next? <==>
      || !IsProtected(req.path)
      || (&& Truthy(req.token) && verify(JwtSecret(env), req.token.value).Some?
          && IdentityAccepted(verify(JwtSecret(env), req.token.value).value))
    ensures IsProtected(req.path) && out.Next? ==>
      var c := verify(JwtSecret(env), req.token.value).value;
      && out.headers.Keys == req.headers.Keys + IdentityKeys(c)
      && out.headers[XUserId] == IntToString(c.userId)
      && out.headers[XUserRole] == Normalize(c.role)
      && out.headers[XUserEmail] == Normalize(c.email)
      && out.headers[XUserName] == Normalize(c.name)
      && (HasProviderClaim(c) ==> out.headers[XProviderId] == IntToString(c.providerId.value))
      && (forall k | k in req.headers && k !in IdentityKeys(c) :: out.headers[k] == req.headers[k])
  {
    if !(exists i | 0 <= i < |AuthPaths| :: StartsWith(req.path, AuthPaths[i])) {
      return Next(req.headers);
    }
    if !Truthy(req.token) {
      return Reject(401, AuthRequired);
    }
    var claims := verify(JwtSecret(env), req.token.value);
    if claims.None? {
      return Reject(401, InvalidToken);
    }
    var c := claims.value;
    // The first refused value throws; the headers written before it are discarded with it.
    if !(AcceptedValue(c.role) && AcceptedValue(c.email) && AcceptedValue(c.name)) {
      return Reject(401, InvalidToken);
    }
    var headers := req.headers;
    headers := headers[XUserId := IntToString(c.userId)];
    headers := headers[XUserRole := Normalize(c.role)];
    headers := headers[XUserEmail := Normalize(c.email)];
    headers := headers[XUserName := Normalize(c.name)];
    if c.providerId.Some? && c.providerId.value != 0 {
      headers := headers[XProviderId := IntToString(c.providerId.value)];
    }
    return Next(headers);
  }

  /** A value with no whitespace at either end is stored as it is. */
  lemma CleanValueKept(s: string)
    requires s != [] ==> !IsHttpWhitespace(s[0]) && !IsHttpWhitespace(s[|s| - 1])
    ensures Normalize(s) == s
  {
  }

  /** The decimal text of an id is always accepted and stored unchanged, so `x-user-id` and
      `x-service-provider-id` never make the gate throw. */
  lemma IdValueAccepted(n: int)
    ensures AcceptedValue(IntToString(n)) && Normalize(IntToString(n)) == IntToString(n)
  {
    var d := NatToString(if n < 0 then -n else n);
    var s := IntToString(n);
    assert forall i | 0 <= i < |s| :: s[i] == '-' || '0' <= s[i] <= '9' by {
      if n < 0 {
        assert s == "-" + d;
        forall i | 0 <= i < |s| ensures s[i] == '-' || '0' <= s[i] <= '9' {
          if i > 0 { assert s[i] == d[i - 1]; }
        }
      }
    }
    CleanValueKept(s);
  }

  /** A name with any character outside Latin-1 cannot be written into a header: by
      `Middleware`'s ensures, such a user gets 401 `Invalid or expired token.` on every protected
      path, even with a valid token. */
  lemma NonLatinNameRefused(c: Claims, i: int)
    requires 0 <= i < |c.name| && c.name[i] as int > 0xFF
    ensures !IdentityAccepted(c)
  {
  }

  /** Every path the framework hands to the gate is one the gate protects. */
  lemma MatcherPathsAreProtected(path: string)
    requires InMatcher(path)
    ensures IsProtected(path)
  {
    if path == "/api/bookings" || StartsWith(path, "/api/bookings/") {
      assert StartsWith(path, AuthPaths[0]);
    } else {
      assert StartsWith(path, AuthPaths[1]);
    }
  }

  /** The prefix test is on text, not on path segments: `/api/servicesX` counts as protected,
      though the framework never runs the gate on it. */
  lemma PrefixIsNotSegment()
    ensures IsProtected("/api/servicesX") && !InMatcher("/api/servicesX")
  {
    var p := "/api/servicesX";
    assert StartsWith(p, AuthPaths[1]);
    assert p[..14] != "/api/services/" by { assert p[13] == 'X'; }
    assert p[..14] != "/api/bookings/" by { assert p[5] == 's'; }
    assert p != "/api/bookings" && p != "/api/services" by { assert |p| == 14; }
  }

  /** The gallery routes are outside the gate, so their `x-service-provider-id` header is
      whatever the caller sent. */
  lemma GalleryIsUnprotected(rest: string)
    ensures !IsProtected("/api/gallery-images" + rest) && !InMatcher("/api/gallery-images" + rest)
  {
    var p := "/api/gallery-images" + rest;
    assert p[..13] != AuthPaths[0] by { assert p[5] == 'g' && AuthPaths[0][5] == 'b'; }
    assert p[..13] != AuthPaths[1] by { assert p[5] == 'g' && AuthPaths[1][5] == 's'; }
    assert p[..14] != "/api/bookings/" by { assert p[5] == 'g'; }
    assert p[..14] != "/api/services/" by { assert p[5] == 'g'; }
  }

  /** The `x-user-id` header the gate writes reads back, as the routes' `parseInt` does, to the
      id of the claims; so does `x-service-provider-id`. */
  lemma IdHeaderParses(id: nat)
    ensures var h := IntToString(id);
      (forall i | 0 <= i < |h| :: '0' <= h[i] <= '9') && DecimalValue(h) == id
  {
    DecimalRoundTrip(id);
  }
}
