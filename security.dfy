/** Token issuance and the identity decisions: looking a user up by email,
    checking a password, and resolving a bearer token to a user.

    The cryptography is not modelled: signing, checking a signature, hashing
    and verifying a password, and the email syntax check are functions
    supplied in `Env`, and the clock is the `now` parameter. */
module Security {
  import opened Outcomes
  import opened Tables

  type Token = string

  /** Seconds since the epoch. */
  type Time = int

  /** A claim value: a string, a time (`exp`), or JSON null. */
  datatype Claim = Text(s: string) | Instant(t: Time) | Null

  type Claims = map<string, Claim>

  /** The collaborators the decisions depend on. */
  datatype Env = Env(
    sign: Claims -> Token,                     // jwt.encode with the secret key and algorithm
    checkSignature: Token -> Option<Claims>,   // jwt.decode up to, not including, its time checks
    hash: string -> string,                    // the password hasher (its salt folded in)
    verifyPassword: (string, string) -> bool,  // (plain, hashed) -> matches
    parseEmail: string -> Option<string>,      // TokenData's email validation: the normalised address, or None
    accessMinutes: int)                        // the ACCESS_TOKEN_EXPIRE_MINUTES setting

  /** Signing then checking gives back the claims that were signed. */
  ghost predicate SignatureRoundTrip(env: Env)
  {
    forall c :: env.checkSignature(env.sign(c)) == Some(c)
  }

  /** Verifying a password against its own hash succeeds. */
  ghost predicate HashRoundTrip(env: Env)
  {
    forall p :: env.verifyPassword(p, env.hash(p))
  }

  /** The lifetime used when none is given (or a zero one is): 30 minutes. */
  const DEFAULT_LIFETIME: Time := 30 * 60

  /** The expiry of a token issued at `now`: a delta counts only when it is
      given and non-zero (a zero timedelta is falsy). */
  function ExpiresAt(now: Time, expiresDelta: Option<Time>): (exp: Time)
    ensures expiresDelta.Some? && expiresDelta.value != 0 ==> exp == now + expiresDelta.value
    ensures expiresDelta.None? || expiresDelta.value == 0 ==> exp == now + DEFAULT_LIFETIME
    ensures expiresDelta.None? || expiresDelta.value >= 0 ==> exp > now
  {
    if expiresDelta.Some? && expiresDelta.value != 0 then now + expiresDelta.value
    else now + DEFAULT_LIFETIME
  }

  /** The claims create_access_token signs: a copy of the caller's claims
      with `exp` set (section 4.1.4 of RFC 7519); every other claim is kept. */
  function TokenClaims(data: Claims, expiresDelta: Option<Time>, now: Time): (c: Claims)
    ensures c.Keys == data.Keys + {"exp"}
    ensures c["exp"] == Instant(ExpiresAt(now, expiresDelta))
    ensures forall k :: k in data && k != "exp" ==> c[k] == data[k]
  {
    data["exp" := Instant(ExpiresAt(now, expiresDelta))]
  }

  /** create_access_token: the signed copy of the caller's claims with `exp`
      set; checking its signature gives those claims back. */
  function CreateAccessToken(env: Env, data: Claims, expiresDelta: Option<Time>, now: Time): (t: Token)
    ensures SignatureRoundTrip(env) ==> env.checkSignature(t) == Some(TokenClaims(data, expiresDelta, now))
  {
    env.sign(TokenClaims(data, expiresDelta, now))
  }

  /** jwt.decode: the signature must check, and an `exp` claim, when present,
      must be a time later than `now`. */
  function Decode(env: Env, token: Token, now: Time): (r: Option<Claims>)
    ensures r.Some? ==> env.checkSignature(token) == r
    ensures r.Some? <==>
      && env.checkSignature(token).Some?
      && var c := env.checkSignature(token).value;
         "exp" in c ==> c["exp"].Instant? && now < c["exp"].t
  {
    match env.checkSignature(token)
    case None => None
    case Some(c) =>
      if "exp" in c && !(c["exp"].Instant? && now < c["exp"].t) then None else Some(c)
  }

  /** A token issued for subject `email` decodes, with that subject, exactly
      until its expiry. */
  lemma TokenRoundTrip(env: Env, email: string, expiresDelta: Option<Time>, issuedAt: Time, now: Time)
    requires SignatureRoundTrip(env)
    ensures var d := Decode(env, CreateAccessToken(env, map["sub" := Text(email)], expiresDelta, issuedAt), now);
      && (d.Some? <==> now < ExpiresAt(issuedAt, expiresDelta))
      && (d.Some? ==> "sub" in d.value && d.value["sub"] == Text(email))
  {
  }

  /** get_user: the user with this email, else NotFound. */
  function GetUser(users: seq<User>, email: string): (r: Result<User>)
    ensures r.Success? ==> r.value in users && r.value.email == email
    ensures r.Failure? <==> forall u :: u in users ==> u.email != email
    ensures r.Failure? ==> r.error == NotFound
  {
    match IndexOf(users, UserEmail, email)
    case None => Failure(NotFound)
    case Some(i) => Success(users[i])
  }

  /** With unique emails, get_user finds exactly the user holding the email. */
  lemma GetUserUnique(users: seq<User>, u: User)
    requires DistinctBy(users, UserEmail)
    requires u in users
    ensures GetUser(users, u.email) == Success(u)
  {
  }

  /** authenticate_user: NotFound for an unknown email (raised by get_user),
      Unauthorized for a password that does not verify against the stored
      hash, otherwise the stored user. */
  function AuthenticateUser(env: Env, users: seq<User>, email: string, password: string): (r: Result<User>)
    ensures r.Success? ==> r.value in users && r.value.email == email && env.verifyPassword(password, r.value.password)
    ensures r == Failure(NotFound) <==> forall u :: u in users ==> u.email != email
    ensures r == Failure(Unauthorized) <==>
      GetUser(users, email).Success? && !env.verifyPassword(password, GetUser(users, email).value.password)
    ensures r.Success? || r == Failure(NotFound) || r == Failure(Unauthorized)
  {
    match GetUser(users, email)
    case Failure(e) => Failure(e)
    case Success(u) => if !env.verifyPassword(password, u.password) then Failure(Unauthorized) else Success(u)
  }

  /** The address get_current_user looks up: Unauthorized when the token
      does not decode or has no (or a null) `sub`; otherwise the address
      TokenData's validation makes of `sub`, which may differ from `sub`
      itself (normalised). A `sub` that is not a valid email fails that
      validation, which nothing catches (500). */
  function SubjectEmail(env: Env, token: Token, now: Time): (r: Result<string>)
    ensures r.Success? ==> Decode(env, token, now).Some? && "sub" in Decode(env, token, now).value
    ensures r.Success? ==>
      var sub := Decode(env, token, now).value["sub"];
      sub.Text? && env.parseEmail(sub.s) == Some(r.value)
    ensures r == Failure(Unauthorized) <==>
      Decode(env, token, now).None? || "sub" !in Decode(env, token, now).value || Decode(env, token, now).value["sub"] == Null
    ensures r == Failure(Internal) <==>
      && Decode(env, token, now).Some? && "sub" in Decode(env, token, now).value
      && var sub := Decode(env, token, now).value["sub"];
         sub != Null && (!sub.Text? || env.parseEmail(sub.s).None?)
    ensures r.Success? || r == Failure(Unauthorized) || r == Failure(Internal)
  {
    match Decode(env, token, now)
    case None => Failure(Unauthorized)
    case Some(payload) =>
      if "sub" !in payload || payload["sub"] == Null then Failure(Unauthorized)
      else if payload["sub"].Text? && env.parseEmail(payload["sub"].s).Some? then Success(env.parseEmail(payload["sub"].s).value)
      else Failure(Internal)
  }

  /** get_current_user: the user named by the token's subject. A subject with
      no user surfaces as get_user's NotFound, so the final Unauthorized of the
      handler is never reached. */
  function GetCurrentUser(env: Env, users: seq<User>, token: Token, now: Time): (r: Result<User>)
    ensures r.Success? ==> r.value in users && SubjectEmail(env, token, now) == Success(r.value.email)
    ensures r == Failure(Unauthorized) <==> SubjectEmail(env, token, now) == Failure(Unauthorized)
    ensures r == Failure(NotFound) <==>
      SubjectEmail(env, token, now).Success? && forall u :: u in users ==> u.email != SubjectEmail(env, token, now).value
    ensures r == Failure(Internal) <==> SubjectEmail(env, token, now) == Failure(Internal)
    ensures r.Success? <==>
      SubjectEmail(env, token, now).Success? && exists u :: u in users && u.email == SubjectEmail(env, token, now).value
    ensures r.Success? || r == Failure(Unauthorized) || r == Failure(NotFound) || r == Failure(Internal)
  {
    match SubjectEmail(env, token, now)
    case Failure(e) => Failure(e)
    case Success(email) =>
      match GetUser(users, email)
      case Failure(e) => Failure(e)
      case Success(u) => Success(u)
  }

  /** get_current_active_user: BadRequest for an inactive user, else the same user. */
  function GetCurrentActiveUser(current: Result<User>): (r: Result<User>)
    ensures r.Success? <==> current.Success? && current.value.active
    ensures r.Success? ==> r.value == current.value
    ensures current.Failure? ==> r == current
    ensures current.Success? && !current.value.active ==> r == Failure(BadRequest)
  {
    match current
    case Failure(e) => Failure(e)
    case Success(u) => if !u.active then Failure(BadRequest) else Success(u)
  }

  /** verify_refresh_token: the same decisions as get_current_user; nothing
      in the token says whether it was issued as an access or a refresh token. */
  function VerifyRefreshToken(env: Env, users: seq<User>, token: Token, now: Time): (r: Result<User>)
    ensures r.Success? ==> r.value in users
  {
    match Decode(env, token, now)
    case None => Failure(Unauthorized)
    case Some(payload) =>
      if "sub" !in payload || payload["sub"] == Null then Failure(Unauthorized)
      else if !(payload["sub"].Text? && env.parseEmail(payload["sub"].s).Some?) then Failure(Internal)
      else match GetUser(users, env.parseEmail(payload["sub"].s).value)
        case Failure(e) => Failure(e)
        case Success(u) => Success(u)
  }

  /** Refresh-token verification and access-token verification accept and
      reject the same tokens, with the same errors. */
  lemma RefreshVerifiesLikeAccess(env: Env, users: seq<User>, token: Token, now: Time)
    ensures VerifyRefreshToken(env, users, token, now) == GetCurrentUser(env, users, token, now)
  {
  }

  /** A token this service issued for a registered email resolves to that
      user until it expires, and is refused as Unauthorized from then on. */
  lemma IssuedTokenResolves(env: Env, users: seq<User>, u: User, expiresDelta: Option<Time>, issuedAt: Time, now: Time)
    requires SignatureRoundTrip(env)
    requires DistinctBy(users, UserEmail) && u in users && env.parseEmail(u.email) == Some(u.email)
    ensures var token := CreateAccessToken(env, map["sub" := Text(u.email)], expiresDelta, issuedAt);
      GetCurrentUser(env, users, token, now) ==
        if now < ExpiresAt(issuedAt, expiresDelta) then Success(u) else Failure(Unauthorized)
  {
  }
}
