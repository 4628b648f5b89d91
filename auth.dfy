/** The authentication routes: signup inserts a user after an email
    uniqueness check; signin and refresh each issue an access token and a
    refresh token that differ only in lifetime. */
module Auth {
  import opened Outcomes
  import opened Tables
  import opened Security

  /** The lifetime of refresh tokens: seven days. */
  const REFRESH_LIFETIME: Time := 7 * 24 * 60 * 60

  /** timedelta(minutes=ACCESS_TOKEN_EXPIRE_MINUTES), in seconds. */
  function AccessLifetime(env: Env): Time
  {
    env.accessMinutes * 60
  }

  /** The `data` field of the token response. */
  datatype ReplyData = SigninData(userId: Uid, email: string) | RefreshData(email: string)

  datatype RefreshPart = RefreshPart(accessToken: Token, tokenType: string)

  datatype TokenReply = TokenReply(accessToken: Token, tokenType: string, data: ReplyData, refreshToken: RefreshPart)

  /** The pair both signin and refresh build: the same subject, signed once
      with the access lifetime and once with the refresh lifetime, both of
      type "bearer". */
  function TokenPair(env: Env, email: string, data: ReplyData, now: Time): (r: TokenReply)
    ensures r.tokenType == "bearer" && r.refreshToken.tokenType == "bearer" && r.data == data
  {
    var subject := map["sub" := Text(email)];
    TokenReply(
      CreateAccessToken(env, subject, Some(AccessLifetime(env)), now),
      "bearer",
      data,
      RefreshPart(CreateAccessToken(env, subject, Some(REFRESH_LIFETIME), now), "bearer"))
  }

  /** The claims a token of this pair carries: `sub` and `exp`. */
  lemma TokenPairClaims(env: Env, email: string, data: ReplyData, now: Time)
    requires SignatureRoundTrip(env)
    ensures var r := TokenPair(env, email, data, now);
      && env.checkSignature(r.accessToken) == Some(map["sub" := Text(email), "exp" := Instant(
           now + if env.accessMinutes != 0 then env.accessMinutes * 60 else DEFAULT_LIFETIME)])
      && env.checkSignature(r.refreshToken.accessToken) == Some(map["sub" := Text(email), "exp" := Instant(now + REFRESH_LIFETIME)])
  {
  }

  /** POST /auth/signup: BadRequest when the email is taken; the stored
      password is the hash of the given one; the new user is active and not
      an admin. Validating the row against the declared password pattern
      happens on the plaintext, outside any handler, so a password the
      pattern refuses ends the request with a 500. */
  method Signup(db: Database, env: Env, form: UserCreate, newUid: Uid) returns (resp: Response<Uid>)
    requires db.Valid()
    requires newUid !in Uids(db.users, UserUid)
    modifies db
    ensures db.Valid()
    ensures db.orders == old(db.orders) && db.items == old(db.items)
    ensures (exists u :: u in old(db.users) && u.email == form.email) ==>
      resp == Raised(400, BadRequest) && db.users == old(db.users)
    ensures (forall u :: u in old(db.users) ==> u.email != form.email) && !PasswordPatternMatches(form.password) ==>
      resp == Raised(500, Internal) && db.users == old(db.users)
    ensures (forall u :: u in old(db.users) ==> u.email != form.email) && PasswordPatternMatches(form.password) ==>
      && resp == Ok(newUid)
      && db.users == old(db.users) + [NewUser(newUid, form, env.hash(form.password))]
  {
    if IndexOf(db.users, UserEmail, form.email).Some? {
      resp := Uncaught(Failure(BadRequest));
    } else if !PasswordPatternMatches(form.password) {
      resp := Uncaught(Failure(Internal));
    } else {
      var u := NewUser(newUid, form, env.hash(form.password));
      var users' := db.users + [u];
      forall a, b | 0 <= a < b < |users'| ensures users'[a].uid != users'[b].uid && users'[a].email != users'[b].email {
        if b == |db.users| {
          assert db.users[a] in db.users;
        }
      }
      assert Uids(db.users, UserUid) <= Uids(users', UserUid) by {
        forall x | x in Uids(db.users, UserUid) ensures x in Uids(users', UserUid) {
          var v :| v in db.users && v.uid == x;
          assert v in users';
        }
      }
      db.users := users';
      resp := Ok(newUid);
    }
  }

  /** A user who has just signed up can sign in with the same password. */
  lemma SignupThenAuthenticate(env: Env, users: seq<User>, form: UserCreate, uid: Uid)
    requires HashRoundTrip(env)
    requires DistinctBy(users + [NewUser(uid, form, env.hash(form.password))], UserEmail)
    ensures AuthenticateUser(env, users + [NewUser(uid, form, env.hash(form.password))], form.email, form.password)
            == Success(NewUser(uid, form, env.hash(form.password)))
  {
    var u := NewUser(uid, form, env.hash(form.password));
    GetUserUnique(users + [u], u);
    assert env.verifyPassword(form.password, env.hash(form.password));
  }

  /** POST /auth/token: authenticate, then issue the pair for the user's
      email with data {user_id, email}. An unknown email answers 404 (from
      get_user), a wrong password 401. */
  function Signin(env: Env, users: seq<User>, username: string, password: string, now: Time): (r: Response<TokenReply>)
    ensures r.Ok? <==> AuthenticateUser(env, users, username, password).Success?
    ensures r.Ok? ==>
      var u := AuthenticateUser(env, users, username, password).value;
      r.body == TokenPair(env, u.email, SigninData(u.uid, u.email), now) && u.email == username
    ensures r.Raised? && r.status == 404 <==> forall u :: u in users ==> u.email != username
    ensures r.Raised? ==> r.status == 404 || (r.status == 401 && r.cause == Unauthorized)
    ensures r.Raised? ==> r.cause == AuthenticateUser(env, users, username, password).error && r.status == StatusOf(r.cause)
  {
    match AuthenticateUser(env, users, username, password)
    case Failure(e) => Uncaught(Failure(e))
    case Success(u) => Uncaught(Success(TokenPair(env, u.email, SigninData(u.uid, u.email), now)))
  }

  /** GET /auth/refresh: a new pair for the email of the user the presented
      token resolves to, with data {email}. The handler's own "invalid
      refresh token" branch cannot be taken: verification either yields a
      user or has already failed. */
  function Refresh(env: Env, users: seq<User>, token: Token, now: Time): (r: Response<TokenReply>)
    ensures r.Ok? <==> VerifyRefreshToken(env, users, token, now).Success?
    ensures r.Ok? ==>
      var email := VerifyRefreshToken(env, users, token, now).value.email;
      r.body == TokenPair(env, email, RefreshData(email), now)
    ensures r.Raised? ==> r.cause == VerifyRefreshToken(env, users, token, now).error && r.status == StatusOf(r.cause)
  {
    match VerifyRefreshToken(env, users, token, now)
    case Failure(e) => Uncaught(Failure(e))
    case Success(u) => Uncaught(Success(TokenPair(env, u.email, RefreshData(u.email), now)))
  }

  /** Either token of a signin pair, presented to refresh before it expires,
      yields a new pair for the same email: refresh does not tell access
      tokens from refresh tokens. */
  lemma SigninTokensRefresh(env: Env, users: seq<User>, username: string, password: string, issuedAt: Time, now: Time, useAccess: bool)
    requires SignatureRoundTrip(env)
    requires DistinctBy(users, UserEmail)
    requires Signin(env, users, username, password, issuedAt).Ok?
    requires env.parseEmail(username) == Some(username)
    requires now < ExpiresAt(issuedAt, Some(if useAccess then AccessLifetime(env) else REFRESH_LIFETIME))
    ensures var pair := Signin(env, users, username, password, issuedAt).body;
      var token := if useAccess then pair.accessToken else pair.refreshToken.accessToken;
      Refresh(env, users, token, now) == Ok(TokenPair(env, username, RefreshData(username), now))
  {
  }
}
