/** A JSON reply of a route handler: status code, body and the cookies it sets. */
module Http {
  import opened Cookies

  datatype Reply<B> = Reply(status: int, body: B, setCookies: map<string, CookieSetting>)

  function Json<B>(status: int, body: B): (r: Reply<B>)
    ensures r.status == status && r.body == body && r.setCookies == map[]
  {
    Reply(status, body, map[])
  }
}

/**
 * app/api/auth/login/route.ts: a ladder of guards over the request body and
 * the user record. The password hash comparison (bcrypt) is an abstract
 * predicate; the user table is a map from username to user.
 */
module LoginRoute {
  import opened Opt
  import opened Http

  datatype User = User(id: string, username: string, email: string, role: string, isActive: bool, passwordHash: string)

  /** The request body: unparseable JSON, or the two (possibly missing) fields. */
  datatype LoginBody = Malformed | Body(username: Option<string>, password: Option<string>)

  /** The user store: reachable with its rows keyed by username, or failing. */
  datatype UserStore = Reachable(users: map<string, User>) | Failing

  /** The user fields a reply exposes: never the password hash. */
  datatype PublicUser = PublicUser(id: string, username: string, email: string, role: string)

  datatype LoginReply = Error(error: string) | Success(user: PublicUser)

  function Project(u: User): (p: PublicUser)
    ensures p.id == u.id && p.username == u.username && p.email == u.email && p.role == u.role
  {
    PublicUser(u.id, u.username, u.email, u.role)
  }

  /** `POST /api/auth/login`; `passwordMatches(plain, hash)` stands for bcrypt's `compare`. */
  function Login(body: LoginBody, store: UserStore, passwordMatches: (string, string) -> bool): (r: Reply<LoginReply>)
    // a thrown error (bad JSON, store failure) is a 500
    ensures body.Malformed? ==> r == Json(500, Error("Internal server error"))
    // missing fields are rejected before the store is consulted
    ensures body.Body? && (Falsy(body.username) || Falsy(body.password)) ==>
      r == Json(400, Error("Username and password are required"))
    ensures body.Body? && !Falsy(body.username) && !Falsy(body.password) ==>
      match store
      case Failing => r == Json(500, Error("Internal server error"))
      case Reachable(users) =>
        var name := body.username.value;
        if name !in users then r == Json(401, Error("Invalid credentials"))
        else if !users[name].isActive then r == Json(401, Error("Account is deactivated"))
        else if !passwordMatches(body.password.value, users[name].passwordHash) then r == Json(401, Error("Invalid credentials"))
        else r == Json(200, Success(Project(users[name])))
    // no outcome mints a session or sets a cookie
    ensures r.setCookies == map[]
  {
    match body
    case Malformed => Json(500, Error("Internal server error"))
    case Body(username, password) =>
      if Falsy(username) || Falsy(password) then Json(400, Error("Username and password are required"))
      else match store
        case Failing => Json(500, Error("Internal server error"))
        case Reachable(users) =>
          if username.value !in users then Json(401, Error("Invalid credentials"))
          else
            var user := users[username.value];
            if !user.isActive then Json(401, Error("Account is deactivated"))
            else if !passwordMatches(password.value, user.passwordHash) then Json(401, Error("Invalid credentials"))
            else Json(200, Success(Project(user)))
  }

  /** An inactive account is reported as such whatever password is offered. */
  lemma InactiveBeforePassword(username: string, p1: string, p2: string, users: map<string, User>, matches: (string, string) -> bool)
    requires username != "" && p1 != "" && p2 != ""
    requires username in users && !users[username].isActive
    ensures Login(Body(Some(username), Some(p1)), Reachable(users), matches)
         == Login(Body(Some(username), Some(p2)), Reachable(users), matches)
         == Json(401, Error("Account is deactivated"))
  {
  }

  /** An unknown user and a wrong password are indistinguishable to the caller. */
  lemma NoAccountEnumeration(u1: string, u2: string, pw: string, users: map<string, User>, matches: (string, string) -> bool)
    requires u1 != "" && u2 != "" && pw != ""
    requires u1 !in users
    requires u2 in users && users[u2].isActive && !matches(pw, users[u2].passwordHash)
    ensures Login(Body(Some(u1), Some(pw)), Reachable(users), matches).body
         == Login(Body(Some(u2), Some(pw)), Reachable(users), matches).body
  {
  }
}

/** app/api/auth/me/route.ts: one guard, one projection of the session claims. */
module MeRoute {
  import opened Opt
  import opened Session
  import opened Http
  import LoginRoute

  datatype MeReply = Unauthorized | Success(user: LoginRoute.PublicUser)

  /** `GET /api/auth/me`. */
  function Me(codec: Codec, env: Option<string>, cookies: map<string, string>, nowMs: int): (r: Reply<MeReply>)
    ensures !Live(GetSessionFromRequest(codec, env, cookies, nowMs), nowMs) <==> r == Json(401, Unauthorized)
    ensures Live(GetSessionFromRequest(codec, env, cookies, nowMs), nowMs) ==>
      var s := GetSessionFromRequest(codec, env, cookies, nowMs).value;
      r.status == 200 && r.body.Success? &&
      r.body.user == LoginRoute.PublicUser(s.userId, s.username, s.email, s.role)
    ensures r.status == 200 || r.status == 401
    ensures r.setCookies == map[]
  {
    var session := GetSessionFromRequest(codec, env, cookies, nowMs);
    if session.None? || IsSessionExpired(session.value, nowMs) then Json(401, Unauthorized)
    else
      var s := session.value;
      Json(200, Success(LoginRoute.PublicUser(s.userId, s.username, s.email, s.role)))
  }

  /** A session token signed with the configured secret, still live, reaches `200` with its identity. */
  lemma MintedSessionIsAccepted(codec: Codec, env: Option<string>, user: Identity, mintedMs: int, nowMs: int,
                                cookies: map<string, string>)
    requires Sound(codec)
    requires CookieName in cookies && cookies[CookieName] == CreateSession(codec, env, user, mintedMs)
    requires cookies[CookieName] != ""
    requires nowMs / 1000 < mintedMs / 1000 + SessionDuration
    ensures Me(codec, env, cookies, nowMs)
         == Json(200, Success(LoginRoute.PublicUser(user.userId, user.username, user.email, user.role)))
  {
    MintThenVerify(codec, env, user, mintedMs, nowMs);
    FreshSessionLivesAnHour(user, mintedMs, nowMs);
  }

  /** From the second `exp` on, `jwtVerify` refuses the minted token, so the route answers 401. */
  lemma MintedSessionRefusedAtExpiry(codec: Codec, env: Option<string>, user: Identity, mintedMs: int, nowMs: int,
                                     cookies: map<string, string>)
    requires Sound(codec)
    requires CookieName in cookies && cookies[CookieName] == CreateSession(codec, env, user, mintedMs)
    requires cookies[CookieName] != ""
    requires nowMs / 1000 >= mintedMs / 1000 + SessionDuration
    ensures Me(codec, env, cookies, nowMs) == Json(401, Unauthorized)
  {
    MintThenVerify(codec, env, user, mintedMs, nowMs);
  }

  /** A session whose `exp` is ten seconds in the past is refused, even from a verifier that does not check `exp`. */
  lemma ExpiredSessionRefused(codec: Codec, env: Option<string>, cookies: map<string, string>, nowMs: int)
    requires CookieName in cookies && cookies[CookieName] != ""
    requires var s := codec.verify(cookies[CookieName], Secret(env), nowMs); s.Some? && s.value.exp == nowMs / 1000 - 10
    ensures Me(codec, env, cookies, nowMs) == Json(401, Unauthorized)
  {
  }
}

/** app/api/auth/logout/route.ts: build `{success: true}` and clear the cookie on it. */
module LogoutRoute {
  import opened Cookies
  import Session

  /** The attributes logout clears the cookie with: empty, `Max-Age=0`, path `/`. */
  function ClearingCookie(production: bool): (c: CookieSetting)
    ensures c.value == "" && c.options.maxAge == 0 && c.options.path == "/"
    ensures c.options.httpOnly && c.options.sameSite == Lax
    ensures c.options.secure <==> production
  {
    CookieSetting("", CookieOptions(true, production, Lax, 0, "/"))
  }

  /** The outgoing response: a JSON body and its cookie jar. */
  class LogoutResponse {
    var status: int
    var success: bool
    const cookies: ResponseCookies

    constructor ()
      ensures status == 200 && success
      ensures fresh(cookies) && cookies.settings == map[]
    {
      status := 200;
      success := true;
      cookies := new ResponseCookies();
    }
  }

  /**
   * `POST /api/auth/logout`. It takes no request, so every call behaves the
   * same; `production` stands for `NODE_ENV === 'production'`.
   */
  method Logout(production: bool) returns (r: LogoutResponse)
    ensures fresh(r) && fresh(r.cookies)
    ensures r.status == 200 && r.success
    ensures r.cookies.settings == map[Session.CookieName := ClearingCookie(production)]
  {
    r := new LogoutResponse();
    r.cookies.Set(Session.CookieName, ClearingCookie(production));
  }
}
