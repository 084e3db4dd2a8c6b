/**
 * HTTP cookies as the session layer uses them: a mutable jar of name/value
 * pairs (Next.js's `cookies()` store and `response.cookies`) and the
 * attributes a `Set-Cookie` directive carries.
 */
module Cookies {

  datatype SameSite = Lax | Strict | NoneSameSite

  datatype CookieOptions = CookieOptions(
    httpOnly: bool,
    secure: bool,
    sameSite: SameSite,
    maxAge: int,
    path: string)

  /** One `Set-Cookie` directive: the value and its attributes. */
  datatype CookieSetting = CookieSetting(value: string, options: CookieOptions)

  /** A cookie store whose entries the handlers set and delete in place. */
  class CookieJar {
    var entries: map<string, string>

    constructor (initial: map<string, string>)
      ensures entries == initial
    {
      entries := initial;
    }

    /** `cookieStore.delete(name)`: that entry goes, every other stays. */
    method Delete(name: string)
      modifies this
      ensures entries == old(entries) - {name}
      ensures forall n :: n in old(entries) && n != name ==> n in entries && entries[n] == old(entries)[n]
    {
      entries := entries - {name};
    }
  }

  /** The cookies an outgoing response sets (`response.cookies.set`). */
  class ResponseCookies {
    var settings: map<string, CookieSetting>

    constructor ()
      ensures settings == map[]
    {
      settings := map[];
    }

    method Set(name: string, setting: CookieSetting)
      modifies this
      ensures settings == old(settings)[name := setting]
    {
      settings := settings[name := setting];
    }
  }
}

/**
 * lib/session.ts: the signed session token (a JWT signed with HS256) and
 * its expiry test. The JWT library is abstracted as a pair of functions,
 * `sign` and `verify`, over an explicit key; `verify` also reads the clock,
 * because `jwtVerify` refuses a token whose `exp` claim has been reached.
 * `Sound` and `ChecksExpiry` are the properties the model needs of it.
 */
module Session {
  import opened Opt
  import opened Cookies

  /** `SESSION_COOKIE_NAME`. */
  const CookieName: string := "admin-session"
  /** `SESSION_DURATION`: one hour, in seconds. */
  const SessionDuration: int := 60 * 60
  /** The key used when `NEXTAUTH_SECRET` is unset or empty. */
  const FallbackSecret: string := "fallback-secret-key"

  /** The four identity claims a caller hands to `createSession`. */
  datatype Identity = Identity(userId: string, username: string, email: string, role: string)

  /** `SessionData`: the identity claims plus `exp`, in Unix seconds. */
  datatype SessionData = SessionData(userId: string, username: string, email: string, role: string, exp: int)

  /**
   * The signer/verifier pair: `SignJWT(...).sign(secret)`, and
   * `jwtVerify(token, secret)` at a millisecond instant.
   */
  datatype Codec = Codec(sign: (SessionData, string) -> string, verify: (string, string, int) -> Option<SessionData>)

  /**
   * A token signed under a key verifies under that key to the claims it was
   * signed with until its `exp` second is reached; from then on `jwtVerify`
   * throws (`exp <= now`, with no clock tolerance) and the answer is `None`.
   */
  ghost predicate Sound(codec: Codec) {
    forall d, key, nowMs :: codec.verify(codec.sign(d, key), key, nowMs) == if d.exp <= nowMs / 1000 then None else Some(d)
  }

  /** Whatever the token, `jwtVerify` accepts it only before its `exp` second. */
  ghost predicate ChecksExpiry(codec: Codec) {
    forall token, key, nowMs :: codec.verify(token, key, nowMs).Some? ==> codec.verify(token, key, nowMs).value.exp > nowMs / 1000
  }

  /** The signing key: `process.env.NEXTAUTH_SECRET || 'fallback-secret-key'`. */
  function Secret(env: Option<string>): (key: string)
    ensures env.Some? && env.value != "" ==> key == env.value
    ensures env.None? || env.value == "" ==> key == FallbackSecret
  {
    if env.Some? && env.value != "" then env.value else FallbackSecret
  }

  /** Whole seconds of a millisecond clock: `Math.floor(Date.now() / 1000)`. */
  function Seconds(nowMs: int): (s: int)
    ensures s * 1000 <= nowMs < s * 1000 + 1000
  {
    nowMs / 1000
  }

  /** The claims `createSession` signs: the identity unchanged and `exp` one hour on. */
  function Claims(user: Identity, nowMs: int): (d: SessionData)
    ensures d.userId == user.userId && d.username == user.username
    ensures d.email == user.email && d.role == user.role
    ensures d.exp - SessionDuration <= nowMs / 1000 < d.exp - SessionDuration + 1
  {
    SessionData(user.userId, user.username, user.email, user.role, Seconds(nowMs) + SessionDuration)
  }

  /** `createSession`: sign the claims with the configured secret. */
  function CreateSession(codec: Codec, env: Option<string>, user: Identity, nowMs: int): (token: string)
    ensures Sound(codec) ==> forall laterMs :: VerifySession(codec, env, token, laterMs) ==
                                (if laterMs / 1000 < nowMs / 1000 + SessionDuration then Some(Claims(user, nowMs)) else None)
  {
    codec.sign(Claims(user, nowMs), Secret(env))
  }

  /** `verifySession`: the verifier's answer at `nowMs`; a failure is `None`, never an exception. */
  function VerifySession(codec: Codec, env: Option<string>, token: string, nowMs: int): (r: Option<SessionData>)
    ensures Sound(codec) ==> forall d :: token == codec.sign(d, Secret(env)) ==>
                                r == (if d.exp <= nowMs / 1000 then None else Some(d))
    ensures ChecksExpiry(codec) && r.Some? ==> !IsSessionExpired(r.value, nowMs)
  {
    codec.verify(token, Secret(env), nowMs)
  }

  /**
   * With a sound codec, the token `createSession` mints at `mintedMs` verifies
   * to the identity and the computed `exp` during the following 3600 seconds,
   * and to nothing from the second `exp` on.
   */
  lemma MintThenVerify(codec: Codec, env: Option<string>, user: Identity, mintedMs: int, nowMs: int)
    requires Sound(codec)
    ensures nowMs / 1000 < mintedMs / 1000 + 3600 ==>
      VerifySession(codec, env, CreateSession(codec, env, user, mintedMs), nowMs)
      == Some(SessionData(user.userId, user.username, user.email, user.role, mintedMs / 1000 + 3600))
    ensures nowMs / 1000 >= mintedMs / 1000 + 3600 ==>
      VerifySession(codec, env, CreateSession(codec, env, user, mintedMs), nowMs) == None
  {
  }

  /** The token a cookie map carries; `None` when absent or empty (falsy). */
  function TokenOf(cookies: map<string, string>): (t: Option<string>)
    ensures t.Some? <==> CookieName in cookies && cookies[CookieName] != ""
    ensures t.Some? ==> t.value == cookies[CookieName]
  {
    if CookieName in cookies && cookies[CookieName] != "" then Some(cookies[CookieName]) else None
  }

  /** `getSessionFromRequest`: the request's `admin-session` cookie, verified. */
  function GetSessionFromRequest(codec: Codec, env: Option<string>, cookies: map<string, string>, nowMs: int): (r: Option<SessionData>)
    ensures CookieName !in cookies || cookies[CookieName] == "" ==> r == None
    ensures CookieName in cookies && cookies[CookieName] != "" ==> r == codec.verify(cookies[CookieName], Secret(env), nowMs)
  {
    match TokenOf(cookies)
    case None => None
    case Some(token) => VerifySession(codec, env, token, nowMs)
  }

  /** Without the cookie no verifier is consulted: every codec gives `None`. */
  lemma AbsentCookieNeedsNoVerifier(c1: Codec, c2: Codec, env: Option<string>, cookies: map<string, string>, nowMs: int)
    requires CookieName !in cookies
    ensures GetSessionFromRequest(c1, env, cookies, nowMs) == GetSessionFromRequest(c2, env, cookies, nowMs) == None
  {
  }

  /** `getSession`: the same reading from the server's own cookie store. */
  function GetSession(codec: Codec, env: Option<string>, store: CookieJar, nowMs: int): (r: Option<SessionData>)
    reads store
    ensures CookieName !in store.entries ==> r == None
    ensures r == GetSessionFromRequest(codec, env, store.entries, nowMs)
  {
    GetSessionFromRequest(codec, env, store.entries, nowMs)
  }

  /** `isSessionExpired`: strictly past `exp` at the current whole second. */
  predicate IsSessionExpired(session: SessionData, nowMs: int) {
    Seconds(nowMs) > session.exp
  }

  /** The check every protected handler makes: a session is present and not expired. */
  predicate Live(session: Option<SessionData>, nowMs: int) {
    session.Some? && !IsSessionExpired(session.value, nowMs)
  }

  /**
   * Behind a verifier that checks expiry, every session the cookie yields is
   * live: the handlers' `isSessionExpired` test never fires, and only the
   * presence of a session decides.
   */
  lemma VerifiedSessionIsLive(codec: Codec, env: Option<string>, cookies: map<string, string>, nowMs: int)
    requires ChecksExpiry(codec)
    ensures Live(GetSessionFromRequest(codec, env, cookies, nowMs), nowMs) <==> GetSessionFromRequest(codec, env, cookies, nowMs).Some?
  {
  }

  /** The boundary is strict: at the second `exp` the session is live, one second later it is not. */
  lemma ExpiryIsStrict(session: SessionData, nowMs: int)
    ensures nowMs / 1000 == session.exp ==> !IsSessionExpired(session, nowMs)
    ensures nowMs / 1000 == session.exp + 1 ==> IsSessionExpired(session, nowMs)
  {
  }

  /** Once expired, always expired. */
  lemma {:induction false} ExpiryIsMonotone(session: SessionData, t1: int, t2: int)
    requires t1 <= t2
    requires IsSessionExpired(session, t1)
    ensures IsSessionExpired(session, t2)
  {
    assert Seconds(t1) <= Seconds(t2) by {
      assert Seconds(t1) * 1000 <= t1 <= t2 < Seconds(t2) * 1000 + 1000;
    }
  }

  /** A session minted at second `t` stays live at every instant whose second count is at most `t + 3600`. */
  lemma FreshSessionLivesAnHour(user: Identity, mintedMs: int, nowMs: int)
    requires nowMs / 1000 <= mintedMs / 1000 + SessionDuration
    ensures !IsSessionExpired(Claims(user, mintedMs), nowMs)
  {
  }

  /** `clearSession`: delete the `admin-session` entry of the server cookie store, nothing else. */
  method ClearSession(store: CookieJar)
    modifies store
    ensures store.entries == old(store.entries) - {CookieName}
    ensures CookieName !in store.entries
  {
    store.Delete(CookieName);
  }
}
