/**
 * middleware.ts: the page-level access gate. A request either passes
 * (`NextResponse.next()`) or is redirected; the matcher keeps API routes,
 * static assets and the favicon out of the gate altogether.
 */
module AccessGate {
  import opened Opt
  import opened Text
  import opened Session

  datatype Decision = Next | Redirect(location: string)

  const LoginPath: string := "/login"
  const DashboardPath: string := "/admin/dashboard"

  /** `middleware`: the decision for a path that the matcher lets in. */
  function Middleware(codec: Codec, env: Option<string>, path: string, cookies: map<string, string>, nowMs: int): (d: Decision)
    ensures d == Next || d == Redirect(LoginPath) || d == Redirect(DashboardPath)
    ensures StartsWith(path, "/admin") ==>
      (d == Next <==> Live(GetSessionFromRequest(codec, env, cookies, nowMs), nowMs)) &&
      (d != Next ==> d == Redirect(LoginPath))
    ensures path == LoginPath ==>
      (d == Redirect(DashboardPath) <==> Live(GetSessionFromRequest(codec, env, cookies, nowMs), nowMs)) &&
      (d != Redirect(DashboardPath) ==> d == Next)
    ensures !StartsWith(path, "/admin") && path != LoginPath ==> d == Next
  {
    if StartsWith(path, "/admin") then
      AdminBranchLoginTestIsDead(path);
      if path == LoginPath then assert false; Next
      else
        var session := GetSessionFromRequest(codec, env, cookies, nowMs);
        if session.None? || IsSessionExpired(session.value, nowMs) then Redirect(LoginPath) else Next
    else if path == LoginPath then
      var session := GetSessionFromRequest(codec, env, cookies, nowMs);
      if session.Some? && !IsSessionExpired(session.value, nowMs) then Redirect(DashboardPath) else Next
    else Next
  }

  /** The `/login` test inside the `/admin` branch can never succeed. */
  lemma AdminBranchLoginTestIsDead(path: string)
    requires StartsWith(path, "/admin")
    ensures path != LoginPath
  {
    assert path[..6] == "/admin";
    assert path[1] == 'a' && LoginPath[1] == 'l';
  }

  /** Paths outside `/admin*` and `/login` pass whatever cookies, codec or clock the request brings. */
  lemma OtherPathsIgnoreSession(c1: Codec, c2: Codec, env1: Option<string>, env2: Option<string>, path: string,
                                cookies1: map<string, string>, cookies2: map<string, string>, t1: int, t2: int)
    requires !StartsWith(path, "/admin") && path != LoginPath
    ensures Middleware(c1, env1, path, cookies1, t1) == Middleware(c2, env2, path, cookies2, t2) == Next
  {
  }

  /** For a fixed session state, following a redirect lands on a page the gate lets through. */
  lemma AtMostOneRedirect(codec: Codec, env: Option<string>, path: string, cookies: map<string, string>, nowMs: int)
    ensures match Middleware(codec, env, path, cookies, nowMs)
            case Next => true
            case Redirect(to) => Middleware(codec, env, to, cookies, nowMs) == Next
  {
    var d := Middleware(codec, env, path, cookies, nowMs);
    if d == Redirect(LoginPath) {
      assert !StartsWith(LoginPath, "/admin") by { assert LoginPath[1] != '/'; assert LoginPath[1] != 'a'; }
    } else if d == Redirect(DashboardPath) {
      assert StartsWith(DashboardPath, "/admin") by { assert DashboardPath[..6] == "/admin"; }
    }
  }

  /** `/administrator` is gated like `/admin` (a plain prefix test). */
  lemma AdministratorIsGated(codec: Codec, env: Option<string>, cookies: map<string, string>, nowMs: int)
    ensures !Live(GetSessionFromRequest(codec, env, cookies, nowMs), nowMs) ==>
      Middleware(codec, env, "/administrator", cookies, nowMs) == Redirect(LoginPath)
  {
    assert StartsWith("/administrator", "/admin") by { assert "/administrator"[..6] == "/admin"; }
  }

  /**
   * The matcher `/((?!api|_next/static|_next/image|favicon.ico).*)`: a path
   * is intercepted unless the text after its leading '/' begins with one of
   * the four alternatives. The '.' of `favicon.ico` is a regular-expression
   * wildcard, so any character may stand between `favicon` and `ico`.
   */
  predicate FaviconLike(rest: string) {
    |rest| >= 11 && rest[..7] == "favicon" && rest[8..11] == "ico"
  }

  predicate Excluded(rest: string) {
    StartsWith(rest, "api") || StartsWith(rest, "_next/static") || StartsWith(rest, "_next/image") || FaviconLike(rest)
  }

  predicate Intercepted(path: string) {
    |path| >= 1 && path[0] == '/' && !Excluded(path[1..])
  }

  /** The gate as deployed: the matcher first, then `middleware`. */
  function Gate(codec: Codec, env: Option<string>, path: string, cookies: map<string, string>, nowMs: int): (d: Decision)
    ensures !Intercepted(path) ==> d == Next
    ensures Intercepted(path) ==> d == Middleware(codec, env, path, cookies, nowMs)
  {
    if Intercepted(path) then Middleware(codec, env, path, cookies, nowMs) else Next
  }

  /** Every path under `/api` (and `/apiary` too) bypasses the gate, with or without a session. */
  lemma ApiRoutesBypassGate(codec: Codec, env: Option<string>, rest: string, cookies: map<string, string>, nowMs: int)
    ensures Gate(codec, env, "/api" + rest, cookies, nowMs) == Next
  {
    var p := "/api" + rest;
    assert p[1..][..3] == "api";
  }

  /** `/faviconXico` is skipped as well: the wildcard at work. */
  lemma FaviconWildcard(codec: Codec, env: Option<string>, cookies: map<string, string>, nowMs: int)
    ensures Gate(codec, env, "/faviconXico", cookies, nowMs) == Next
  {
    assert FaviconLike("faviconXico");
  }

  /** `/admin/dashboard` is intercepted, so the gate does protect the console. */
  lemma ConsoleIsIntercepted()
    ensures Intercepted("/admin/dashboard")
  {
    var rest := "admin/dashboard";
    assert "/admin/dashboard"[1..] == rest;
    assert rest[0] == 'a' && rest[1] == 'd';
    assert !StartsWith(rest, "api");
    assert rest[0] != '_' && rest[0] != 'f';
  }
}
