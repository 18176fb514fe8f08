/** The request proxy in front of every page: public routes pass, everything else needs a
    session cookie, and a request without one is redirected to the sign-in page with the
    requested path as `callbackUrl`. Cookies are represented by their names. */
module Proxy {
  import opened Common

  const SignInPath := "/auth/signin"
  const PublicRoutes: seq<string> := ["/auth/signin", "/auth/signup", "/api/auth"]

  /** Path prefixes (after the leading `/`) the matcher excludes; `.` is the regular-expression
      wildcard and matches any character. */
  const ExcludedPatterns: seq<string> := ["api/auth", "_next/static", "_next/image", "favicon.ico", "sw.js", "uploads"]

  /** `publicRoutes.some(route => pathname.startsWith(route))` */
  predicate IsPublicRoute(path: string) {
    exists i :: 0 <= i < |PublicRoutes| && StartsWith(path, PublicRoutes[i])
  }

  /** The cookie names that count as a session. */
  predicate IsSessionCookieName(name: string) {
    Contains(name, "session-token") || Contains(name, "authjs") || Contains(name, "next-auth")
  }

  predicate HasSessionCookie(cookies: seq<string>) {
    exists i :: 0 <= i < |cookies| && IsSessionCookieName(cookies[i])
  }

  /** `s` starts with `pattern`, where `.` in the pattern matches any character. */
  predicate PatternPrefix(s: string, pattern: string) {
    |pattern| <= |s| && forall k :: 0 <= k < |pattern| ==> pattern[k] == '.' || s[k] == pattern[k]
  }

  /** The matcher `/((?!api/auth|_next/static|…).*)`: the proxy runs on a path that starts with
      `/` and whose remainder starts with none of the excluded patterns. */
  predicate Matched(path: string) {
    |path| >= 1 && path[0] == '/'
    && forall i :: 0 <= i < |ExcludedPatterns| ==> !PatternPrefix(path[1..], ExcludedPatterns[i])
  }

  datatype Decision = Next | Redirect(location: string, callbackUrl: string)

  /** `proxy`: public routes and requests carrying a session cookie go through; anything else is
      sent to the sign-in page, which then returns to the requested path. Admin routes get no
      role check here. */
  function Route(path: string, cookies: seq<string>): (d: Decision)
    ensures d.Next? <==> IsPublicRoute(path) || HasSessionCookie(cookies)
    ensures d.Redirect? ==> d.location == SignInPath && d.callbackUrl == path
  {
    if IsPublicRoute(path) then Next
    else if !HasSessionCookie(cookies) then Redirect(SignInPath, path)
    else Next
  }

  /** The whole pipeline: paths the matcher excludes never reach the proxy. */
  function Handle(path: string, cookies: seq<string>): (d: Decision)
    ensures !Matched(path) ==> d == Next
    ensures Matched(path) ==> d == Route(path, cookies)
  {
    if Matched(path) then Route(path, cookies) else Next
  }

  /** Public routes are prefixes: anything below them is public too. */
  lemma PublicRoutesArePrefixes(path: string, rest: string)
    requires IsPublicRoute(path)
    ensures IsPublicRoute(path + rest)
  {
    var i :| 0 <= i < |PublicRoutes| && StartsWith(path, PublicRoutes[i]);
    assert (path + rest)[..|PublicRoutes[i]|] == path[..|PublicRoutes[i]|];
  }

  /** The redirect never loops: its target is a public route, which the proxy lets through
      whatever the cookies. */
  lemma RedirectTargetPasses(path: string, cookies: seq<string>, later: seq<string>)
    requires Route(path, cookies).Redirect?
    ensures IsPublicRoute(Route(path, cookies).location)
    ensures Route(Route(path, cookies).location, later) == Next
  {
    assert StartsWith(SignInPath, PublicRoutes[0]);
  }

  /** Admin pages need only a session cookie: the role is not looked at. */
  lemma AdminPagesNeedOnlyACookie(rest: string, cookies: seq<string>)
    ensures Route("/admin" + rest, cookies) == Next <==> HasSessionCookie(cookies)
  {
    var path := "/admin" + rest;
    forall i | 0 <= i < |PublicRoutes| ensures !StartsWith(path, PublicRoutes[i]) {
      assert path[2] == 'd' && |PublicRoutes[i]| >= 3 && PublicRoutes[i][2] != 'd';
    }
  }

  /** Any cookie whose name merely mentions `authjs` counts, the CSRF token included. */
  lemma CsrfTokenCountsAsSession()
    ensures Route("/history", ["authjs.csrf-token"]) == Next
  {
    assert OccursAt("authjs.csrf-token", "authjs", 0);
    assert IsSessionCookieName(["authjs.csrf-token"][0]);
  }

  /** The sign-in API never reaches the proxy; the sign-in page does, and passes. */
  lemma AuthRoutes(rest: string, cookies: seq<string>)
    ensures Handle("/api/auth" + rest, cookies) == Next && !Matched("/api/auth" + rest)
    ensures Handle("/auth/signin" + rest, cookies) == Next
  {
    var api := "/api/auth" + rest;
    assert PatternPrefix(api[1..], ExcludedPatterns[0]) by {
      assert api[1..][..8] == "api/auth";
    }
    assert StartsWith(SignInPath, PublicRoutes[0]);
    PublicRoutesArePrefixes(SignInPath, rest);
  }
}
