/** The page-request middleware: it classifies the path by prefix, picks the
    access token from the cookie or the `Authorization` header, verifies it
    and decides whether the request goes through or is redirected.
    Token verification is a parameter: `verify(token)` is `None` when the
    verification rejects the token and otherwise gives the payload. */
module RouteGate {
  import opened Text

  /** The claims of a verified token; only `id` is inspected. */
  datatype Payload = Payload(id: Option<string>)

  datatype Action = Next | RedirectToLogin | RedirectToDashboard

  const ProtectedRoutes: seq<string> := ["/dashboard", "/meets"]
  const LoginRoutes: seq<string> := ["/login", "/register"]
  const BearerPrefix: string := "Bearer "

  /** `routes.some(route => path.startsWith(route))` */
  predicate StartsWithAny(path: string, routes: seq<string>)
  {
    exists i :: 0 <= i < |routes| && StartsWith(path, routes[i])
  }

  predicate IsProtectedRoute(path: string)
  {
    StartsWithAny(path, ProtectedRoutes)
  }

  predicate IsLoginRoute(path: string)
  {
    StartsWithAny(path, LoginRoutes)
  }

  /** The token the header carries: everything after `"Bearer "`, when the
      header starts with it. */
  function HeaderToken(header: Option<string>): (r: Option<string>)
    ensures r.Some? <==> header.Some? && StartsWith(header.value, BearerPrefix)
    ensures r.Some? ==> header.value == BearerPrefix + r.value
  {
    if header.Some? && StartsWith(header.value, BearerPrefix) then
      assert header.value == header.value[..7] + header.value[7..];
      Some(header.value[7..])
    else None
  }

  /** `cookie || headerToken`: the cookie wins whenever it is non-empty. */
  function SelectToken(cookie: Option<string>, header: Option<string>): (r: Option<string>)
    ensures Truthy(cookie) ==> r == cookie
    ensures !Truthy(cookie) ==> r == HeaderToken(header)
  {
    if Truthy(cookie) then cookie else HeaderToken(header)
  }

  /** Verification succeeded and the payload carries a truthy `id`. */
  predicate Accepted(token: string, verify: string -> Option<Payload>)
  {
    verify(token).Some? && Truthy(verify(token).value.id)
  }

  /** The whole decision of `middleware` for one request. */
  function Decide(path: string, cookie: Option<string>, header: Option<string>,
                  verify: string -> Option<Payload>): (r: Action)
    ensures !IsProtectedRoute(path) && !IsLoginRoute(path) ==> r == Next
    ensures r == RedirectToDashboard ==> IsLoginRoute(path)
    ensures r == RedirectToLogin ==> IsProtectedRoute(path) && !IsLoginRoute(path)
  {
    var isProtected := IsProtectedRoute(path);
    var isLogin := IsLoginRoute(path);
    if !isProtected && !isLogin then Next
    else
      var token := SelectToken(cookie, header);
      if !Truthy(token) then
        (if isLogin then Next else RedirectToLogin)
      else if Accepted(token.value, verify) then
        (if isLogin then RedirectToDashboard else Next)
      else
        (if isLogin then Next else RedirectToLogin)
  }

  /** The two route lists share no prefix, so no path is in both classes. */
  lemma RouteClassesDisjoint(path: string)
    ensures !(IsProtectedRoute(path) && IsLoginRoute(path))
  {
    if IsProtectedRoute(path) {
      var i :| 0 <= i < 2 && StartsWith(path, ProtectedRoutes[i]);
      assert path[1] == ProtectedRoutes[i][1];
    }
  }

  /** The precise decision for a protected path: it goes through exactly
      when a token is present and accepted, and is sent to `/login`
      otherwise. */
  lemma ProtectedDecision(path: string, cookie: Option<string>, header: Option<string>,
                          verify: string -> Option<Payload>)
    requires IsProtectedRoute(path)
    ensures var token := SelectToken(cookie, header);
            Decide(path, cookie, header, verify) ==
              if Truthy(token) && Accepted(token.value, verify) then Next else RedirectToLogin
  {
    RouteClassesDisjoint(path);
  }

  /** A login or register path is never blocked: it goes through unless an
      accepted token sends the user to `/dashboard`. */
  lemma LoginDecision(path: string, cookie: Option<string>, header: Option<string>,
                      verify: string -> Option<Payload>)
    requires IsLoginRoute(path)
    ensures var token := SelectToken(cookie, header);
            Decide(path, cookie, header, verify) ==
              if Truthy(token) && Accepted(token.value, verify) then RedirectToDashboard else Next
    ensures Decide(path, cookie, header, verify) != RedirectToLogin
  {
  }

  /** Without any token a protected path is redirected to `/login`. */
  lemma NoTokenProtected(path: string, verify: string -> Option<Payload>)
    requires IsProtectedRoute(path)
    ensures Decide(path, None, None, verify) == RedirectToLogin
  {
    ProtectedDecision(path, None, None, verify);
  }

  /** The cookie token is used whenever it is non-empty, whatever the header
      says; the header is consulted only without one. */
  lemma CookieTakesPrecedence(path: string, cookie: string, header: Option<string>,
                              verify: string -> Option<Payload>)
    requires cookie != ""
    ensures Decide(path, Some(cookie), header, verify) == Decide(path, Some(cookie), None, verify)
  {
  }

  /** Classification is by prefix: any path extending a listed route, such as
      `/meetsX`, is protected. */
  lemma PrefixClassification(suffix: string)
    ensures IsProtectedRoute("/meets" + suffix) && IsProtectedRoute("/dashboard" + suffix)
    ensures IsLoginRoute("/login" + suffix) && IsLoginRoute("/register" + suffix)
  {
    assert StartsWith("/dashboard" + suffix, ProtectedRoutes[0]);
    assert StartsWith("/meets" + suffix, ProtectedRoutes[1]);
    assert StartsWith("/login" + suffix, LoginRoutes[0]);
    assert StartsWith("/register" + suffix, LoginRoutes[1]);
  }
}
