/** The shared HTTP client's two interceptors: the request interceptor that
    attaches the access token as a bearer header, and the response-error
    interceptor that refreshes the session once and retries a request the
    server refused with 401 or 403. The request configuration is an object
    the interceptors update in place. */
module HttpClient {
  import opened Text
  import opened RouteGate
  import opened Session

  const AuthorizationHeader: string := "Authorization"
  const LoginUrl: string := "/auth/login"
  const RefreshUrl: string := "/auth/refresh"

  /** The configuration of one request. */
  class RequestConfig {
    var url: string
    var headers: map<string, string>
    /** `_isRetry`: set once the request has been retried. */
    var isRetry: bool

    constructor(url: string, headers: map<string, string>)
      ensures this.url == url && this.headers == headers && !isRetry
    {
      this.url := url;
      this.headers := headers;
      isRetry := false;
    }
  }

  /** What the server sends back: a response with a status (and, for
      failures, the message in its body), or nothing at all. */
  datatype Reply = Response(status: int, body: AuthBody, message: Option<string>) | NoResponse

  /** What the error interceptor does with a failed request. */
  datatype Handled = Retry | Reject(error: ApiError)

  /** The client keeps the default status check: only 2xx resolves. */
  predicate Succeeded(reply: Reply)
  {
    reply.Response? && 200 <= reply.status < 300
  }

  /** `error.response?.status` */
  function StatusOf(reply: Reply): (r: Option<int>)
    ensures r.Some? <==> reply.Response?
    ensures r.Some? ==> r.value == reply.status
  {
    if reply.Response? then Some(reply.status) else None
  }

  /** The error a failed request is rejected with. */
  function ErrorOf(reply: Reply): (e: ApiError)
    ensures reply.NoResponse? ==> e.message.None?
    ensures reply.Response? ==> e.message == reply.message
  {
    if reply.Response? then ApiError(reply.message) else ApiError(None)
  }

  // ---------------------------------------------------------------------------
  // Request interceptor

  /** The headers the request interceptor leaves: the bearer header when the
      access cookie is truthy, the headers unchanged otherwise. */
  function WithBearer(headers: map<string, string>, cookie: Option<string>): (r: map<string, string>)
    ensures Truthy(cookie) ==> AuthorizationHeader in r && HeaderToken(Some(r[AuthorizationHeader])) == cookie
    ensures !Truthy(cookie) ==> r == headers
    ensures forall k :: k != AuthorizationHeader ==> (k in r <==> k in headers)
    ensures forall k :: k != AuthorizationHeader && k in r ==> r[k] == headers[k]
  {
    if Truthy(cookie) then
      var h := BearerPrefix + cookie.value;
      assert StartsWith(h, BearerPrefix);
      assert h[7..] == cookie.value;
      headers[AuthorizationHeader := h]
    else headers
  }

  method AttachBearer(config: RequestConfig, session: AuthService)
    modifies config
    ensures config.headers == WithBearer(old(config.headers), session.accessToken)
    ensures config.url == old(config.url) && config.isRetry == old(config.isRetry)
  {
    var token := session.accessToken;
    if token.Some? && token.value != "" {
      config.headers := config.headers[AuthorizationHeader := BearerPrefix + token.value];
    }
  }

  /** The bearer header the client attaches carries exactly the token the
      page-request gate reads back from it. */
  lemma BearerHeaderRoundTrip(headers: map<string, string>, token: string)
    requires token != ""
    ensures var h := WithBearer(headers, Some(token));
            AuthorizationHeader in h && SelectToken(None, Some(h[AuthorizationHeader])) == Some(token)
  {
  }

  // ---------------------------------------------------------------------------
  // Response-error interceptor

  /** A failed request is refreshed and retried only when the server said 401
      or 403, the request is not itself a retry, and its URL is neither the
      refresh nor the login endpoint. */
  predicate ShouldRetry(status: Option<int>, isRetry: bool, url: string)
    ensures ShouldRetry(status, isRetry, url) ==>
              !isRetry && status.Some? && (status.value == 401 || status.value == 403)
    ensures ShouldRetry(status, isRetry, url) ==> url != LoginUrl && url != RefreshUrl
  {
    EndpointsNameThemselves();
    (status == Some(401) || status == Some(403)) &&
    !isRetry &&
    !Includes(url, "auth/refresh") &&
    !Includes(url, "auth/login")
  }

  /** The login and refresh URLs contain the text the retry condition looks
      for. */
  lemma EndpointsNameThemselves()
    ensures Includes(LoginUrl, "auth/login") && Includes(RefreshUrl, "auth/refresh")
  {
    assert LoginUrl[1..][..10] == "auth/login";
    assert RefreshUrl[1..][..12] == "auth/refresh";
  }

  /** The retry condition in terms of where the endpoint names occur: a
      request is retried exactly when it is refused with 401 or 403 for the
      first time and neither `auth/login` nor `auth/refresh` occurs anywhere
      in its URL. Any other URL qualifies, the logout request included. */
  lemma RetryIffFirstRefusalElsewhere(status: Option<int>, isRetry: bool, url: string)
    ensures ShouldRetry(status, isRetry, url) <==>
              (status == Some(401) || status == Some(403)) && !isRetry &&
              (forall i :: !OccursAt(url, "auth/login", i)) &&
              (forall i :: !OccursAt(url, "auth/refresh", i))
  {
    IncludesIffOccurs(url, "auth/login");
    IncludesIffOccurs(url, "auth/refresh");
  }

  /** The logout request is retried like any other: `auth/logout` shares
      its first eight characters with `auth/login` but is not it. */
  lemma LogoutRetried()
    ensures ShouldRetry(Some(401), false, "/auth/logout")
  {
    var url := "/auth/logout";
    forall i ensures !OccursAt(url, "auth/login", i) && !OccursAt(url, "auth/refresh", i) {
      if i == 0 {
        assert url[0..10][0] == '/' && url[0..12][0] == '/';
      } else if i == 1 {
        assert url[1..11][9] == 'u';
      } else if i == 2 {
        assert url[2..12][0] == 'u';
      }
    }
    RetryIffFirstRefusalElsewhere(Some(401), false, url);
  }

  /** A path made of `/info/update/` and a segment without `/` contains no
      text of the shape `a???/…`, so neither endpoint name occurs in it. */
  lemma {:induction false} NoEndpointInUpdatePath(id: string, needle: string)
    requires '/' !in id
    requires |needle| > 4 && needle[0] == 'a' && needle[4] == '/'
    ensures !Includes("/info/update/" + id, needle)
  {
    var url := "/info/update/" + id;
    forall i | 0 <= i && i + 4 < |url|
      ensures url[i] != needle[0] || url[i + 4] != needle[4]
    {
      if i + 4 >= 13 {
        assert url[i + 4] == id[i + 4 - 13];
      } else {
        assert url[..13] == "/info/update/";
      }
    }
    forall i | 0 <= i <= |url| - |needle|
      ensures !OccursAt(url, needle, i)
    {
      var w := url[i..i + |needle|];
      assert w[0] == url[i] && w[4] == url[i + 4];
    }
    IncludesIffOccurs(url, needle);
  }

  /** A profile update (`/info/update/<id>`) refused with 401 or 403 for the
      first time is retried. */
  lemma ProfileUpdateRetried(id: string, status: Option<int>)
    requires '/' !in id
    requires status == Some(401) || status == Some(403)
    ensures ShouldRetry(status, false, "/info/update/" + id)
  {
    NoEndpointInUpdatePath(id, "auth/login");
    NoEndpointInUpdatePath(id, "auth/refresh");
  }

  /** No URL that mentions the login or refresh endpoint is ever retried. */
  lemma AuthUrlsNeverRetried(prefix: string, suffix: string, status: Option<int>, isRetry: bool)
    ensures !ShouldRetry(status, isRetry, prefix + "auth/login" + suffix)
    ensures !ShouldRetry(status, isRetry, prefix + "auth/refresh" + suffix)
  {
    var login := prefix + "auth/login" + suffix;
    var refresh := prefix + "auth/refresh" + suffix;
    assert login[|prefix|..|prefix| + 10] == "auth/login";
    assert OccursAt(login, "auth/login", |prefix|);
    IncludesIffOccurs(login, "auth/login");
    assert refresh[|prefix|..|prefix| + 12] == "auth/refresh";
    assert OccursAt(refresh, "auth/refresh", |prefix|);
    IncludesIffOccurs(refresh, "auth/refresh");
  }

  /** The login and refresh requests themselves are never retried. */
  lemma LoginAndRefreshNeverRetried(status: Option<int>, isRetry: bool)
    ensures !ShouldRetry(status, isRetry, LoginUrl)
    ensures !ShouldRetry(status, isRetry, RefreshUrl)
  {
  }

  /** Once a request is marked as a retry it is never retried again. */
  lemma RetriedAtMostOnce(status: Option<int>, url: string)
    ensures !ShouldRetry(status, true, url)
  {
  }

  /** The error interceptor for a failed request. When the retry condition
      holds it marks the request, refreshes the session (whose reply is
      `refreshReply`) and, on a 200 refresh, puts the new access token in the
      request's header and retries; otherwise it rejects the original
      error. A request the condition does not select is rejected unchanged:
      this is the corrected handler, whose source version returns nothing in
      that case (see `SettleAsWritten`). */
  method OnResponseError(config: RequestConfig, reply: Reply, session: AuthService, refreshReply: Settled)
    returns (h: Handled)
    requires !Succeeded(reply)
    modifies config, session
    ensures config.url == old(config.url)
    ensures h.Retry? <==>
              ShouldRetry(StatusOf(reply), old(config.isRetry), config.url) &&
              refreshReply.Resolved? && refreshReply.status == 200
    ensures h.Reject? ==> h.error == ErrorOf(reply)
    ensures ShouldRetry(StatusOf(reply), old(config.isRetry), config.url) ==>
              config.isRetry && session.Snapshot() == AfterRefresh(old(session.Snapshot()), refreshReply).0
    ensures !ShouldRetry(StatusOf(reply), old(config.isRetry), config.url) ==>
              config.isRetry == old(config.isRetry) && session.Snapshot() == old(session.Snapshot())
    ensures h.Retry? ==>
              session.accessToken == Some(refreshReply.body.accessToken) &&
              config.headers == old(config.headers)[AuthorizationHeader := BearerPrefix + refreshReply.body.accessToken]
    ensures !h.Retry? ==> config.headers == old(config.headers)
  {
    if ShouldRetry(StatusOf(reply), config.isRetry, config.url) {
      config.isRetry := true;
      var refreshed := session.Refresh(refreshReply);
      if refreshed.Returned? && refreshed.status == 200 {
        config.headers := config.headers[AuthorizationHeader := BearerPrefix + session.accessToken.value];
        return Retry;
      }
      return Reject(ErrorOf(reply));
    }
    h := Reject(ErrorOf(reply));
  }

  /** A profile update refused with 401 is retried once the refresh returns
      200, and the session then holds the refreshed access token. */
  method RefusedProfileUpdate(id: string, session: AuthService, body: AuthBody) returns (h: Handled)
    requires '/' !in id
    modifies session
    ensures h.Retry?
    ensures session.accessToken == Some(body.accessToken)
  {
    var config := new RequestConfig("/info/update/" + id, map[]);
    ProfileUpdateRetried(id, Some(401));
    h := OnResponseError(config, Response(401, body, None), session, Resolved(200, body));
  }

  /** The retried request passes the request interceptor again, which reads
      the same cookie: when the refreshed token is non-empty it leaves the
      header the error interceptor set. */
  lemma RetryHeaderSurvivesInterceptor(headers: map<string, string>, token: string)
    requires token != ""
    ensures var updated := headers[AuthorizationHeader := BearerPrefix + token];
            WithBearer(updated, Some(token)) == updated
  {
  }

  // ---------------------------------------------------------------------------
  // How an awaited request settles when its reply is not retried

  /** As written, for a request the error handler does not retry (the login
      and refresh requests, a request already retried, or a failure other
      than 401 and 403): a 2xx reply resolves; every other reply reaches the
      end of the error handler, which returns nothing, so the awaited call
      resolves to `undefined` instead of failing. A retried request is
      settled by its retry, which this function does not describe. */
  function SettleAsWritten(reply: Reply): (r: Settled)
    ensures Succeeded(reply) ==> r == Resolved(reply.status, reply.body)
    ensures !Succeeded(reply) ==> r.Undefined?
  {
    if Succeeded(reply) then Resolved(reply.status, reply.body) else Undefined
  }

  /** Corrected, for the same requests the handler does not retry: it
      rejects them, as `OnResponseError` does, so the awaited call fails
      with the error. */
  function Settle(reply: Reply): (r: Settled)
    ensures Succeeded(reply) ==> r == Resolved(reply.status, reply.body)
    ensures !Succeeded(reply) ==> r == Rejected(ErrorOf(reply))
  {
    if Succeeded(reply) then Resolved(reply.status, reply.body) else Rejected(ErrorOf(reply))
  }

  /** As written, a failed login is never retried and settles to
      `undefined`; `login` then returns `undefined` without throwing, so its
      error message is never produced and the session is unchanged. A wrong
      password, which the server refuses with 400 and the message `Login or
      password is incorrect`, is one such reply. */
  lemma LoginFailureSilentAsWritten(s: Slots, reply: Reply, isRetry: bool)
    requires !Succeeded(reply)
    ensures !ShouldRetry(StatusOf(reply), isRetry, LoginUrl)
    ensures AfterLogin(s, SettleAsWritten(reply)) == (s, ReturnedUndefined)
    ensures var wrongPassword := Response(400, AuthBody("", None), Some("Login or password is incorrect"));
            AfterLogin(s, SettleAsWritten(wrongPassword)) == (s, ReturnedUndefined)
  {
  }

  /** With the handler rejecting, every failed login throws: the server's
      message when it sent one, the default message otherwise, and the
      session is unchanged. */
  lemma LoginFailureReported(s: Slots, reply: Reply)
    requires !Succeeded(reply)
    ensures AfterLogin(s, Settle(reply)) == (s, Threw(Message(LoginMessage(ErrorOf(reply)))))
    ensures reply.Response? && reply.message.Some? && reply.message.value != "" ==>
              AfterLogin(s, Settle(reply)).1 == Threw(Message(reply.message.value))
  {
  }

  /** A failed refresh request clears the session under either handler; the
      missing rejection only changes what is thrown. */
  lemma RefreshFailureClearsEitherWay(s: Slots, reply: Reply)
    requires !Succeeded(reply)
    ensures AfterRefresh(s, SettleAsWritten(reply)).0 == Cleared
    ensures AfterRefresh(s, Settle(reply)).0 == Cleared
    ensures AfterRefresh(s, SettleAsWritten(reply)).1 == Threw(Message(RefreshFailed))
    ensures AfterRefresh(s, Settle(reply)).1 == Threw(Original(ErrorOf(reply)))
  {
  }
}
