/** The client session store: three slots (the access-token cookie, the
    refresh-token cookie and the user kept in `localStorage`) and the
    transitions `login`, `register`, `refresh` and `logout` make on them.
    What `await api.post(...)` yields for each call is an input. */
module Session {
  import opened Text
  import opened Records

  /** The fields of a successful auth reply the client reads. */
  datatype AuthBody = AuthBody(accessToken: string, user: Option<User>)

  /** A rejected request; `message` is the server's `response.data.message`. */
  datatype ApiError = ApiError(message: Option<string>)

  /** How an awaited request settles: resolved with a response, resolved to
      `undefined`, or rejected. */
  datatype Settled = Resolved(status: int, body: AuthBody) | Undefined | Rejected(error: ApiError)

  /** What a failing operation throws: a new error with a message, or the
      error it caught. */
  datatype Thrown = Message(text: string) | Original(error: ApiError)

  /** How a call of an `AuthService` operation ends. */
  datatype Outcome = Returned(status: int, body: AuthBody) | ReturnedUndefined | Threw(thrown: Thrown)

  datatype Slots = Slots(accessToken: Option<string>, refreshToken: Option<string>, user: Option<User>)

  const Cleared: Slots := Slots(None, None, None)
  const LoginFailed: string := "Помилка входу в систему"
  const RegisterFailed: string := "Помилка реєстрації"
  const RefreshFailed: string := "Помилка оновлення токену"

  /** `isAuthenticated`: both tokens and a stored user. */
  predicate Authenticated(s: Slots)
  {
    Truthy(s.accessToken) && Truthy(s.refreshToken) && s.user.Some?
  }

  /** The message `login` throws for a rejected request. */
  function LoginMessage(e: ApiError): (m: string)
    ensures m != ""
    ensures e.message.Some? && e.message.value != "" ==> m == e.message.value
    ensures e.message.None? || e.message.value == "" ==> m == LoginFailed
  {
    if e.message.Some? && e.message.value != "" then e.message.value else LoginFailed
  }

  /** `login`: a 200 response stores its token and user; a rejection is
      rethrown with the server's message or the default one; any other
      result returns `undefined`. The refresh slot is never written. */
  function AfterLogin(s: Slots, res: Settled): (r: (Slots, Outcome))
    ensures r.0.refreshToken == s.refreshToken
    ensures r.0 != s ==> res.Resolved? && res.status == 200
    ensures res.Resolved? && res.status == 200 ==>
              r.0 == s.(accessToken := Some(res.body.accessToken), user := res.body.user) &&
              r.1 == Returned(200, res.body)
    ensures res.Rejected? ==> r == (s, Threw(Message(LoginMessage(res.error))))
    ensures res.Undefined? || (res.Resolved? && res.status != 200) ==> r == (s, ReturnedUndefined)
    ensures r.1.Returned? <==> res.Resolved? && res.status == 200
  {
    match res
    case Resolved(status, body) =>
      if status == 200 then (s.(accessToken := Some(body.accessToken), user := body.user), Returned(200, body))
      else (s, ReturnedUndefined)
    case Undefined => (s, ReturnedUndefined)
    case Rejected(e) => (s, Threw(Message(LoginMessage(e))))
  }

  /** The parts of `register`'s form data: the JSON body, then the avatar
      only when one is given. */
  function RegisterParts(hasAvatar: bool): (parts: seq<string>)
    ensures |parts| >= 1 && parts[0] == "body"
    ensures "avatar" in parts <==> hasAvatar
    ensures |parts| == if hasAvatar then 2 else 1
  {
    ["body"] + (if hasAvatar then ["avatar"] else [])
  }

  /** `register`: a 200 response stores its token and user; any other
      response or `undefined` throws the registration message; a rejection
      propagates unchanged. The slots change only on success. */
  function AfterRegister(s: Slots, res: Settled): (r: (Slots, Outcome))
    ensures r.0.refreshToken == s.refreshToken
    ensures res.Resolved? && res.status == 200 ==>
              r.0 == s.(accessToken := Some(res.body.accessToken), user := res.body.user) &&
              r.1 == Returned(200, res.body)
    ensures !(res.Resolved? && res.status == 200) ==> r.0 == s
    ensures res.Rejected? ==> r.1 == Threw(Original(res.error))
    ensures res.Undefined? || (res.Resolved? && res.status != 200) ==> r.1 == Threw(Message(RegisterFailed))
  {
    match res
    case Resolved(status, body) =>
      if status == 200 then (s.(accessToken := Some(body.accessToken), user := body.user), Returned(200, body))
      else (s, Threw(Message(RegisterFailed)))
    case Undefined => (s, Threw(Message(RegisterFailed)))
    case Rejected(e) => (s, Threw(Original(e)))
  }

  /** `refresh`: a 200 response replaces the access token, and the user only
      when the response carries one; every other result clears all three
      slots and throws (the refresh message, or the caught error). */
  function AfterRefresh(s: Slots, res: Settled): (r: (Slots, Outcome))
    ensures res.Resolved? && res.status == 200 ==>
              r.0.accessToken == Some(res.body.accessToken) &&
              r.0.refreshToken == s.refreshToken &&
              r.0.user == (if res.body.user.Some? then res.body.user else s.user) &&
              r.1 == Returned(200, res.body)
    ensures !(res.Resolved? && res.status == 200) ==> r.0 == Cleared && r.1.Threw?
    ensures res.Rejected? ==> r.1 == Threw(Original(res.error))
    ensures res.Undefined? || (res.Resolved? && res.status != 200) ==> r.1 == Threw(Message(RefreshFailed))
  {
    match res
    case Resolved(status, body) =>
      if status == 200 then
        (s.(accessToken := Some(body.accessToken), user := if body.user.Some? then body.user else s.user),
         Returned(200, body))
      else (Cleared, Threw(Message(RefreshFailed)))
    case Undefined => (Cleared, Threw(Message(RefreshFailed)))
    case Rejected(e) => (Cleared, Threw(Original(e)))
  }

  /** The client never writes the refresh slot, so a login or registration
      cannot make a session without a refresh cookie authenticated. */
  lemma SignInNeedsRefreshCookie(s: Slots, res: Settled)
    requires !Truthy(s.refreshToken)
    ensures !Authenticated(AfterLogin(s, res).0)
    ensures !Authenticated(AfterRegister(s, res).0)
  {
  }

  /** A successful login over a session with a refresh cookie and a user in
      the reply authenticates it. */
  lemma LoginAuthenticates(s: Slots, body: AuthBody)
    requires Truthy(s.refreshToken) && body.accessToken != "" && body.user.Some?
    ensures Authenticated(AfterLogin(s, Resolved(200, body)).0)
  {
  }

  /** A refresh either leaves the session with a new access token or leaves
      it with nothing: after a failure the session is never authenticated. */
  lemma RefreshFailureDeauthenticates(s: Slots, res: Settled)
    requires !(res.Resolved? && res.status == 200)
    ensures !Authenticated(AfterRefresh(s, res).0)
  {
  }

  /** The session object; its fields are the three slots. */
  class AuthService {
    var accessToken: Option<string>
    var refreshToken: Option<string>
    var user: Option<User>

    function Snapshot(): (s: Slots)
      reads this
      ensures s.accessToken == accessToken && s.refreshToken == refreshToken && s.user == user
    {
      Slots(accessToken, refreshToken, user)
    }

    /** A session over the slots the browser already holds. */
    constructor(initial: Slots)
      ensures Snapshot() == initial
    {
      accessToken := initial.accessToken;
      refreshToken := initial.refreshToken;
      user := initial.user;
    }

    method IsAuthenticated() returns (b: bool)
      ensures b <==> Authenticated(Snapshot())
    {
      var access := accessToken;
      var refresh := refreshToken;
      b := access.Some? && access.value != "" && refresh.Some? && refresh.value != "" && user.Some?;
    }

    method Login(res: Settled) returns (o: Outcome)
      modifies this
      ensures (Snapshot(), o) == AfterLogin(old(Snapshot()), res)
      ensures refreshToken == old(refreshToken)
    {
      if res.Resolved? && res.status == 200 {
        accessToken := Some(res.body.accessToken);
        user := res.body.user;
        return Returned(200, res.body);
      }
      if res.Rejected? {
        return Threw(Message(LoginMessage(res.error)));
      }
      o := ReturnedUndefined;
    }

    method Register(res: Settled) returns (o: Outcome)
      modifies this
      ensures (Snapshot(), o) == AfterRegister(old(Snapshot()), res)
    {
      if res.Rejected? {
        return Threw(Original(res.error));
      }
      if res.Resolved? && res.status == 200 {
        accessToken := Some(res.body.accessToken);
        user := res.body.user;
        return Returned(200, res.body);
      }
      o := Threw(Message(RegisterFailed));
    }

    /** `logout`: whatever the server call did, the `finally` block clears
        the three slots. */
    method Logout(res: Settled)
      modifies this
      ensures Snapshot() == Cleared
      ensures !Authenticated(Snapshot())
    {
      accessToken := None;
      refreshToken := None;
      user := None;
    }

    method Refresh(res: Settled) returns (o: Outcome)
      modifies this
      ensures (Snapshot(), o) == AfterRefresh(old(Snapshot()), res)
    {
      var thrown: Thrown;
      if res.Resolved? && res.status == 200 {
        accessToken := Some(res.body.accessToken);
        if res.body.user.Some? {
          user := res.body.user;
        }
        return Returned(200, res.body);
      } else if res.Rejected? {
        thrown := Original(res.error);
      } else {
        thrown := Message(RefreshFailed);
      }
      accessToken := None;
      refreshToken := None;
      user := None;
      o := Threw(thrown);
    }
  }
}
