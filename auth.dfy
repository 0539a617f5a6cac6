/**
 * The in-memory session draft (feed_baby/auth.py): a process-wide token -> user id
 * dictionary, the middleware that attaches the user to the request, and the
 * require_auth guard.
 */
module Auth {
  import opened Wrappers
  import Passwords

  /** A response the model distinguishes: a redirect, or whatever the handler produced. */
  datatype Response = Redirect(location: string, status: int) | Handled(body: string)

  /** The module-level `_sessions` dictionary (session token -> user id). */
  class SessionTable {
    var sessions: map<string, int>

    constructor ()
      ensures sessions == map[]
    {
      sessions := map[];
    }

    /** get_session_user_id: `_sessions.get(token)`. */
    function GetSessionUserId(token: string): (userId: Option<int>)
      reads this
      ensures userId.Some? <==> token in sessions
      ensures userId.Some? ==> userId.value == sessions[token]
    {
      if token in sessions then Some(sessions[token]) else None
    }

    /**
     * create_session, with the token_urlsafe(32) value supplied by the caller: the
     * token now maps to the user and no other token's mapping changes.
     */
    method CreateSession(userId: int, token: string) returns (t: string)
      modifies this
      ensures t == token
      ensures sessions == old(sessions)[token := userId]
      ensures GetSessionUserId(t) == Some(userId)
      ensures forall other :: other != token ==> GetSessionUserId(other) == old(GetSessionUserId(other))
    {
      sessions := sessions[token := userId];
      t := token;
    }

    /**
     * delete_session: `_sessions.pop(token, None)`. The token no longer resolves;
     * an unknown token is a no-op; other tokens are untouched.
     */
    method DeleteSession(token: string)
      modifies this
      ensures sessions == old(sessions) - {token}
      ensures GetSessionUserId(token) == None
      ensures token !in old(sessions) ==> sessions == old(sessions)
      ensures forall other :: other != token ==> GetSessionUserId(other) == old(GetSessionUserId(other))
    {
      sessions := sessions - {token};
    }
  }

  /**
   * The request as AuthMiddleware sees it: the `session` cookie and
   * request.state.user, which is None (the attribute is absent) until assigned.
   */
  class AuthRequest {
    const sessionCookie: Option<string>
    var user: Option<Option<Passwords.UserRow>>

    constructor (sessionCookie: Option<string>)
      ensures this.sessionCookie == sessionCookie && user == None
    {
      this.sessionCookie := sessionCookie;
      user := None;
    }
  }

  /**
   * The user AuthMiddleware attaches: nothing unless the cookie is non-empty and
   * maps to a user id, and then whatever User.get_by_id returns for that id.
   */
  function ResolveUser(cookie: Option<string>, table: map<string, int>, getById: int -> Option<Passwords.UserRow>)
    : (user: Option<Passwords.UserRow>)
    ensures user.Some? ==> cookie.Some? && cookie.value != "" && cookie.value in table
    ensures user.Some? ==> user == getById(table[cookie.value])
    ensures cookie.Some? && cookie.value in table && cookie.value != "" ==> user == getById(table[cookie.value])
  {
    if cookie.Some? && cookie.value != "" && cookie.value in table then getById(table[cookie.value])
    else None
  }

  /**
   * AuthMiddleware.dispatch: request.state.user is set (to None first), never
   * blocks, and always answers with the next handler's response. User.get_by_id,
   * a storage read, is the parameter getById.
   */
  method AuthDispatch(req: AuthRequest, table: SessionTable, getById: int -> Option<Passwords.UserRow>,
                      next: Option<Passwords.UserRow> -> Response)
    returns (resp: Response)
    modifies req`user
    ensures req.user == Some(ResolveUser(req.sessionCookie, table.sessions, getById))
    ensures resp == next(req.user.value)
  {
    req.user := Some(None);
    var sessionToken := req.sessionCookie;
    if sessionToken.Some? && sessionToken.value != "" {
      var userId := table.GetSessionUserId(sessionToken.value);
      if userId.Some? {
        req.user := Some(getById(userId.value));
      }
    }
    resp := next(req.user.value);
  }

  /**
   * require_auth: without a user on the request (attribute absent or None) the
   * answer is a 303 redirect to /login and the handler is not used; with one, the
   * handler's response.
   */
  function RequireAuth(user: Option<Option<Passwords.UserRow>>, handler: Passwords.UserRow -> Response): (resp: Response)
    ensures (user.None? || user.value.None?) ==> resp == Redirect("/login", 303)
    ensures user.Some? && user.value.Some? ==> resp == handler(user.value.value)
  {
    if user.None? || user.value.None? then Redirect("/login", 303)
    else handler(user.value.value)
  }

  /**
   * Together: a request whose cookie is absent, empty or unknown to the table is
   * redirected to /login by any guarded handler.
   */
  lemma AnonymousRequestsRedirected(cookie: Option<string>, table: map<string, int>,
                                    getById: int -> Option<Passwords.UserRow>, handler: Passwords.UserRow -> Response)
    requires cookie.None? || cookie.value == "" || cookie.value !in table
    ensures RequireAuth(Some(ResolveUser(cookie, table, getById)), handler) == Redirect("/login", 303)
  {
  }
}
