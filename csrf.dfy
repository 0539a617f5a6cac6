/**
 * The CSRF middleware (feed_baby/csrf.py): a state-changing request that carries a
 * valid session must echo the session's token in the X-CSRFToken header.
 */
module Csrf {
  import opened Wrappers
  import opened SessionCache

  /** CSRF_PROTECTED_METHODS: documentation only, dispatch never reads it. */
  const ProtectedMethods: set<string> := {"POST", "PUT", "PATCH", "DELETE"}

  /** CSRF_SAFE_METHODS. */
  const SafeMethods: set<string> := {"GET", "HEAD", "OPTIONS", "TRACE"}

  /** What dispatch does with the request: hand it on, or answer 403 with a detail. */
  datatype Verdict = CallNext | Reject(status: int, detail: string)

  const Missing: Verdict := Reject(403, "CSRF token missing")
  const Invalid: Verdict := Reject(403, "CSRF token invalid")

  /**
   * The decision of CSRFMiddleware.dispatch once the session is known: safe methods
   * and requests without a session pass; otherwise an absent or empty header is
   * "missing", a header different from the session's token "invalid", and the
   * matching token passes (compare_digest is modelled as equality).
   */
  function Decide(httpMethod: string, session: Option<SessionRow>, header: Option<string>)
    : (v: Verdict)
    ensures v == CallNext <==>
              || httpMethod in SafeMethods
              || session.None?
              || (header.Some? && header.value == session.value.csrfToken && header.value != "")
    ensures v == Missing <==>
              httpMethod !in SafeMethods && session.Some? && (header.None? || header.value == "")
    ensures v == Invalid <==>
              && httpMethod !in SafeMethods && session.Some? && header.Some? && header.value != ""
              && header.value != session.value.csrfToken
    ensures v == CallNext || v == Missing || v == Invalid
  {
    if httpMethod in SafeMethods then CallNext
    else if session.None? then CallNext
    else if header.None? || header.value == "" then Missing
    else if session.value.csrfToken != header.value then Invalid
    else CallNext
  }

  /**
   * CSRFMiddleware.dispatch: safe methods are passed on before the session is
   * looked up; every other method goes through the request-scoped session cache.
   */
  method Dispatch(req: Request, db: SessionDb) returns (v: Verdict)
    modifies req`sessionCache, db`queries, db`openConnections
    ensures req.httpMethod in SafeMethods ==>
              v == CallNext && unchanged(req) && unchanged(db)
    ensures req.httpMethod !in SafeMethods ==>
              && req.sessionCache.Some?
              && v == Decide(req.httpMethod, req.sessionCache.value, req.csrfHeader)
    ensures old(req.sessionCache).None? ==>
              v == Decide(req.httpMethod, FetchSession(req.sessionCookie, db.rows, db.fault), req.csrfHeader)
              && db.queries <= old(db.queries) + 1
    ensures old(req.sessionCache).Some? ==>
              v == Decide(req.httpMethod, old(req.sessionCache).value, req.csrfHeader)
              && unchanged(db)
    ensures db.openConnections == old(db.openConnections)
  {
    if req.httpMethod in SafeMethods {
      return CallNext;
    }
    var session := GetOrFetchSession(req, db);
    if session.None? {
      return CallNext;
    }
    var clientToken := req.csrfHeader;
    if clientToken.None? || clientToken.value == "" {
      return Missing;
    }
    if session.value.csrfToken != clientToken.value {
      return Invalid;
    }
    return CallNext;
  }

  /**
   * The outcome does not depend on whether another component (an authentication
   * middleware registered before this one) filled the session cache first, and the
   * storage is still queried at most once in the request.
   */
  method DispatchAfterEarlierLookup(req: Request, db: SessionDb) returns (v: Verdict)
    requires req.sessionCache == None
    modifies req`sessionCache, db`queries, db`openConnections
    ensures v == Decide(req.httpMethod, FetchSession(req.sessionCookie, db.rows, db.fault), req.csrfHeader)
    ensures db.queries <= old(db.queries) + 1
    ensures db.openConnections == old(db.openConnections)
  {
    var _ := GetOrFetchSession(req, db);
    v := Dispatch(req, db);
  }

  /**
   * No method is both safe and protected, so the safe-method short-cut never
   * lets a protected method through unchecked.
   */
  lemma MethodSetsDisjoint(httpMethod: string)
    requires httpMethod in ProtectedMethods
    ensures httpMethod !in SafeMethods
  {
  }

  /**
   * Any method outside the safe set, even one that is not in ProtectedMethods, is
   * checked exactly like POST.
   */
  lemma UnlistedMethodsAreChecked(httpMethod: string, session: Option<SessionRow>, header: Option<string>)
    requires httpMethod !in SafeMethods
    ensures Decide(httpMethod, session, header) == Decide("POST", session, header)
  {
  }

  /** Every protected method is outside the safe set, and so is checked. */
  lemma ProtectedMethodsAreChecked(httpMethod: string, token: string)
    requires httpMethod in ProtectedMethods
    ensures Decide(httpMethod, Some(SessionRow(0, token)), None) == Missing
  {
  }
}
