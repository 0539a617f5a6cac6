/**
 * Request-scoped memo of the session lookup (feed_baby/session_cache.py): the
 * first caller in a request queries the sessions table, every later caller in the
 * same request gets the stored answer.
 */
module SessionCache {
  import opened Wrappers

  /** A row of the sessions table as the lookup returns it: (user_id, csrf_token). */
  datatype SessionRow = SessionRow(userId: int, csrfToken: string)

  /** Where a storage access can raise sqlite3.Error. */
  datatype DbFault = Healthy | ConnectFails | QueryFails

  /** The sessions table plus counters of what the lookup does to the storage engine. */
  class SessionDb {
    var rows: map<string, SessionRow>
    var fault: DbFault
    /** SELECT statements executed. */
    var queries: nat
    /** Connections opened and not yet closed. */
    var openConnections: nat

    constructor (rows: map<string, SessionRow>, fault: DbFault)
      ensures this.rows == rows && this.fault == fault
      ensures queries == 0 && openConnections == 0
    {
      this.rows := rows;
      this.fault := fault;
      queries := 0;
      openConnections := 0;
    }
  }

  /**
   * The request as the middlewares see it: method, the session_id cookie, the
   * X-CSRFToken header, and request.state._session_cache, which is None until
   * the first lookup sets it.
   */
  class Request {
    const httpMethod: string
    const sessionCookie: Option<string>
    const csrfHeader: Option<string>
    var sessionCache: Option<Option<SessionRow>>

    constructor (httpMethod: string, sessionCookie: Option<string>, csrfHeader: Option<string>)
      ensures this.httpMethod == httpMethod && this.sessionCookie == sessionCookie
      ensures this.csrfHeader == csrfHeader && sessionCache == None
    {
      this.httpMethod := httpMethod;
      this.sessionCookie := sessionCookie;
      this.csrfHeader := csrfHeader;
      sessionCache := None;
    }
  }

  /**
   * The answer a first lookup gives: None for a missing or empty cookie, a storage
   * error or a missing row; the row otherwise.
   */
  function FetchSession(cookie: Option<string>, rows: map<string, SessionRow>, fault: DbFault)
    : (r: Option<SessionRow>)
    ensures r.Some? <==> cookie.Some? && cookie.value != "" && fault == Healthy && cookie.value in rows
    ensures r.Some? ==> r.value == rows[cookie.value]
  {
    if cookie.None? || cookie.value == "" then None
    else if fault != Healthy then None
    else if cookie.value in rows then Some(rows[cookie.value])
    else None
  }

  /** One connection, opened (or failing to open) and closed on every path. */
  method QuerySession(db: SessionDb, sessionId: string) returns (r: Option<SessionRow>)
    modifies db`queries, db`openConnections
    requires sessionId != ""
    ensures r == FetchSession(Some(sessionId), db.rows, db.fault)
    ensures db.queries <= old(db.queries) + 1
    ensures db.openConnections == old(db.openConnections)
  {
    if db.fault == ConnectFails {
      // get_connection raised: conn stays None, nothing to close.
      return None;
    }
    db.openConnections := db.openConnections + 1;
    if db.fault == QueryFails {
      r := None;
    } else {
      db.queries := db.queries + 1;
      r := if sessionId in db.rows then Some(db.rows[sessionId]) else None;
    }
    // finally: conn.close()
    db.openConnections := db.openConnections - 1;
  }

  /**
   * get_or_fetch_session: once request.state._session_cache is set, it is returned
   * as it is, with no storage access; before that, the lookup runs once and its
   * answer, None included, is stored for the rest of the request.
   */
  method GetOrFetchSession(req: Request, db: SessionDb) returns (r: Option<SessionRow>)
    modifies req`sessionCache, db`queries, db`openConnections
    ensures req.sessionCache == Some(r)
    ensures old(req.sessionCache).Some? ==>
              r == old(req.sessionCache).value && unchanged(db)
    ensures old(req.sessionCache).None? ==>
              r == FetchSession(req.sessionCookie, db.rows, db.fault)
              && db.queries <= old(db.queries) + 1
    ensures old(req.sessionCache).None? && (req.sessionCookie.None? || req.sessionCookie.value == "") ==>
              r == None && unchanged(db)
    ensures db.openConnections == old(db.openConnections)
  {
    if req.sessionCache.None? {
      var sessionId := req.sessionCookie;
      if sessionId.Some? && sessionId.value != "" {
        var row := QuerySession(db, sessionId.value);
        req.sessionCache := Some(row);
      } else {
        req.sessionCache := Some(None);
      }
    }
    r := req.sessionCache.value;
  }
}
