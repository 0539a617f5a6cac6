/**
 * The synchronizer-token CSRF protection of the form-based application
 * (feed_baby/app.py): an insertion-ordered token table with FIFO eviction, the
 * token lookup used by the form pages, and the two routes that change feeds.
 */
module App {
  import opened Wrappers
  import opened Feeds

  /** The responses the routes produce. */
  datatype Response = Redirect(location: string, status: int) | HttpError(status: int, detail: string)

  /** The max_tokens default of cleanup_old_tokens. */
  const MaxTokens: int := 1000

  predicate Distinct(s: seq<string>) {
    forall i, j :: 0 <= i < j < |s| ==> s[i] != s[j]
  }

  /** The key order after `del d[key]`: key taken out wherever it stands. */
  function RemoveKey(s: seq<string>, key: string): (r: seq<string>)
    ensures key !in r
    ensures forall x :: x in r <==> x in s && x != key
  {
    if s == [] then []
    else if s[0] == key then RemoveKey(s[1..], key)
    else [s[0]] + RemoveKey(s[1..], key)
  }

  lemma {:induction false} RemoveAbsentKey(s: seq<string>, key: string)
    requires key !in s
    ensures RemoveKey(s, key) == s
  {
    if s != [] {
      RemoveAbsentKey(s[1..], key);
    }
  }

  /** Deleting the oldest key of a distinct key order leaves the rest, still distinct. */
  lemma RemoveOldest(order: seq<string>)
    requires Distinct(order) && order != []
    ensures RemoveKey(order, order[0]) == order[1..]
    ensures Distinct(order[1..])
  {
    assert order[0] !in order[1..];
    RemoveAbsentKey(order[1..], order[0]);
  }

  /** A distinct sequence has as many elements as its set of elements. */
  lemma {:induction false} DistinctCardinality(s: seq<string>)
    requires Distinct(s)
    ensures |set x | x in s| == |s|
  {
    if s != [] {
      var last := s[|s| - 1];
      var init := s[..|s| - 1];
      DistinctCardinality(init);
      assert (set x | x in s) == (set x | x in init) + {last};
      assert last !in init;
    }
  }

  /**
   * How many keys `list(self.tokens.keys())[:max_tokens // 2]` selects from a table
   * of `size` keys, under Python's floor division and slicing (a negative end
   * counts from the back).
   */
  function EvictCount(size: nat, maxTokens: int): (n: nat)
    ensures n <= size
    ensures 0 <= maxTokens < size ==> n == maxTokens / 2
    ensures maxTokens < 0 ==> n == if size + maxTokens / 2 >= 0 then size + maxTokens / 2 else 0
  {
    var end := maxTokens / 2;
    if end >= 0 then (if end <= size then end else size)
    else if size + end >= 0 then size + end
    else 0
  }

  /**
   * The rule of validate_token: `expected = tokens.get(session_id)`, False when
   * there is none, otherwise whether it equals the supplied token (compare_digest
   * is modelled as equality).
   */
  function TokenMatches(tokens: map<string, string>, sessionId: string, token: string): (ok: bool)
    ensures ok <==> sessionId in tokens && tokens[sessionId] == token
  {
    var expected := if sessionId in tokens then Some(tokens[sessionId]) else None;
    expected.Some? && expected.value == token
  }

  /**
   * CSRFProtection: `tokens` (session id -> token) with the insertion order of its
   * keys. Assigning to a key already present keeps its position.
   */
  class CsrfProtection {
    var order: seq<string>
    var tokens: map<string, string>

    ghost predicate Valid()
      reads this
    {
      Distinct(order) && forall k :: k in tokens <==> k in order
    }

    constructor ()
      ensures Valid() && order == [] && tokens == map[]
    {
      order := [];
      tokens := map[];
    }

    /** len(self.tokens). */
    function Size(): (n: nat)
      reads this
      requires Valid()
      ensures n == |order|
    {
      assert tokens.Keys == set x | x in order;
      DistinctCardinality(order);
      |tokens|
    }

    /**
     * generate_token, with the token_urlsafe(32) value supplied by the caller: the
     * session now maps to the new token, every other entry is unchanged, and a new
     * session goes to the back of the order.
     */
    method GenerateToken(sessionId: string, token: string) returns (t: string)
      requires Valid()
      modifies this
      ensures Valid()
      ensures t == token
      ensures tokens == old(tokens)[sessionId := token]
      ensures order == if sessionId in old(tokens) then old(order) else old(order) + [sessionId]
    {
      if sessionId !in tokens {
        order := order + [sessionId];
      }
      tokens := tokens[sessionId := token];
      t := token;
    }

    /** validate_token. */
    predicate ValidateToken(sessionId: string, token: string)
      reads this
      ensures ValidateToken(sessionId, token) <==> sessionId in tokens && tokens[sessionId] == token
    {
      TokenMatches(tokens, sessionId, token)
    }

    /**
     * cleanup_old_tokens: nothing happens while the table holds at most maxTokens
     * entries; beyond that the oldest EvictCount keys are deleted one by one and
     * the survivors keep their tokens and their order.
     */
    method CleanupOldTokens(maxTokens: int)
      requires Valid()
      modifies this
      ensures Valid()
      ensures |old(order)| <= maxTokens ==> order == old(order) && tokens == old(tokens)
      ensures |old(order)| > maxTokens ==> order == old(order)[EvictCount(|old(order)|, maxTokens)..]
      ensures forall k :: k in tokens ==> k in old(tokens) && tokens[k] == old(tokens)[k]
    {
      if Size() > maxTokens {
        var keysToRemove := order[..EvictCount(|order|, maxTokens)];
        var i := 0;
        while i < |keysToRemove|
          invariant 0 <= i <= |keysToRemove|
          invariant order == old(order)[i..]
          invariant Valid()
          invariant forall k :: k in tokens ==> k in old(tokens) && tokens[k] == old(tokens)[k]
        {
          var key := keysToRemove[i];
          assert order[0] == key;
          RemoveOldest(order);
          tokens := tokens - {key};
          order := RemoveKey(order, key);
          i := i + 1;
        }
      }
    }
  }

  /** The session id get_csrf_token works with: the cookie, or a fresh one when it is empty. */
  function SessionIdFor(cookie: string, freshSessionId: string): (sessionId: string)
    ensures sessionId == cookie || (cookie == "" && sessionId == freshSessionId)
    ensures sessionId != "" || freshSessionId == ""
  {
    if cookie != "" then cookie else freshSessionId
  }

  /**
   * get_csrf_token: look up (or generate) the session's token, run the cleanup,
   * then read the token back. None stands for the KeyError the final lookup
   * raises if the cleanup evicted the session; that cannot happen while the
   * table holds at most MaxTokens entries on entry.
   */
  method GetCsrfToken(cp: CsrfProtection, cookie: string, freshSessionId: string, freshToken: string)
    returns (result: Option<(string, string)>)
    requires cp.Valid()
    modifies cp
    ensures cp.Valid()
    ensures result.Some? ==>
              && result.value.1 == SessionIdFor(cookie, freshSessionId)
              && result.value.1 in cp.tokens && result.value.0 == cp.tokens[result.value.1]
    ensures |old(cp.order)| <= MaxTokens ==> result.Some? && |cp.order| <= MaxTokens
    ensures |old(cp.order)| <= MaxTokens ==>
              var sessionId := SessionIdFor(cookie, freshSessionId);
              result.value.0 == if sessionId in old(cp.tokens) then old(cp.tokens)[sessionId] else freshToken
    ensures var sessionId := SessionIdFor(cookie, freshSessionId);
            var grown := if sessionId in old(cp.tokens) then old(cp.order) else old(cp.order) + [sessionId];
            cp.order == if |grown| <= MaxTokens then grown else grown[EvictCount(|grown|, MaxTokens)..]
    ensures forall k :: k in cp.tokens ==>
              (k in old(cp.tokens) && cp.tokens[k] == old(cp.tokens)[k]) || k == SessionIdFor(cookie, freshSessionId)
    ensures |old(cp.order)| <= MaxTokens && SessionIdFor(cookie, freshSessionId) in old(cp.tokens) ==>
              cp.tokens == old(cp.tokens) && cp.order == old(cp.order)
  {
    var sessionId := SessionIdFor(cookie, freshSessionId);
    if sessionId !in cp.tokens {
      var _ := cp.GenerateToken(sessionId, freshToken);
    }
    assert |old(cp.order)| <= MaxTokens ==> |cp.order| <= MaxTokens || cp.order[|cp.order| - 1] == sessionId;
    cp.CleanupOldTokens(MaxTokens);
    if sessionId in cp.tokens {
      result := Some((cp.tokens[sessionId], sessionId));
    } else {
      result := None;
    }
  }

  const CsrfFailed: Response := HttpError(403, "CSRF token validation failed")

  /**
   * create_feed (POST /feed): the CSRF check (validate_csrf_token, with the
   * session_id cookie defaulting to "") comes before anything is stored; a failed
   * check answers 403 and leaves the feeds untouched.
   */
  method CreateFeed(cp: CsrfProtection, store: FeedStore, cookie: string, ounces: real,
                    datetime: string, csrfToken: string)
    returns (resp: Response)
    requires store.Valid()
    modifies store
    ensures store.Valid()
    ensures !cp.ValidateToken(cookie, csrfToken) ==> resp == CsrfFailed && unchanged(store)
    ensures cp.ValidateToken(cookie, csrfToken) ==>
              && resp == Redirect("/", 303)
              && store.feeds == old(store.feeds)[old(store.nextId) :=
                                   FromForm(ounces, datetime).(id := Some(old(store.nextId)))]
  {
    if !cp.ValidateToken(cookie, csrfToken) {
      return CsrfFailed;
    }
    var feed := FromForm(ounces, datetime);
    store.Save(feed);
    resp := Redirect("/", 303);
  }

  /**
   * delete_feed (POST /feed/{id}/delete): 403 before touching the feeds when the
   * CSRF check fails, 404 when no feed has that id, otherwise the feed is removed.
   */
  method DeleteFeed(cp: CsrfProtection, store: FeedStore, cookie: string, feedId: int, csrfToken: string)
    returns (resp: Response)
    requires store.Valid()
    modifies store
    ensures store.Valid()
    ensures !cp.ValidateToken(cookie, csrfToken) ==> resp == CsrfFailed && unchanged(store)
    ensures cp.ValidateToken(cookie, csrfToken) ==> store.feeds == old(store.feeds) - {feedId}
    ensures cp.ValidateToken(cookie, csrfToken) && feedId !in old(store.feeds) ==>
              resp == HttpError(404, "Feed not found")
    ensures cp.ValidateToken(cookie, csrfToken) && feedId in old(store.feeds) ==>
              resp == Redirect("/", 303)
  {
    if !cp.ValidateToken(cookie, csrfToken) {
      return CsrfFailed;
    }
    var deleted := store.Delete(feedId);
    if !deleted {
      return HttpError(404, "Feed not found");
    }
    resp := Redirect("/", 303);
  }

  /**
   * A token is accepted only under the session it was issued to: presented with
   * any other session id whose own token differs, validation fails.
   */
  lemma TokenIsSessionSpecific(tokens: map<string, string>, issuedTo: string, other: string)
    requires issuedTo in tokens
    requires other in tokens ==> tokens[other] != tokens[issuedTo]
    ensures TokenMatches(tokens, issuedTo, tokens[issuedTo])
    ensures !TokenMatches(tokens, other, tokens[issuedTo])
  {
  }
}
