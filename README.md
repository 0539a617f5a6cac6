# feed-baby in Dafny

A model of the logic of feed-baby, a small web application for logging baby
feeds. Each module models one source file:

- `Units` (`units.dfy`): the exact conversion between US fluid ounces and integer
  microlitres (29573.5 µL per ounce, ROUND_HALF_UP).
- `Feeds` (`feed.dfy`): the older conversion on the `Feed` record. It truncates when
  storing (`int()`) and rounds half-to-even with a 0.033814 factor when displaying.
  It also holds the feeds table that `Feed.save` and `Feed.delete` change.
- `DecimalRounding` (`rounding.dfy`): the three Decimal-to-integer rules these two
  files use.
- `Passwords` (`user.dfy`): PBKDF2 password hashing, the stored format
  `pbkdf2:sha256:600000$<salt>$<hash>`, its parser, and the users table.
- `SessionCache` (`session_cache.dfy`): the request-scoped memo of the session lookup.
- `Csrf` (`csrf.dfy`): the CSRF middleware's decision over (method, session, header).
- `Auth` (`auth.dfy`): the in-memory session dictionary, the middleware that attaches
  the user, and the `require_auth` guard.
- `App` (`app.dfy`): the in-memory synchronizer-token table with FIFO eviction, the
  token lookup for form pages, and the two routes that change feeds.

A Decimal's numeric value is an exact rational, so it is modelled as `real`; its exponent and the sign of a zero are not kept. Randomness
(`token_hex`, `token_urlsafe`) is a value the caller supplies. PBKDF2-HMAC-SHA256
(RFC 8018 section 5.2) is a function parameter `kdf`. Storage is maps held in
classes. `User.get_by_id` is a function parameter. Each middleware's `call_next`
is either a parameter or the verdict `CallNext`.

Two facts from the proofs:

- `microliters_to_ounces` multiplies by a 28-digit reciprocal of 29573.5. For
  |m| <= 10^15 microlitres this cannot change the result. A whole number of microlitres is never exactly halfway
  between two hundredths of an ounce, and is always at least 1/591470 hundredths
  away from such a point (`NeverHalfway`). The approximation error is far smaller
  than that in this range (`MicrolitersApproxAgrees`). Beyond it the error of the
  constant and of the 28-digit product can exceed that gap, and the agreement is
  not proved.
- The older `Feed` conversion reads back exactly the two-decimal amount that was
  entered, for amounts from 0 to 2500 oz. At 10000 oz it reads back 9999.98.

## Model

| member | source | states |
|---|---|---|
| `DecimalRounding.RoundHalfUp` | feed_baby/units.py:27 | result is within 1/2 of x; an exact tie goes away from zero; non-negative for non-negative x |
| `DecimalRounding.RoundHalfEven` | feed_baby/feed.py:42 | result is within 1/2 of x; an exact tie goes to the even integer |
| `DecimalRounding.TruncateTowardZero` | feed_baby/feed.py:61 | \|r\| <= \|x\| < \|r\|+1 with the sign of x (Python `int()` of a Decimal) |
| `Units.Constants` | feed_baby/units.py:5-7 | OZ_TO_MICROLITERS is 29.5735 ml in microlitres, and MICROLITERS_TO_OZ is its reciprocal correctly rounded to the 28 digits of the default Decimal context |
| `Units.OuncesToMicroliters` | feed_baby/units.py:10-27 | nearest integer to ounces × 29573.5, ties away from zero; non-negative for non-negative ounces |
| `Units.MicrolitersToOunces` | feed_baby/units.py:30-47 | a two-decimal value within 0.005 (strictly) of microlitres / 29573.5; non-negative for non-negative input |
| `Units.NeverHalfway` | feed_baby/units.py:45-47 | for every integer m and k, 100·m/29573.5 is at least 1/591470 away from k + 1/2, so ROUND_HALF_UP never meets a tie here |
| `Units.RoundTrip` | feed_baby/units.py:25-47 | for every whole number of hundredths c, microliters_to_ounces(ounces_to_microliters(c/100)) == c/100 |
| `Units.MicrolitersApproxAgrees` | feed_baby/units.py:45-47 | for \|m\| <= 10^15, any product within 1e-12 of m × MICROLITERS_TO_OZ quantizes to the same value as the exact quotient |
| `Units.ExamplesOuncesToMicroliters` | tests/test_units.py:7-69 | 3.0→88721, 1.0→29574, 5.0→147868, 3.25→96114, 3.5→103507, 2.75→81327 |
| `Units.ExamplesMicrolitersToOunces` | tests/test_units.py:24-31 | 88721→3.00 and 96114→3.25 |
| `Feeds.Feed.Ounces` | feed_baby/feed.py:37-42 | a two-decimal value within 0.005 of volume_ul/1000 × 0.033814; on an exact tie the last digit is even; non-negative for non-negative volume |
| `Feeds.VolumeFromOunces` | feed_baby/feed.py:59-61 | ounces × 29.5735 × 1000 truncated toward zero; non-negative for non-negative ounces |
| `Feeds.FromForm` | feed_baby/feed.py:44-64 | a feed with no id, the given instant and the truncated volume |
| `Feeds.TieReadsBackEven` | feed_baby/feed.py:37-42 | 7,500,000 µL (exactly 253.605 oz) reads back as 253.60 under half-even, where half-up would give 253.61 |
| `Feeds.RoundTrip` | feed_baby/feed.py:37-61 | for 0 <= c <= 250000 hundredths, from_form(c/100).ounces == c/100 exactly |
| `Feeds.RoundTripWithinTolerance` | tests/test_connection_handling.py:29-43 | for any two-decimal amount in [0, 2500] oz, the read-back is within 0.01 oz |
| `Feeds.RoundTripDriftsAtLargeVolumes` | feed_baby/feed.py:41 | 10000 oz is stored as 295735000 µL and reads back as 9999.98 |
| `Feeds.Examples` | tests/test_feed.py:23-68 | 3.0 oz gives 88720 µL (units.py gives 88721) and reads back 3.00; 3.5 reads back 3.50; 1.0 oz is within 0.1 ml of 29.5735 ml |
| `Passwords.Hex` | feed_baby/user.py:26-27 | two lower-case hex digits per byte |
| `Passwords.HexInjective` | feed_baby/user.py:50-53 | equal hex encodings come from equal byte strings |
| `Passwords.Split` | feed_baby/user.py:42 | one more part than there are separators, and no part contains the separator |
| `Passwords.SplitJoin` | feed_baby/user.py:42-46 | splitting what was joined from separator-free parts gives those parts back |
| `Passwords.JoinSplit` | feed_baby/user.py:42-46 | joining the '$'-split parts of any stored string gives the string back, so the parts of every string are pinned |
| `Passwords.SplitStored` | feed_baby/user.py:42-46 | a stored string built from a '$'-free salt and hash splits into exactly [scheme, salt, hash] |
| `Passwords.HashPassword` | feed_baby/user.py:11-27 | a supplied salt is returned unchanged, otherwise the salt is Hex of the random bytes; the hash is Hex of kdf(password, salt), twice the key length, without '$' |
| `Passwords.FormatStored` | feed_baby/user.py:93 | the stored string starts with `pbkdf2:sha256:600000$` |
| `Passwords.VerifyPassword` | feed_baby/user.py:30-55 | True only if the stored string has exactly two '$' (three parts) |
| `Passwords.VerifyRejectsOtherScheme` | feed_baby/user.py:46-48 | a three-part string whose first part is not `pbkdf2:sha256:600000` is rejected for every password |
| `Passwords.VerifyParsed` | feed_baby/user.py:46-53 | for a stored string that splits into the scheme, a salt and a hash, the password verifies iff the hex of its key under that salt equals the hash |
| `Passwords.VerifyStored` | feed_baby/user.py:50-53 | against the string stored for password p and a '$'-free salt, password q is accepted iff kdf(q, salt) == kdf(p, salt), so p itself is always accepted |
| `Passwords.NewStoredHash` | feed_baby/user.py:92-93 | what set_password/create store starts with `pbkdf2:sha256:600000$` |
| `Passwords.NewStoredHashVerifies` | feed_baby/user.py:86-104 | a freshly stored hash verifies against the password it was made from |
| `Passwords.User.SetPassword` | feed_baby/user.py:86-93 | the new hash has the scheme prefix, is the formatted fresh hash, and check_password(p) holds afterwards |
| `Passwords.User.CheckPassword` | feed_baby/user.py:95-104 | verify_password against the stored hash; true only for a well-formed hash |
| `Passwords.UserStore.Create` | feed_baby/user.py:106-157 | an existing username gives None and leaves the table unchanged; otherwise exactly one row is added with a fresh id and the formatted hash; other rows are kept |
| `Passwords.UserStore.Authenticate` | feed_baby/user.py:159-188 | a user is returned iff the username exists and the password verifies; it is the stored row |
| `SessionCache.FetchSession` | feed_baby/session_cache.py:23-44 | Some(row) iff the cookie is present and non-empty, storage works and the row exists; then it is that row |
| `SessionCache.QuerySession` | feed_baby/session_cache.py:26-42 | answers as FetchSession does, with at most one query; every connection it opens is closed |
| `SessionCache.GetOrFetchSession` | feed_baby/session_cache.py:10-46 | a set cache is returned as it is and storage is untouched; otherwise the lookup's answer, None included, is cached, with at most one query, and a missing or empty session cookie gives None with storage untouched; connections stay balanced |
| `Csrf.Decide` | feed_baby/csrf.py:33-66 | passes iff the method is safe, there is no session, or the header is non-empty and equals the session token; "missing" iff authenticated and unsafe with no or empty header; "invalid" iff authenticated and unsafe with a different non-empty header |
| `Csrf.Dispatch` | feed_baby/csrf.py:33-66 | safe methods pass without touching the cache or storage; other methods get Decide on the cached (or fetched) session |
| `Csrf.DispatchAfterEarlierLookup` | feed_baby/csrf.py:40-45 | when another component fills the cache first, the verdict is the same as on a fresh request, and storage is still queried at most once |
| `Csrf.MethodSetsDisjoint` | feed_baby/csrf.py:13-17 | no method of CSRF_PROTECTED_METHODS is in CSRF_SAFE_METHODS, so the safe-method short-cut never skips a protected method |
| `Csrf.UnlistedMethodsAreChecked` | feed_baby/csrf.py:13-38 | any method outside the safe set is decided exactly like POST; CSRF_PROTECTED_METHODS plays no part |
| `Csrf.ProtectedMethodsAreChecked` | feed_baby/csrf.py:13-56 | POST, PUT, PATCH and DELETE from a session without a header are rejected as missing |
| `Auth.SessionTable.GetSessionUserId` | feed_baby/auth.py:32-41 | Some(user id) iff the token is in the table |
| `Auth.SessionTable.CreateSession` | feed_baby/auth.py:18-29 | returns the token; the token now maps to the user; every other token's mapping is unchanged |
| `Auth.SessionTable.DeleteSession` | feed_baby/auth.py:44-50 | the token no longer resolves; an unknown token is a no-op; other tokens are untouched |
| `Auth.ResolveUser` | feed_baby/auth.py:58-65 | a user only for a non-empty cookie that is in the table, and then get_by_id of its user id |
| `Auth.AuthDispatch` | feed_baby/auth.py:56-68 | request.state.user is set to ResolveUser's answer, and the response is always the next handler's |
| `Auth.RequireAuth` | feed_baby/auth.py:71-81 | no user (attribute absent or None) gives a 303 redirect to /login; otherwise the handler's response |
| `Auth.AnonymousRequestsRedirected` | feed_baby/auth.py:56-81 | a request with an absent, empty or unknown cookie is redirected to /login by any guarded handler |
| `App.EvictCount` | feed_baby/app.py:50-51 | the number of keys the slice `[:max_tokens // 2]` selects: never more than the table holds, exactly max_tokens // 2 when a non-negative limit is exceeded, counted from the back for a negative limit |
| `App.RemoveKey` | feed_baby/app.py:52-53 | the key order after `del tokens[key]`: the key is gone and every other key remains |
| `App.TokenMatches` | feed_baby/app.py:34-37 | True iff the session has a stored token and it equals the supplied one |
| `App.CsrfProtection.ValidateToken` | feed_baby/app.py:34-37 | validate_token on the object's table: True iff the stored token equals the supplied one |
| `App.CsrfProtection.Size` | feed_baby/app.py:49 | len(self.tokens) equals the number of keys in insertion order |
| `App.CsrfProtection.GenerateToken` | feed_baby/app.py:28-32 | the session maps to the new token; other entries are unchanged; a new session goes last, an existing one keeps its position |
| `App.CsrfProtection.CleanupOldTokens` | feed_baby/app.py:39-53 | no change at or below max_tokens; above it, exactly the oldest max_tokens//2 keys go (Python slicing); survivors keep their tokens and order |
| `App.SessionIdFor` | feed_baby/app.py:65-67 | the cookie, or the fresh id when the cookie is empty |
| `App.GetCsrfToken` | feed_baby/app.py:59-75 | the new key order is the old one (plus the session if new) with the oldest EvictCount keys dropped past 1000; every other session keeps its token; with at most 1000 entries on entry a result exists, a known session leaves the table unchanged, and the token is the stored one for a known session (else the fresh one) |
| `Feeds.FeedStore.Save` | feed_baby/feed.py:82-93 | the feed is inserted under a fresh id; nothing else changes |
| `Feeds.FeedStore.Delete` | feed_baby/feed.py:112-126 | returns whether the id existed, and removes it |
| `App.CreateFeed` | feed_baby/app.py:144-159 | a failed CSRF check gives 403 and leaves the feeds unchanged; otherwise the from_form feed is saved and the answer is a 303 to / |
| `App.DeleteFeed` | feed_baby/app.py:161-174 | a failed CSRF check gives 403 and leaves the feeds unchanged; otherwise the id is removed, with 404 if it was absent and a 303 to / if it was present |
| `App.TokenIsSessionSpecific` | tests/test_csrf_protection.py:221-266 | a token is accepted for its own session and rejected under another session whose token differs |

## Left out

- SQLite itself: connections, SQL text, transactions, row factories, `Feed.get_all`, `Feed.from_db`, `User.from_db` and `User.get_by_id`. Tables are maps in classes. Row ids come from a counter. `get_by_id` is a function parameter.
- PBKDF2-HMAC-SHA256 and UTF-8 encoding are the parameter `kdf`. Key length and iteration count are not modelled beyond the fixed scheme string.
- `secrets.token_hex`, `secrets.token_urlsafe`: random values supplied by the caller. Their uniqueness and entropy cannot be stated here.
- `compare_digest` is modelled as equality. Its constant-time behaviour is a timing property. The TypeError it raises for a non-ASCII stored hash (not caught by `verify_password`) is not modelled.
- Csrf.Decide, Csrf.Dispatch, App.TokenMatches, App.CreateFeed, App.DeleteFeed: `compare_digest` raises TypeError when the client's token (the latin-1-decoded `X-CSRFToken` header, or the `csrf_token` form field) is a non-ASCII str; the source then fails with an uncaught exception and a 500, where the model answers 403. The request is refused either way.
- Passwords.VerifyPassword, Passwords.HashPassword: a Python str holding a lone surrogate (such as "\ud800") makes `password.encode()` or `salt.encode()` raise UnicodeEncodeError, a ValueError. `verify_password` then returns False, and `hash_password`, `set_password` and `create` let the exception escape. Dafny strings cannot hold lone surrogates, so this case is outside the model. Nothing else in the modelled path raises ValueError or AttributeError for a string input.
- Units.MicrolitersToOunces: uses the exact quotient. The 28-digit Decimal context is covered only for |m| <= 10^15, by `MicrolitersApproxAgrees`. Context overflow and InvalidOperation on very large values are not modelled.
- Units.MicrolitersToOunces, Feeds.Feed.Ounces: only the numeric value of the quantized Decimal is modelled. The exponent -2 that `quantize(Decimal("0.01"))` gives is not kept: it is what makes `str()` print exactly two places ("3.00"), and the model's `IsHundredths` says only "at most two places". The sign of a negative zero is not kept either: -1 µL gives `Decimal("-0.00")` in the source and 0.0 in the model, and so does a small negative volume read through `Feed.ounces`.
- Decimal context limits in `ounces_to_microliters` and `Feed`: products are assumed to fit in 28 significant digits.
- Timestamps: pendulum parsing of date/time/timezone in `Feed.from_form`, `User.created_at`. `FromForm` takes the parsed instant as text. Parse errors are not modelled.
- HTTP plumbing: routing, templates, cookie attributes, `home`/`feed_form` page rendering, `bootstrap_server`, the async `call_next`.
- Auth.AuthDispatch: the handler is a function of the attached user rather than of the whole request.
- A newer database-backed session store and authentication middleware that use the session cache: `auth.py` here is the in-memory version. `DispatchAfterEarlierLookup` states the order-independence property against any earlier user of the cache.
- App.GetCsrfToken, App.CsrfProtection.CleanupOldTokens: the model is sequential, with each shared object (`_sessions`, `csrf_protection`) passed explicitly and one call finishing before the next starts. In the source, the plain `def` routes (`home`, `feed_form`, `create_feed`, `delete_feed`) run in FastAPI's thread pool, so `get_csrf_token` calls can interleave on the shared token table. Two cleanups can then build the same `keys_to_remove`, and the second `del` of a key raises KeyError. Another request's cleanup can also evict a session between its generation and its read-back. So the guarantee that a result exists with at most 1000 entries on entry holds only for calls that do not overlap.
