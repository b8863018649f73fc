# Session-broker gateway: a Dafny model

The gateway is a small HTTP service that sits in front of an external
identity provider. A client logs in with an e-mail address and a password;
the gateway forwards the credentials to the provider (through `/token`,
with the password base64-encoded; through `/auth`, as they came), and
when the provider answers with an access token the gateway records that
token in Redis for five minutes. Every protected endpoint
(`/`, `/users/{userId}`, `/logout`) first runs the session guard: a token
that Redis does not know is refused with 401 "Authorization expired.", and a
token it knows gets five more minutes. `/logout` cuts the session down to a
three-second grace window.

The project models that core:

- `outcomes.dfy` (module `Outcomes`): `Option`, `Result`, and the errors
  a handler can end with. An `Http(status, detail)` is an `HTTPException`.
  An `Internal(cause)` is an uncaught exception, which the framework sends
  as a 500.
- `token_store.dfy` (module `TokenStore`): the Redis handle as a class.
  It holds a map from key to `Entry(value, expiresAt)` (no expiry for a
  key without a time to live), the server clock
  `now` and a `reachable` flag, and it offers the three commands the
  gateway uses: EXISTS, EXPIRE and SETEX. A key exists at time `now` when
  it is present and its expiry lies after `now`.
- `ascii.dfy` (module `Ascii`): strict ASCII encoding and decoding
  (`str.encode('ascii')` and its inverse). It also has the lossy filter
  `decode('ascii', 'ignore')`, which drops every non-ASCII character.
- `base64.dfy` (module `Base64`): the standard base64 alphabet with `=`
  padding, as section 4 of RFC 4648 defines it. Bytes become 6-bit
  symbols by arithmetic, and symbols become characters one at a time.
  The module proves the round trip in both directions.
- `json_text.dfy` (module `JsonText`): the text `json.dumps` writes for an
  object with string members, under its default `ensure_ascii=True`.
- `api.dfy` (module `Api`): the handlers. The session guard and the
  three endpoints behind it are methods over the store. `/auth` is a
  method over the store and an abstract identity provider.
  `/encode` is a function, and `/token` is a method that composes the two.
- `scenarios.dfy` (module `Scenarios`): client walkthroughs that follow
  from the contracts alone. One session's lifecycle: login, renewal,
  logout and the end of the grace window. Also a session revived inside
  its grace window, a forged token, rejected credentials, and an
  authentication while the store is down.

The handlers work on whatever the Redis database holds, including keys
that someone else wrote and keys without a time to live: the guard
accepts any key that exists. When the database holds only the gateway's
own sessions (`Api.SessionsWellFormed`: every entry holds the marker
`"True"` and expires at most 300 seconds after `now`), every handler
keeps it that way.

Three details of the source that are easy to misread:

- `/auth` registers the token whenever `raise_for_status` does not raise,
  that is for every status outside 400..599, not only for a 2xx reply.
- The reply body is parsed before the status is checked. A reply that is
  not JSON therefore ends in a 500, whatever its status.
- A reply without `access_token` is returned as it came. The missing key
  raises KeyError inside the same bare `except` that swallows a Redis
  failure (api.py:93-96).

## Model

| member | source | states |
|---|---|---|
| `TokenStore.Store.constructor` | api.py:52 | a connection sees exactly what the database holds at the given time, whoever wrote it, and the server is reachable |
| `TokenStore.Store.Exists` | api.py:60 | EXISTS answers 1 when the key is present and unexpired and 0 otherwise; with the server down the command fails |
| `TokenStore.Store.Expire` | api.py:63 | EXPIRE on an existing key keeps its value and sets its expiry to now + seconds; a missing or expired key is left alone and reported; with the server down nothing changes |
| `TokenStore.Store.SetEx` | api.py:94 | SETEX replaces whatever the key held with the value and expiry now + seconds; it reports failure and changes nothing when the server is down |
| `Api.WellFormedLater` | api.py:59-64 | the passage of time preserves the store invariant |
| `Api.RenewedWellFormed` | api.py:63 | renewal keeps the invariant, leaves the renewed token alive for exactly five more minutes, and leaves every other key as it was |
| `Api.GetAuthSession` | api.py:59-64 | the guard accepts exactly the tokens that exist now; an accepted token is returned and lives exactly until now + 300; a refused token gets 401 "Authorization expired." and the store is unchanged; a store that is down gives a 500; the invariant is kept when it held |
| `Api.Root` | api.py:66-69 | `/` answers the message and the token exactly for a live session and renews it; otherwise it passes on the guard's 401 with the store unchanged, or its 500 when the store is down |
| `Api.User` | api.py:109-112 | `/users/{userId}` issues the query, for that login id only, exactly when the session is live, and answers the row the lookup gives; otherwise there is no query, the store is unchanged, and the error is the guard's 401, or its 500 when the store is down |
| `Api.Deauth` | api.py:114-117 | right after `/logout` behind the guard the token is alive exactly for the times before now + 3, with its value kept; a dead token gets the guard's 401 and nothing changes; a store that is down gives a 500 |
| `Api.GraceRevivedAsWritten` | api.py:60-63 | as written, a request inside the grace window after a logout gives the session five more minutes |
| `Api.LogoutUndoneAsWritten` | api.py:60-63 | as written, a session logged out at 1000 and used at 1002 still exists at 1100 |
| `Api.ClosedAfterRequests` | api.py:59-64 | with the corrected guard and logout, no run of requests to `/`, `/users/{userId}` and `/logout` reopens or extends a closing session |
| `Api.GraceHonoured` | api.py:114-117 | with the corrected guard and logout, after the logout of an open session the token is refused from the end of the grace window on, whatever requests to `/`, `/users/{userId}` and `/logout` come in between; logging out a closing session changes nothing |
| `Api.RepeatedLogoutHonoured` | api.py:114-117 | with the corrected logout, a second `/logout` inside the window does not extend it: out at 1000, out again at 1002, refused at 1003 |
| `Scenarios.GraceRevived` | api.py:60-63 | as written, a token logged out at 1000 and used at 1002 is accepted by `/` at 1102 |
| `Api.UpstreamFailure` | api.py:97-101 | an HTTP error from the provider becomes an HTTPException with the provider's own status; a 401 carries "Not authorized." |
| `Api.UpstreamFailureAsWritten` | api.py:97-101 | as written, an HTTP error from the provider becomes an HTTPException with the provider's status; a 401 carries "Not authorized.", and any other status carries the error object itself |
| `Api.RenderedStatus` | api.py:101 | the framework sends an HTTPException with a serialisable detail under its own status, and an exception object as detail or any uncaught error as a 500 |
| `Api.UpstreamStatusLostAsWritten` | api.py:101 | as written, every provider error other than 401 reaches the client as a 500 |
| `Api.ForbiddenBecomesServerError` | api.py:101 | as written, a 403 from the provider does not reach the client as a 403 |
| `Api.UpstreamStatusKept` | api.py:97-101 | with the detail as text, the client sees the provider's status for every 4xx and 5xx |
| `Api.AuthOutcome` | api.py:84-102 | `/auth` succeeds exactly for a JSON reply whose status does not raise, and returns its body; an unreachable provider and a non-JSON body give a 500; a raising status gives an HTTPException with that status; 401 gives "Not authorized." |
| `Api.TokenToRegister` | api.py:92-96 | a token is registered exactly when `/auth` succeeds and its body has an `access_token`, and that member's value is the one registered |
| `Api.RegisteredWellFormed` | api.py:94 | registering a token keeps the store invariant, makes the token live exactly until now + 300, and leaves every other entry as it was |
| `Api.Authenticate` | api.py:84-102 | the result is the outcome for the provider's reply to these credentials; the store gains the reply's token exactly when the reply succeeds, has one, and the store is up; a failing store write does not change the result |
| `Api.Encode` | api.py:104-107 | `/encode` succeeds exactly for ASCII plaintexts, and otherwise fails with the encode error; the text has 4 * ceil(n / 3) characters of the base64 alphabet or `=`, and decodes back to the plaintext |
| `Api.EncodeInvertible` | api.py:104-107 | a text is the encoding of a plaintext if and only if it decodes (base64, then ASCII) to that plaintext |
| `Api.ShapeToken` | api.py:78-81 | `/token` answers the bearer pair exactly when the result has an `access_token`, with that token and type "bearer"; otherwise it returns the result as it came |
| `Api.Login` | api.py:71-81 | a non-ASCII password fails before the provider is asked and changes nothing; otherwise the result and the store are those of authenticating with the encoded password, reshaped; a bearer token handed out while the store is up lives exactly until now + 300 |
| `Ascii.AllAsciiConcat` | api.py:106 | a concatenation is ASCII if and only if both parts are |
| `Ascii.EncodeAscii` | api.py:106 | encoding succeeds if and only if every character is ASCII, and the bytes are the code points one to one |
| `Ascii.DecodeAscii` | api.py:104-107 | the decoder the round trip of `/encode` is stated with: decoding succeeds if and only if every byte is below 128, and the characters are the bytes one to one (on base64 output it agrees with the UTF-8 `encoded.decode()` of line 107) |
| `Ascii.AsciiRoundTrip` | api.py:106-107 | decoding the ASCII bytes of an ASCII string gives the string back |
| `Ascii.AsciiBytesRoundTrip` | api.py:106-107 | encoding the text of decodable bytes gives the bytes back |
| `Ascii.Sanitize` | api.py:91 | the filter's output is ASCII and no longer than its input |
| `Ascii.SanitizeConcat` | api.py:91 | the filter works character by character: filtering a concatenation concatenates the filtered parts |
| `Ascii.SanitizeIdentity` | api.py:91 | the filter leaves a string unchanged if and only if it is all ASCII |
| `Ascii.SanitizeIdempotent` | api.py:91 | filtering twice is filtering once |
| `Ascii.SanitizeCounts` | api.py:91 | every ASCII character keeps its number of occurrences, and every other character disappears |
| `JsonText.EscapeChar` | api.py:91 | the escape of any character is non-empty and ASCII |
| `JsonText.Dump` | api.py:91 | the serialised object is ASCII |
| `JsonText.SanitizeKeepsDump` | api.py:91 | the ASCII filter leaves the serialised reply exactly as it was; that the re-parsed body then equals the provider's rests on `json.loads` inverting `json.dumps`, which is left out |
| `Base64.Symbols` | api.py:106 | the encoding has four symbols for every started group of three bytes |
| `Base64.SymbolsPadOnlyAtEnd` | api.py:106 | padding can only occupy the last two places of an encoding |
| `Base64.UnsymbolsSymbols` | api.py:106 | the symbols of any byte string decode back to it |
| `Base64.SymbolsUnsymbols` | api.py:106 | every decodable symbol string is the encoding of what it decodes to |
| `Base64.ReadSpell` | api.py:107 | reading back the characters of symbols gives the symbols |
| `Base64.SpellRead` | api.py:107 | every readable text is the spelling of what it reads as |
| `Base64.Encode` | api.py:106 | `base64.b64encode`: the encoding of n bytes has 4 * ceil(n / 3) characters |
| `Base64.EncodeAlphabet` | api.py:106 | every character of an encoding is in the alphabet, except `=` in the last two places |
| `Base64.DecodeEncode` | api.py:106 | decoding an encoding gives the bytes back |
| `Base64.EncodeDecode` | api.py:106 | every decodable text is the encoding of what it decodes to |
| `Base64.DecodeIsInverse` | api.py:106 | a text decodes to some bytes if and only if it is their encoding |
| `Base64.TestVectors` | api.py:106 | the encodings of "", "f", "fo" and "foo" are those of section 10 of RFC 4648 |
| `Base64.TestVectorsLonger` | api.py:106 | the encodings of "foob" and "fooba" are those of section 10 of RFC 4648 |
| `Base64.TestVectorFoobar` | api.py:106 | the encoding of "foobar" is that of section 10 of RFC 4648 |

## Findings

| source | as written | input that shows it | evidently intended | confidence | as-written member | corrected member |
|---|---|---|---|---|---|---|
| api.py:101 | the HTTPException detail is the `HTTPError` object itself. The framework's default handler serialises the detail as JSON and fails on it, so the client gets a 500 | the identity provider answers 403 with a JSON body | the client sees the provider's 403, with the error text as detail | medium (not executed; the 500 follows from the framework's JSON serialisation of the detail) | `Api.UpstreamStatusLostAsWritten` | `Api.UpstreamStatusKept` |
| api.py:60-63, 116 | the guard renews every token that exists, including one inside the three-second window a logout leaves it | log out at 1000, request `/` at 1002; the token is still accepted at 1102 | a logged-out token is refused once the grace window is over, whatever requests to `/`, `/users/{userId}` and `/logout` come in it | high (not executed; the renewal at line 63 does not look at how the session came to expire soon) | `Api.GraceRevivedAsWritten` | `Api.GraceHonoured` |

For the first row, `Api.AuthOutcome` and `Api.Authenticate` use the
corrected `Api.UpstreamFailure`. For the second row, the endpoints
(`Api.Root`, `Api.User`, `Api.Deauth`) keep the guard as written, so
that their contracts describe the program as it runs. The corrected pair is
`Api.RenewedGraceAware`, a guard that lets a closing session through
without renewing it, and `Api.LogoutGraceAware`, a `/logout` that marks an
open session as closing and leaves a closing one with the end of its
window. Both are given as functions on the store's contents, and
`Api.AfterRequests` replays any run of `/`, `/users/{userId}` and
`/logout` requests through them. A new login that registers the same
token again (api.py:94) opens a new session and is outside that claim.

## Left out

- Api.AuthOutcome: for a raising status other than 401 it carries the
  corrected detail, the error text, and not the `HTTPError` object the
  code passes. `Api.UpstreamFailureAsWritten` models the code as written,
  and `Api.UpstreamStatusLostAsWritten` shows what the client then gets
  (see Findings).
- TokenStore.Store.constructor: the database's contents at connection
  time are a parameter, and every value is a string. Redis keys of other
  types (lists, hashes), which EXISTS also counts, are not represented.

- Request plumbing:
  - The framework's dependency injection, the OAuth2 bearer header and the
    form parsing are left out (api.py:56, 71-72). The token and the
    credentials are plain parameters.
  - Request and response validation are left out: the pydantic models,
    `EmailStr`, and `response_model=AuthOut` (api.py:17-32, 83). The
    latter does not apply when `/token` calls `authenticate` directly.
  - The `print` calls and `response.elapsed` are left out (api.py:77, 90, 96).
- The MariaDB connection, its configuration and its failure at start-up
  are left out (api.py:34-44). The SQL query (api.py:111-112) is a lookup
  function passed to `Api.User`.
- The identity provider's HTTP exchange is left out (api.py:85-89). It is
  the function `provider` from the credentials to an abstract reply:
  unreachable, or a status with a body. A JSON body is a map from member
  name to string, so the order of the object's members is lost: `/token`'s
  fall-through (api.py:81) returns the object with its order intact, and
  `JsonText.Dump` takes the members as an ordered sequence that nothing
  ties to the map.
- Parsing JSON text back is left out. `Api.AuthOutcome` uses the body as
  the provider sent it; `JsonText.SanitizeKeepsDump` shows that the ASCII
  filter changes nothing in the text. Non-string member values are
  abstracted to strings.
- Redis:
  - The connection settings are left out (api.py:48-52).
  - A failure is modelled only as the whole server being unreachable.
    Partial failures and timeouts are not modelled.
  - Expired keys stay in the map and are read as absent, as Redis does by
    lazy deletion.
  - `TokenStore.Store.Advance` and `TokenStore.Store.SetReachable`
    represent the clock and the network. They are the environment, not the
    gateway.
- Concurrency is left out. Every request runs alone, so the check-then-expire
  race in the session guard (api.py:60-63) is not modelled.
- `Base64.Decode` is stricter than Python's `b64decode`. Non-zero padding
  bits and characters outside the alphabet are rejected, so that decoding
  is the exact inverse of encoding. The gateway only encodes.
- The unused module-level timestamp and the unused `defaultTestLoader`
  import (api.py:2, 54) are left out.
