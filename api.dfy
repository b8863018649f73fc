/**
 * The gateway's handlers: the session guard that every protected endpoint
 * runs first, the endpoints behind it (`/`, `/users/{userId}`, `/logout`),
 * the exchange with the identity provider (`/auth`), the password-grant
 * login (`/token`) and the credential encoder (`/encode`).
 *
 * The identity provider is a function from the credentials sent to it to
 * its reply; the user table is a function from a login id to a row. Every
 * handler runs alone: one request at a time.
 */
module Api {
  import opened Outcomes
  import opened Ascii
  import opened TokenStore
  import Base64

  /** `timedelta(minutes=5)`: the lifetime of a session after login or use. */
  const SessionTtl: int := 300
  /** The seconds a session survives a logout. */
  const LogoutGrace: int := 3
  /** The value stored under every session token. */
  const Marker: string := "True"

  const ExpiredMessage: string := "Authorization expired."
  const NotAuthorizedMessage: string := "Not authorized."

  /** The JSON object of a reply, its member values abstracted to strings. */
  type Payload = map<string, string>

  const AccessTokenField: string := "access_token"

  datatype Body = Json(payload: Payload) | NotJson

  /** What `requests.post` to the identity provider ends with. */
  datatype Upstream = Unreachable | Reply(status: int, body: Body)

  datatype UserRecord = UserRecord(userGuid: string, staffId: string, loginId: string, email: string)

  datatype RootReply = RootReply(message: string, token: string)

  /** What `/token` returns: the bearer pair, or the authentication result as it came. */
  datatype TokenReply = Bearer(accessToken: string, tokenType: string) | PassThrough(payload: Payload)

  datatype LogoutReply = LogoutReply(logout: string)

  /**
   * The state the gateway keeps to itself: every entry holds the marker and
   * expires at most five minutes from now. The database may hold other keys
   * (written by someone else, or without a time to live); the handlers do not
   * need this to hold, and keep it when it does.
   */
  predicate SessionsWellFormed(entries: map<string, Entry>, now: int) {
    forall k | k in entries ::
      entries[k].value == Marker && entries[k].expiresAt.Some? && entries[k].expiresAt.value <= now + SessionTtl
  }

  predicate Invariant(store: Store)
    reads store
  {
    SessionsWellFormed(store.entries, store.now)
  }

  /** Waiting keeps the invariant (it can only bring expiries closer). */
  lemma WellFormedLater(entries: map<string, Entry>, now: int, later: int)
    requires SessionsWellFormed(entries, now) && now <= later
    ensures SessionsWellFormed(entries, later)
  {
  }

  /** The store after the guard has let `token` through at time `now`, if it exists. */
  function Renewed(entries: map<string, Entry>, now: int, token: string): map<string, Entry> {
    if LiveIn(entries, now, token) then entries[token := Entry(entries[token].value, Some(now + SessionTtl))] else entries
  }

  /** The store after a logout of `token` at time `now`, if it exists. */
  function LoggedOut(entries: map<string, Entry>, now: int, token: string): map<string, Entry> {
    if LiveIn(entries, now, token) then entries[token := Entry(entries[token].value, Some(now + LogoutGrace))] else entries
  }

  /** Renewal keeps the invariant, and the renewed token exists for exactly five more minutes. */
  lemma RenewedWellFormed(entries: map<string, Entry>, now: int, token: string)
    ensures SessionsWellFormed(entries, now) ==> SessionsWellFormed(Renewed(entries, now, token), now)
    ensures LiveIn(entries, now, token) ==>
              forall t :: LiveIn(Renewed(entries, now, token), t, token) <==> t < now + SessionTtl
    ensures forall k | k in entries && k != token :: k in Renewed(entries, now, token) && Renewed(entries, now, token)[k] == entries[k]
  {
  }

  // ---------------------------------------------------------------------
  // Session guard and the protected endpoints.

  /**
   * `get_auth_session`: reject a token that does not exist in the store;
   * otherwise give it five more minutes and hand it on.
   */
  method GetAuthSession(store: Store, token: string) returns (res: Result<string>)
    modifies store`entries
    ensures old(Invariant(store)) ==> Invariant(store)
    ensures res.Ok? <==> store.reachable && LiveIn(old(store.entries), store.now, token)
    ensures res.Ok? ==> res.value == token
    ensures store.entries == if store.reachable then Renewed(old(store.entries), store.now, token) else old(store.entries)
    ensures res.Ok? ==> forall t :: LiveIn(store.entries, t, token) <==> t < store.now + SessionTtl
    ensures res.Err? ==> store.entries == old(store.entries)
    ensures res.Err? && store.reachable ==> res.error == Http(401, Text(ExpiredMessage))
    ensures !store.reachable ==> res == Err(Internal(StoreUnreachable))
  {
    var count := store.Exists(token);
    if count.None? {
      return Err(Internal(StoreUnreachable));
    }
    if count.value == 0 {
      return Err(Http(401, Text(ExpiredMessage)));
    }
    var _ := store.Expire(token, SessionTtl);
    RenewedWellFormed(old(store.entries), store.now, token);
    res := Ok(token);
  }

  /** `/`: echo the token of a live session. */
  method Root(store: Store, token: string) returns (res: Result<RootReply>)
    modifies store`entries
    ensures old(Invariant(store)) ==> Invariant(store)
    ensures res.Ok? <==> store.reachable && LiveIn(old(store.entries), store.now, token)
    ensures res.Ok? ==> res.value == RootReply("FastAPI API", token)
    ensures store.entries == if store.reachable then Renewed(old(store.entries), store.now, token) else old(store.entries)
    ensures res.Err? && store.reachable ==> res.error == Http(401, Text(ExpiredMessage))
    ensures !store.reachable ==> res == Err(Internal(StoreUnreachable))
  {
    var session := GetAuthSession(store, token);
    if session.Err? {
      return Err(session.error);
    }
    res := Ok(RootReply("FastAPI API", session.value));
  }

  /**
   * `/users/{userId}`: the row of the user table with that login id, or
   * none. `queried` is the login id sent to the database, if any: the query
   * runs only behind a live session.
   */
  method User(store: Store, userId: string, token: string, lookup: string -> Option<UserRecord>)
    returns (res: Result<Option<UserRecord>>, queried: Option<string>)
    modifies store`entries
    ensures old(Invariant(store)) ==> Invariant(store)
    ensures res.Ok? <==> store.reachable && LiveIn(old(store.entries), store.now, token)
    ensures queried == if res.Ok? then Some(userId) else None
    ensures res.Ok? ==> res.value == lookup(userId)
    ensures store.entries == if store.reachable then Renewed(old(store.entries), store.now, token) else old(store.entries)
    ensures res.Err? && store.reachable ==> res.error == Http(401, Text(ExpiredMessage))
    ensures !store.reachable ==> res == Err(Internal(StoreUnreachable)) && queried == None
  {
    var session := GetAuthSession(store, token);
    if session.Err? {
      return Err(session.error), None;
    }
    queried := Some(userId);
    res := Ok(lookup(userId));
  }

  /**
   * `/logout`: behind the guard, cut the session down to a three-second
   * grace window. Right after the call the token exists at exactly the
   * times before now + 3; a request inside that window renews it again
   * (see `GraceRevivedAsWritten`).
   */
  method Deauth(store: Store, token: string) returns (res: Result<LogoutReply>)
    modifies store`entries
    ensures old(Invariant(store)) ==> Invariant(store)
    ensures res.Ok? <==> store.reachable && LiveIn(old(store.entries), store.now, token)
    ensures res.Ok? ==> res.value == LogoutReply("Success")
    ensures store.entries == if store.reachable then LoggedOut(old(store.entries), store.now, token) else old(store.entries)
    ensures res.Ok? ==> forall t :: LiveIn(store.entries, t, token) <==> t < store.now + LogoutGrace
    ensures res.Err? ==> store.entries == old(store.entries)
    ensures res.Err? && store.reachable ==> res.error == Http(401, Text(ExpiredMessage))
    ensures !store.reachable ==> res == Err(Internal(StoreUnreachable))
  {
    var session := GetAuthSession(store, token);
    if session.Err? {
      return Err(session.error);
    }
    var _ := store.Expire(token, LogoutGrace);
    res := Ok(LogoutReply("Success"));
  }

  // ---------------------------------------------------------------------
  // The grace window after a logout.

  /**
   * As written, a request inside the grace window passes the guard, which
   * gives the session five more minutes: the logout is undone.
   */
  lemma GraceRevivedAsWritten(entries: map<string, Entry>, now: int, token: string, use: int, later: int)
    requires LiveIn(entries, now, token)
    requires now <= use < now + LogoutGrace && later < use + SessionTtl
    ensures LiveIn(Renewed(LoggedOut(entries, now, token), use, token), later, token)
  {
  }

  /** For instance: out at 1000, a request at 1002, and the session is there at 1100. */
  lemma LogoutUndoneAsWritten()
    ensures var e := map["abc" := Entry(Marker, Some(1300))];
            LiveIn(Renewed(LoggedOut(e, 1000, "abc"), 1002, "abc"), 1100, "abc") && 1100 >= 1000 + LogoutGrace
  {
  }

  /** The value a logout leaves under the token for its grace window. */
  const GraceMarker: string := "LoggedOut"

  /**
   * The expiry step of the logout as evidently meant: an open session is
   * marked as closing; a session that is already closing keeps the end of
   * its window.
   */
  function LoggedOutGraceAware(entries: map<string, Entry>, now: int, token: string): map<string, Entry> {
    if LiveIn(entries, now, token) && entries[token].value != GraceMarker
    then entries[token := Entry(GraceMarker, Some(now + LogoutGrace))]
    else entries
  }

  /** The guard as evidently meant: it lets a closing session through, but does not renew it. */
  function RenewedGraceAware(entries: map<string, Entry>, now: int, token: string): map<string, Entry> {
    if LiveIn(entries, now, token) && entries[token].value != GraceMarker
    then entries[token := Entry(entries[token].value, Some(now + SessionTtl))]
    else entries
  }

  /** `/logout` as evidently meant: the corrected guard, then the corrected expiry step. */
  function LogoutGraceAware(entries: map<string, Entry>, now: int, token: string): map<string, Entry> {
    LoggedOutGraceAware(RenewedGraceAware(entries, now, token), now, token)
  }

  /**
   * A request to a protected endpoint, at a time and with a token: `/` and
   * `/users/{userId}` only run the guard, `/logout` runs the guard and then
   * closes the session.
   */
  datatype Request = Use(at: int, token: string) | Logout(at: int, token: string)

  /** The store after the corrected endpoints have served a run of requests. */
  function AfterRequests(entries: map<string, Entry>, requests: seq<Request>): map<string, Entry>
    decreases |requests|
  {
    if requests == [] then entries
    else
      var next := match requests[0]
        case Use(at, k) => RenewedGraceAware(entries, at, k)
        case Logout(at, k) => LogoutGraceAware(entries, at, k);
      AfterRequests(next, requests[1..])
  }

  /** The token is gone, or closing and gone by `end`. */
  predicate Closed(entries: map<string, Entry>, token: string, end: int) {
    token in entries ==>
      entries[token].value == GraceMarker && entries[token].expiresAt.Some? && entries[token].expiresAt.value <= end
  }

  lemma {:induction false} ClosedAfterRequests(entries: map<string, Entry>, token: string, end: int, requests: seq<Request>)
    requires Closed(entries, token, end)
    ensures Closed(AfterRequests(entries, requests), token, end)
    decreases |requests|
  {
    if requests != [] {
      var next := match requests[0]
        case Use(at, k) => RenewedGraceAware(entries, at, k)
        case Logout(at, k) => LogoutGraceAware(entries, at, k);
      assert Closed(next, token, end);
      ClosedAfterRequests(next, token, end, requests[1..]);
    }
  }

  /**
   * With the corrected guard and logout, whatever requests to `/`,
   * `/users/{userId}` and `/logout` follow the logout of an open session,
   * the token is refused from the end of the grace window on. Logging out
   * a session that is already closing changes nothing.
   */
  lemma GraceHonoured(entries: map<string, Entry>, now: int, token: string, requests: seq<Request>, t: int)
    requires LiveIn(entries, now, token) && t >= now + LogoutGrace
    ensures entries[token].value != GraceMarker ==>
              !LiveIn(AfterRequests(LogoutGraceAware(entries, now, token), requests), t, token)
    ensures entries[token].value == GraceMarker ==> LogoutGraceAware(entries, now, token) == entries
  {
    if entries[token].value != GraceMarker {
      ClosedAfterRequests(LogoutGraceAware(entries, now, token), token, now + LogoutGrace, requests);
    }
  }

  /** For instance: out at 1000, out again and `/` at 1002, and the token is refused at 1003. */
  lemma RepeatedLogoutHonoured()
    ensures var e := map["abc" := Entry(Marker, Some(1300))];
            !LiveIn(AfterRequests(LogoutGraceAware(e, 1000, "abc"), [Logout(1002, "abc"), Use(1002, "abc")]), 1003, "abc")
  {
    var e := map["abc" := Entry(Marker, Some(1300))];
    GraceHonoured(e, 1000, "abc", [Logout(1002, "abc"), Use(1002, "abc")], 1003);
  }

  // ---------------------------------------------------------------------
  // Exchange with the identity provider.

  /** `raise_for_status` raises for a client error (4xx) or a server error (5xx) only. */
  predicate RaisesForStatus(status: int) {
    400 <= status < 600
  }

  /** Lines 97-101 as written: the HTTPError object itself becomes the detail. */
  function UpstreamFailureAsWritten(status: int): (e: ApiError)
    ensures e.Http? && e.status == status
    ensures status == 401 ==> e.detail == Text(NotAuthorizedMessage)
    ensures status != 401 ==> e.detail == ErrorObject(status)
  {
    if status == 401 then Http(401, Text(NotAuthorizedMessage)) else Http(status, ErrorObject(status))
  }

  /** Lines 97-101 as evidently meant: the detail is the text of the HTTPError. */
  function UpstreamFailure(status: int): (e: ApiError)
    ensures e.Http? && e.status == status
    ensures status == 401 ==> e.detail == Text(NotAuthorizedMessage)
  {
    if status == 401 then Http(401, Text(NotAuthorizedMessage)) else Http(status, ErrorString(status))
  }

  /**
   * The status of the reply the framework sends for an error. Its default
   * handler serialises `{"detail": detail}` as JSON, which fails for an
   * exception object and so ends in a 500.
   */
  function RenderedStatus(e: ApiError): (r: int)
    ensures e.Http? && !e.detail.ErrorObject? ==> r == e.status
    ensures e.Internal? || e.detail.ErrorObject? ==> r == 500
  {
    match e
    case Http(status, ErrorObject(_)) => 500
    case Http(status, _) => status
    case Internal(_) => 500
  }

  /** As written, every upstream error other than 401 reaches the client as a 500 ... */
  lemma UpstreamStatusLostAsWritten(status: int)
    requires RaisesForStatus(status) && status != 401
    ensures RenderedStatus(UpstreamFailureAsWritten(status)) == 500
  {
  }

  /** ... for instance a 403 from the identity provider. */
  lemma ForbiddenBecomesServerError()
    ensures RenderedStatus(UpstreamFailureAsWritten(403)) != 403
  {
  }

  /** With the detail as text, the client sees the identity provider's own status. */
  lemma UpstreamStatusKept(status: int)
    requires RaisesForStatus(status)
    ensures RenderedStatus(UpstreamFailure(status)) == status
  {
  }

  /**
   * The outcome of `authenticate` for a reply from the identity provider.
   * The body is parsed before the status is checked, so a body that is not
   * JSON fails the request whatever the status; a JSON reply whose status
   * does not raise is returned as it came (the ASCII filter at line 91
   * changes nothing in it: see `JsonText.SanitizeKeepsDump`).
   */
  function AuthOutcome(reply: Upstream): (r: Result<Payload>)
    ensures r.Ok? <==> reply.Reply? && reply.body.Json? && !RaisesForStatus(reply.status)
    ensures r.Ok? ==> r.value == reply.body.payload
    ensures reply.Unreachable? ==> r == Err(Internal(UpstreamUnreachable))
    ensures reply.Reply? && reply.body.NotJson? ==> r == Err(Internal(ReplyNotJson))
    ensures reply.Reply? && reply.body.Json? && RaisesForStatus(reply.status) ==>
              r.Err? && r.error.Http? && r.error.status == reply.status
    ensures reply.Reply? && reply.body.Json? && reply.status == 401 ==>
              r == Err(Http(401, Text(NotAuthorizedMessage)))
  {
    match reply
    case Unreachable => Err(Internal(UpstreamUnreachable))
    case Reply(status, NotJson) => Err(Internal(ReplyNotJson))
    case Reply(status, Json(payload)) =>
      if RaisesForStatus(status) then Err(UpstreamFailure(status)) else Ok(payload)
  }

  /** The token `authenticate` writes to the store for a reply, if any. */
  function TokenToRegister(reply: Upstream): (t: Option<string>)
    ensures t.Some? <==> AuthOutcome(reply).Ok? && AccessTokenField in AuthOutcome(reply).value
    ensures t.Some? ==> t.value == AuthOutcome(reply).value[AccessTokenField]
  {
    match AuthOutcome(reply)
    case Ok(payload) => if AccessTokenField in payload then Some(payload[AccessTokenField]) else None
    case Err(_) => None
  }

  /** The store after `authenticate`: the token is registered, unless there is none or the store is down. */
  function Registered(entries: map<string, Entry>, now: int, reachable: bool, token: Option<string>): map<string, Entry> {
    if token.Some? && reachable then entries[token.value := Entry(Marker, Some(now + SessionTtl))] else entries
  }

  lemma RegisteredWellFormed(entries: map<string, Entry>, now: int, reachable: bool, token: Option<string>)
    ensures SessionsWellFormed(entries, now) ==> SessionsWellFormed(Registered(entries, now, reachable, token), now)
    ensures token.Some? && reachable ==> forall t :: LiveIn(Registered(entries, now, reachable, token), t, token.value) <==> t < now + SessionTtl
    ensures forall k | k in entries && (token.None? || k != token.value) :: k in Registered(entries, now, reachable, token) && Registered(entries, now, reachable, token)[k] == entries[k]
  {
  }

  /**
   * `/auth`: send the credentials to the identity provider. A reply that
   * does not raise registers its access token (if it has one) for five
   * minutes; a failing store write is swallowed and the reply returned all
   * the same. A failing reply changes nothing in the store.
   */
  method Authenticate(store: Store, email: string, password: string, provider: (string, string) -> Upstream)
    returns (res: Result<Payload>)
    modifies store`entries
    ensures old(Invariant(store)) ==> Invariant(store)
    ensures res == AuthOutcome(provider(email, password))
    ensures store.entries == Registered(old(store.entries), store.now, store.reachable, TokenToRegister(provider(email, password)))
  {
    var reply := provider(email, password);
    if reply.Unreachable? {
      return Err(Internal(UpstreamUnreachable));
    }
    if reply.body.NotJson? {
      return Err(Internal(ReplyNotJson));
    }
    var authresp := reply.body.payload;
    if RaisesForStatus(reply.status) {
      return Err(UpstreamFailure(reply.status));
    }
    if AccessTokenField in authresp {
      var _ := store.SetEx(authresp[AccessTokenField], SessionTtl, Marker);
    }
    res := Ok(authresp);
  }

  // ---------------------------------------------------------------------
  // The credential encoder and the password-grant login.

  /**
   * `/encode`: the base64 text of the ASCII bytes of the plaintext; a
   * plaintext with a non-ASCII character raises UnicodeEncodeError.
   */
  function Encode(plaintext: string): (r: Result<string>)
    ensures r.Ok? <==> AllAscii(plaintext)
    ensures r.Err? ==> r.error == Internal(NonAsciiPlaintext)
    ensures r.Ok? ==> |r.value| == 4 * ((|plaintext| + 2) / 3)
    ensures r.Ok? ==> forall i | 0 <= i < |r.value| :: Base64.IsAlphabetChar(r.value[i]) || r.value[i] == Base64.Padding
    ensures r.Ok? ==> DecodeText(r.value) == Some(plaintext)
  {
    match EncodeAscii(plaintext)
    case None => Err(Internal(NonAsciiPlaintext))
    case Some(bytes) =>
      Base64.EncodeAlphabet(bytes);
      Base64.DecodeEncode(bytes);
      AsciiRoundTrip(plaintext);
      Ok(Base64.Encode(bytes))
  }

  /** What anyone can recover from an encoded credential: base64, then ASCII. */
  function DecodeText(s: string): Option<string> {
    match Base64.Decode(s)
    case None => None
    case Some(bytes) => DecodeAscii(bytes)
  }

  /** The encoder is a bijection between ASCII plaintexts and decodable texts. */
  lemma EncodeInvertible(plaintext: string, s: string)
    ensures Encode(plaintext) == Ok(s) <==> DecodeText(s) == Some(plaintext)
  {
    if DecodeText(s) == Some(plaintext) {
      var bytes := Base64.Decode(s).value;
      AsciiBytesRoundTrip(bytes);
      Base64.EncodeDecode(s);
    }
  }

  /** `/token` reshapes the authentication result when it carries an access token. */
  function ShapeToken(userauth: Payload): (r: TokenReply)
    ensures r.Bearer? <==> AccessTokenField in userauth
    ensures r.Bearer? ==> r.accessToken == userauth[AccessTokenField] && r.tokenType == "bearer"
    ensures r.PassThrough? ==> r.payload == userauth
  {
    if AccessTokenField in userauth then Bearer(userauth[AccessTokenField], "bearer") else PassThrough(userauth)
  }

  /**
   * `/token`: encode the password, authenticate with the encoded password
   * and answer with a bearer token. A bearer token it hands out exists in
   * the store for the next five minutes unless the store was down.
   */
  method Login(store: Store, username: string, password: string, provider: (string, string) -> Upstream)
    returns (res: Result<TokenReply>)
    modifies store`entries
    ensures old(Invariant(store)) ==> Invariant(store)
    ensures Encode(password).Err? ==> res == Err(Internal(NonAsciiPlaintext)) && store.entries == old(store.entries)
    ensures Encode(password).Ok? ==>
      var outcome := AuthOutcome(provider(username, Encode(password).value));
      && res == (if outcome.Ok? then Ok(ShapeToken(outcome.value)) else Err(outcome.error))
      && store.entries == Registered(old(store.entries), store.now, store.reachable,
                                     TokenToRegister(provider(username, Encode(password).value)))
    ensures res.Ok? && res.value.Bearer? && store.reachable ==>
      forall t :: LiveIn(store.entries, t, res.value.accessToken) <==> t < store.now + SessionTtl
  {
    var encoded := Encode(password);
    if encoded.Err? {
      return Err(encoded.error);
    }
    var userauth := Authenticate(store, username, encoded.value, provider);
    if userauth.Err? {
      return Err(userauth.error);
    }
    RegisteredWellFormed(old(store.entries), store.now, store.reachable, TokenToRegister(provider(username, encoded.value)));
    res := Ok(ShapeToken(userauth.value));
  }
}
