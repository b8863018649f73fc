/**
 * Client walkthroughs: what a caller can conclude from the handlers'
 * contracts alone, for the lifecycle of one session and for the ways a
 * request is turned away.
 */
module Scenarios {
  import opened Outcomes
  import opened TokenStore
  import opened Api
  import Ascii
  import Base64

  const Granted: Payload := map[AccessTokenField := "abc123", "expires_in" := "300"]

  function Provider(email: string, password: string): Upstream {
    if email == "a@b.com" && password == "c2VjcmV0"
    then Reply(200, Json(Granted))
    else Reply(401, Json(map["detail" := "bad credentials"]))
  }

  /** The provider's grant for the right credentials, as `/auth` and `/token` see it. */
  lemma GrantShape()
    ensures AuthOutcome(Provider("a@b.com", "c2VjcmV0")) == Ok(Granted)
    ensures TokenToRegister(Provider("a@b.com", "c2VjcmV0")) == Some("abc123")
    ensures ShapeToken(Granted) == Bearer("abc123", "bearer")
  {
    assert AccessTokenField in Granted && Granted[AccessTokenField] == "abc123";
  }

  const SecretBytes: seq<Ascii.Byte> := [115, 101, 99, 114, 101, 116]

  lemma SecretIsAscii()
    ensures Ascii.EncodeAscii("secret") == Some(SecretBytes)
  {
    var secret := "secret";
    assert Ascii.AllAscii(secret) by {
      forall i | 0 <= i < |secret| ensures Ascii.IsAscii(secret[i]) {
        assert i == 0 || i == 1 || i == 2 || i == 3 || i == 4 || i == 5;
      }
    }
    var r := Ascii.EncodeAscii(secret).value;
    assert r[0] == 115 && r[1] == 101 && r[2] == 99 && r[3] == 114 && r[4] == 101 && r[5] == 116;
    assert r == SecretBytes;
  }

  lemma SecretSymbols()
    ensures Base64.Symbols(SecretBytes) == [28, 54, 21, 35, 28, 38, 21, 52]
  {
    assert SecretBytes[3..] == [114, 101, 116];
    assert SecretBytes[3..][3..] == [];
  }

  /** "secret" travels to the identity provider as "c2VjcmV0". */
  lemma SecretEncoding()
    ensures Encode("secret") == Ok("c2VjcmV0")
  {
    SecretIsAscii();
    SecretSymbols();
    var r := Base64.Encode(SecretBytes);
    assert r[0] == 'c' && r[1] == '2' && r[2] == 'V' && r[3] == 'j';
    assert r[4] == 'c' && r[5] == 'm' && r[6] == 'V' && r[7] == '0';
    assert r == "c2VjcmV0";
  }

  function NoUsers(loginId: string): Option<UserRecord> {
    None
  }

  /** The password-grant login encodes the password and hands out a registered bearer token. */
  method LoginHandsOutBearer() {
    var store := new Store(1000, map[]);
    SecretEncoding();
    GrantShape();
    var login := Login(store, "a@b.com", "secret", Provider);
    assert login == Ok(Bearer("abc123", "bearer"));
    assert LiveIn(store.entries, 1299, "abc123");
  }

  /** Use of the session within its lifetime renews it. */
  method Renewal() {
    var store := new Store(1000, map[]);
    GrantShape();
    var auth := Authenticate(store, "a@b.com", "c2VjcmV0", Provider);
    assert auth.Ok?;

    // 4:59 later the session is still there, and using it renews it.
    store.Advance(299);
    var root := Root(store, "abc123");
    assert root == Ok(RootReply("FastAPI API", "abc123"));

    // Another 4:59 later it is still there thanks to the renewal.
    store.Advance(299);
    var user, queried := User(store, "42", "abc123", NoUsers);
    assert user == Ok(None) && queried == Some("42");
  }

  /** Logout, and the end of the grace window when no request comes in it. */
  method LogoutAndGrace() {
    var store := new Store(1000, map[]);
    GrantShape();
    var auth := Authenticate(store, "a@b.com", "c2VjcmV0", Provider);
    assert auth.Ok?;
    var out := Deauth(store, "abc123");
    assert out == Ok(LogoutReply("Success"));

    // Once the window has passed, every protected endpoint refuses the token.
    store.Advance(3);
    var root := Root(store, "abc123");
    assert root == Err(Http(401, Text("Authorization expired.")));
    var user, queried := User(store, "42", "abc123", NoUsers);
    assert user.Err? && queried == None;
    out := Deauth(store, "abc123");
    assert out.Err?;
  }

  /**
   * A request inside the grace window renews the session: logged out at
   * 1000, it is still accepted at 1102.
   */
  method GraceRevived() returns (later: Result<RootReply>)
    ensures later == Ok(RootReply("FastAPI API", "abc123"))
  {
    var store := new Store(1000, map[]);
    GrantShape();
    var auth := Authenticate(store, "a@b.com", "c2VjcmV0", Provider);
    var out := Deauth(store, "abc123");
    assert out.Ok?;
    store.Advance(2);
    var root := Root(store, "abc123");
    assert root.Ok?;
    store.Advance(100);
    later := Root(store, "abc123");
  }

  /** A token that was never issued reaches no handler body and leaves the store alone. */
  method UnknownToken() {
    var store := new Store(0, map[]);
    var user, queried := User(store, "42", "forged", NoUsers);
    assert user == Err(Http(401, Text("Authorization expired.")));
    assert queried == None;
    assert store.entries == map[];
  }

  /** A 401 from the identity provider becomes a 401 "Not authorized." and registers nothing. */
  method RejectedCredentials() {
    var store := new Store(0, map[]);
    var auth := Authenticate(store, "a@b.com", "d3Jvbmc=", Provider);
    assert auth == Err(Http(401, Text("Not authorized.")));
    assert store.entries == map[];
  }

  /**
   * With the store down at authentication, the client still receives its
   * access token, but once the store is back the guard does not know it.
   */
  method LostRegistration() {
    var store := new Store(0, map[]);
    store.SetReachable(false);
    GrantShape();
    var auth := Authenticate(store, "a@b.com", "c2VjcmV0", Provider);
    assert auth == Ok(Granted) && Granted[AccessTokenField] == "abc123";
    store.SetReachable(true);
    var root := Root(store, "abc123");
    assert root == Err(Http(401, Text("Authorization expired.")));
  }
}
