/** Clients of the handlers' contracts: the account lifecycle for one account, and
    chatting in one session while another account's history stays empty. */
module Scenario {
  import opened Wrappers
  import opened Hex
  import opened Email
  import opened Passwords
  import opened Storage
  import opened Http
  import opened Auth
  import opened Routes

  /** Registration of alice, a wrong code and a login refused before verification;
      `VerifyThenLogIn` continues with the same server. */
  method AccountLifecycle(kdf: Kdf, codeRandom: seq<byte>, saltRandom: seq<byte>, t0: int)
    requires ValidKdf(kdf) && |codeRandom| == CodeBytes && |saltRandom| == SaltBytes
  {
    var store := new MemStorage();
    var server := new AuthServer(store);
    var code := GenerateVerificationCode(codeRandom);

    var r := server.Register(kdf, "a@b.com", "alice", "Passw0rd", codeRandom, saltRandom, t0, None);
    assert r.status == 201;
    assert store.users == map[1 := RegisteredUser(1, "a@b.com", "alice", HashPassword(kdf, "Passw0rd", saltRandom), code, VerificationExpiry(t0))];

    // Not a hex code, so not the issued one.
    assert "ZZZZZZ" != code by { assert !IsUpperHexChar("ZZZZZZ"[0]); }
    r := server.Verify(Some("a@b.com"), Some("ZZZZZZ"), t0 + 1000, "t1");
    assert r.status == 400;

    r := server.Login(kdf, Some("a@b.com"), Some("Passw0rd"), "t1");
    assert r == Response(401, MessageBody(VerifyFirst));

    VerifyThenLogIn(kdf, server, code, saltRandom, t0);
  }

  /** Alice, registered at `t0` and not yet verified, verifies in time and logs in;
      an unknown email is refused. */
  method VerifyThenLogIn(kdf: Kdf, server: AuthServer, code: string, saltRandom: seq<byte>, t0: int)
    requires ValidKdf(kdf) && |saltRandom| == SaltBytes && |code| == CodeLength
    requires server.Valid() && server.store.currentUserId == 2
    requires server.store.users == map[1 := RegisteredUser(1, "a@b.com", "alice", HashPassword(kdf, "Passw0rd", saltRandom), code, VerificationExpiry(t0))]
    modifies server, server.store
  {
    var store := server.store;
    var r := server.Verify(Some("a@b.com"), Some(code), t0 + 2000, "t1");
    assert r.status == 200;
    assert store.users[1].isVerified;

    r := server.Login(kdf, Some("a@b.com"), Some("Passw0rd"), "t2");
    LoginAgainstStoredHash(kdf, store.users[1], "Passw0rd", "Passw0rd", saltRandom);
    assert r.status == 200 && server.sessions["t2"] == 1;

    r := server.Login(kdf, Some("nobody@b.com"), Some("Passw0rd"), "t3");
    assert r == Response(401, MessageBody(InvalidCredentials));
  }

  method ChatInSession(server: AuthServer, mine: string, theirs: string, reply: Reply, now: int)
    requires server.Valid()
    requires mine in server.sessions && theirs in server.sessions
    requires server.sessions[mine] != server.sessions[theirs]
    requires Num(server.sessions[theirs]) !in server.store.conversations
    modifies server, server.store
  {
    var r := Chat(server, mine, Some("What is phishing?"), Success(reply), now);
    assert r == Response(200, ReplyBody(reply));
    r := ListConversations(server, mine);
    assert r.body.HistoryBody? && |r.body.conversations| >= 1;
    assert r.body.conversations[|r.body.conversations| - 1].message == "What is phishing?";

    r := ListConversations(server, theirs);
    assert r == Response(200, HistoryBody([]));

    r := Chat(server, mine, Some(""), Success(reply), now);
    assert r.status == 400;

    r := server.Logout(mine);
    r := ListConversations(server, mine);
    assert r == Unauthorized;
  }
}
