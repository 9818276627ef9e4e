/** Authentication of server/auth.ts: the LocalStrategy login decision, and the
    register, verify, login, logout and current-user handlers as transitions of
    the store together with a session table from session token to the user id
    that `serializeUser` stores. Randomness, the clock, scrypt and the mailer's
    outcome are parameters of the handlers. */
module Auth {
  import opened Wrappers
  import opened Hex
  import opened Email
  import opened Passwords
  import opened Storage
  import opened Http
  import opened ServerLog

  const InvalidCredentials := "Invalid email or password"
  const VerifyFirst := "Please verify your email first"
  const MissingCredentials := "Missing credentials"
  const CredentialsFallback := "Invalid credentials"
  const AlreadyRegistered := "Email already registered"
  const RegistrationOk := "Registration successful. Please check your email for verification code."
  const MailFailureMarker := "Email verification failed"
  const SenderIdentityFailure := "Email verification failed: The from address does not match a verified Sender Identity. Please contact support to verify your sender email address in SendGrid."
  const RegistrationFailed := "Registration failed. Please try again later."
  const CodeRequired := "Email and verification code are required"
  const EmailVerified := "Email verified successfully"
  const InvalidCode := "Invalid or expired verification code"

  /** What the LocalStrategy callback reports: a user, a failure message, or an error. */
  datatype LoginOutcome = Accepted(user: User) | Rejected(message: string) | Errored(error: CompareError)

  /** The LocalStrategy callback given what `getUserByEmail` found: unknown email,
      then unverified account, then password comparison, in that order. */
  function Authenticate(kdf: Kdf, found: Option<User>, password: string): LoginOutcome {
    match found
    case None => Rejected(InvalidCredentials)
    case Some(u) =>
      if !u.isVerified then Rejected(VerifyFirst)
      else
        match ComparePasswords(kdf, password, u.password)
        case Failure(e) => Errored(e)
        case Success(same) => if same then Accepted(u) else Rejected(InvalidCredentials)
  }

  /** `info?.message || "Invalid credentials"`. */
  function FailureMessage(message: string): (m: string)
    ensures m != ""
    ensures message != "" ==> m == message
    ensures message == "" ==> m == CredentialsFallback
  {
    if message == "" then CredentialsFallback else message
  }

  const MissingSaltMessage := "The \"salt\" argument must be of type string or an instance of ArrayBuffer, Buffer, TypedArray, or DataView. Received undefined"
  const LengthMismatchMessage := "Input buffers must have the same byte length"

  /** The exception `comparePasswords` raises, as the error handler sees it (Node's
      messages; neither error carries a status). */
  function CompareFailure(e: CompareError): (t: ThrownError)
    ensures ErrorStatus(t) == 500 && Present(t.message)
  {
    var message := match e
      case MissingSalt => MissingSaltMessage
      case LengthMismatch(_, _) => LengthMismatchMessage;
    assert |message| > 0;
    ThrownError(None, None, Some(message))
  }

  predicate Contains(s: string, part: string) {
    exists i :: 0 <= i <= |s| && part <= s[i..]
  }

  /** The reply to a registration that created the user, given the mailer's error
      message, if any. */
  function RegisterResponse(mailError: Option<string>): (r: Response)
    ensures r.status == if mailError.None? then 201 else 500
    ensures r.body.MessageBody? && r.body.message != ""
  {
    match mailError
    case None => Response(201, MessageBody(RegistrationOk))
    case Some(m) =>
      if Contains(m, MailFailureMarker) then Response(500, MessageBody(SenderIdentityFailure))
      else Response(500, MessageBody(RegistrationFailed))
  }

  /** The user `register` leaves in the store: new, unverified, holding its code. */
  function RegisteredUser(id: nat, email: string, username: string, stored: string, code: string, expiry: int): User {
    NewUser(id, email, username, stored).(verificationCode := Some(code), verificationExpiry := Some(expiry))
  }

  /** What the session stores for a user (corrected; see `SerializeUserAsWritten`). */
  function SerializeUser(u: User): nat {
    u.id
  }

  /** `serializeUser` as written: `user._id?.toString() || user.id?.toString()`. A
      record made by `createUser` has no `_id`, so this is the id as a decimal string. */
  function SerializeUserAsWritten(u: User): JsKey {
    Str(Decimal(u.id))
  }

  /** Creating a user for a fresh email and then giving it its code leaves exactly the
      registered user at the new id, and emails stay unique. */
  lemma RegisterStep(users: Users, bound: nat, email: string, username: string, stored: string, code: string, expiry: int)
    requires UsersWellFormed(users, bound) && EmailsUnique(users)
    requires FindByEmail(users, bound, email).None?
    ensures var created := users[bound := NewUser(bound, email, username, stored)];
      && WithCode(created, bound + 1, email, code, expiry) == users[bound := RegisteredUser(bound, email, username, stored, code, expiry)]
      && EmailsUnique(users[bound := RegisteredUser(bound, email, username, stored, code, expiry)])
  {
    FindAfterCreate(users, NewUser(bound, email, username, stored), email, 1, bound);
  }

  /** Registered emails are unique: `register` refuses an email already in use. */
  ghost predicate EmailsUnique(users: Users) {
    forall i, j | i in users && j in users && users[i].email == users[j].email :: i == j
  }

  class AuthServer {
    const store: MemStorage
    var sessions: map<string, nat>

    ghost predicate Valid()
      reads this, store
    {
      && store.Valid()
      && EmailsUnique(store.users)
      && (forall token | token in sessions :: sessions[token] in store.users)
    }

    constructor (store: MemStorage)
      requires store.Valid() && EmailsUnique(store.users)
      ensures Valid() && this.store == store && sessions == map[]
    {
      this.store := store;
      sessions := map[];
    }

    /** The user a session token stands for, for the route guards. */
    function SessionUser(token: string): (r: Option<User>)
      reads this, store
      requires Valid()
      ensures r.Some? <==> token in sessions
      ensures r.Some? ==> r.value.id == sessions[token]
      ensures r.Some? ==> r.value.id in store.users && store.users[r.value.id] == r.value
    {
      if token in sessions then Some(store.users[sessions[token]]) else None
    }

    /** POST /api/register. */
    method Register(kdf: Kdf, email: string, username: string, password: string,
                    codeRandom: seq<byte>, saltRandom: seq<byte>, now: int, mailError: Option<string>)
      returns (res: Response)
      requires Valid()
      requires |codeRandom| == CodeBytes && |saltRandom| == SaltBytes
      modifies store
      ensures Valid()
      ensures sessions == old(sessions)
      ensures store.conversations == old(store.conversations)
      ensures store.currentConversationId == old(store.currentConversationId)
      ensures UserByEmail(old(store.users), old(store.currentUserId), email).Some? ==>
        && res == Response(400, MessageBody(AlreadyRegistered))
        && store.users == old(store.users) && store.currentUserId == old(store.currentUserId)
      ensures UserByEmail(old(store.users), old(store.currentUserId), email).None? ==>
        && store.users == AfterRegister(old(store.users), old(store.currentUserId), kdf, email, username, password,
                                        GenerateVerificationCode(codeRandom), now, saltRandom)
        && store.currentUserId == old(store.currentUserId) + 1
        && res == RegisterResponse(mailError)
    {
      var existing := store.GetUserByEmail(email);
      if existing.Some? {
        return Response(400, MessageBody(AlreadyRegistered));
      }
      var code := GenerateVerificationCode(codeRandom);
      var expiry := VerificationExpiry(now);
      ghost var users0, bound0 := store.users, store.currentUserId;
      var stored := HashPassword(kdf, password, saltRandom);
      RegisterStep(users0, bound0, email, username, stored, code, expiry);
      var user := store.CreateUser(email, username, stored);
      store.UpdateVerificationCode(user.email, code, expiry);
      // The mail is sent after the user is stored; a failure does not remove the user.
      res := RegisterResponse(mailError);
    }

    /** POST /api/verify with the clock reading `now`; `token` is the requester's session. */
    method Verify(email: Option<string>, code: Option<string>, now: int, token: string) returns (res: Response)
      requires Valid()
      modifies this, store
      ensures Valid()
      ensures store.conversations == old(store.conversations)
      ensures store.currentUserId == old(store.currentUserId)
      ensures store.currentConversationId == old(store.currentConversationId)
      ensures !Present(email) || !Present(code) ==>
        res == Response(400, MessageBody(CodeRequired)) && store.users == old(store.users) && sessions == old(sessions)
      ensures Present(email) && Present(code) ==>
        var v := VerifyStep(old(store.users), old(store.currentUserId), email.value, code.value, now);
        && store.users == v.users
        && (v.ok ==>
              && res == Response(200, MessageBody(EmailVerified))
              && sessions == old(sessions)[token := FindByEmail(old(store.users), old(store.currentUserId), email.value).value])
        && (!v.ok ==> res == Response(400, MessageBody(InvalidCode)) && sessions == old(sessions))
    {
      if !Present(email) || !Present(code) {
        return Response(400, MessageBody(CodeRequired));
      }
      ghost var users0 := store.users;
      var ok := store.VerifyUser(email.value, code.value, now);
      FirstWithEmailSameEmails(users0, store.users, email.value, 1, store.currentUserId);
      if ok {
        var user := store.GetUserByEmail(email.value);
        // A successful verification found this user, and it kept its email.
        assert user.Some?;
        sessions := sessions[token := SerializeUser(user.value)];
        res := Response(200, MessageBody(EmailVerified));
      } else {
        res := Response(400, MessageBody(InvalidCode));
      }
    }

    /** POST /api/login (passport-local with `usernameField: 'email'`). */
    method Login(kdf: Kdf, email: Option<string>, password: Option<string>, token: string) returns (res: Response)
      requires Valid()
      modifies this
      ensures Valid()
      ensures !Present(email) || !Present(password) ==>
        res == Response(401, MessageBody(MissingCredentials)) && sessions == old(sessions)
      ensures Present(email) && Present(password) ==>
        match Authenticate(kdf, UserByEmail(store.users, store.currentUserId, email.value), password.value)
        case Accepted(u) => res == Response(200, UserBody(u)) && sessions == old(sessions)[token := u.id]
        case Rejected(m) => res == Response(401, MessageBody(FailureMessage(m))) && sessions == old(sessions)
        case Errored(e) => res == ErrorResponse(CompareFailure(e)) && sessions == old(sessions)
    {
      if !Present(email) || !Present(password) {
        return Response(401, MessageBody(MissingCredentials));
      }
      var found := store.GetUserByEmail(email.value);
      var outcome := Authenticate(kdf, found, password.value);
      match outcome
      case Accepted(u) =>
        sessions := sessions[token := SerializeUser(u)];
        res := Response(200, UserBody(u));
      case Rejected(m) =>
        res := Response(401, MessageBody(FailureMessage(m)));
      case Errored(e) =>
        res := ErrorResponse(CompareFailure(e));
    }

    /** POST /api/logout: the session no longer stands for a user; logging out twice is fine. */
    method Logout(token: string) returns (res: Response)
      requires Valid()
      modifies this
      ensures Valid()
      ensures sessions == old(sessions) - {token}
      ensures res == Ok
    {
      sessions := sessions - {token};
      res := Ok;
    }

    /** GET /api/user: the session's user, or 401 without a session. */
    method CurrentUser(token: string) returns (res: Response)
      requires Valid()
      ensures token !in sessions ==> res == Unauthorized
      ensures token in sessions ==> res == Response(200, UserBody(store.users[sessions[token]]))
      ensures res.status == 200 ==> res.body.UserBody? && token in sessions && res.body.user.id == sessions[token]
    {
      if token !in sessions {
        return Unauthorized;
      }
      // `deserializeUser`: look the stored id up under the numeric key.
      var user := store.GetUser(Num(sessions[token]));
      if user.None? {
        return Unauthorized;
      }
      res := Response(200, UserBody(user.value));
    }
  }

  /** An unverified account never logs in, whatever the password. */
  lemma UnverifiedNeverLogsIn(kdf: Kdf, u: User, password: string)
    requires !u.isVerified
    ensures Authenticate(kdf, Some(u), password) == Rejected(VerifyFirst)
  {
  }

  /** Login succeeds exactly when the user exists, is verified and the password compares equal. */
  lemma LoginAcceptedIff(kdf: Kdf, found: Option<User>, password: string)
    ensures Authenticate(kdf, found, password).Accepted?
      <==> found.Some? && found.value.isVerified && ComparePasswords(kdf, password, found.value.password) == Success(true)
    ensures Authenticate(kdf, found, password).Accepted? ==> Authenticate(kdf, found, password).user == found.value
  {
  }

  /** An unknown email and a wrong password are told apart by nothing. */
  lemma UnknownEmailLooksLikeWrongPassword(kdf: Kdf, u: User, password: string)
    requires u.isVerified && ComparePasswords(kdf, password, u.password) == Success(false)
    ensures Authenticate(kdf, None, password) == Authenticate(kdf, Some(u), password) == Rejected(InvalidCredentials)
  {
  }

  /** Against a password stored by `hashPassword`, a verified user is let in exactly when
      the KDF agrees, and the comparison never throws. */
  lemma LoginAgainstStoredHash(kdf: Kdf, u: User, password: string, original: string, random: seq<byte>)
    requires ValidKdf(kdf) && |random| == SaltBytes
    requires u.isVerified && u.password == HashPassword(kdf, original, random)
    ensures !Authenticate(kdf, Some(u), password).Errored?
    ensures Authenticate(kdf, Some(u), password).Accepted?
      <==> kdf(password, ToHex(random)) == kdf(original, ToHex(random))
    ensures password == original ==> Authenticate(kdf, Some(u), password) == Accepted(u)
  {
    CompareAgainstHash(kdf, password, original, random);
  }

  /** The users right after a successful registration of a fresh email. */
  function AfterRegister(users: Users, bound: nat, kdf: Kdf, email: string, username: string, password: string,
                         code: string, issuedAt: int, random: seq<byte>): Users
    requires |random| == SaltBytes
  {
    users[bound := RegisteredUser(bound, email, username, HashPassword(kdf, password, random), code, VerificationExpiry(issuedAt))]
  }

  /** A freshly registered account is the one found by its email, and it cannot log in. */
  lemma NewAccountCannotLogIn(users: Users, bound: nat, kdf: Kdf, email: string, username: string, password: string,
                              code: string, issuedAt: int, random: seq<byte>, attempt: string)
    requires UsersWellFormed(users, bound) && |random| == SaltBytes
    requires FindByEmail(users, bound, email).None?
    ensures var after := AfterRegister(users, bound, kdf, email, username, password, code, issuedAt, random);
      && FindByEmail(after, bound + 1, email) == Some(bound)
      && Authenticate(kdf, UserByEmail(after, bound + 1, email), attempt) == Rejected(VerifyFirst)
  {
    var after := AfterRegister(users, bound, kdf, email, username, password, code, issuedAt, random);
    FindAfterCreate(users, after[bound], email, 1, bound);
  }

  /** The issued code is accepted at times before its expiry, ten minutes after issue,
      and rejected from the expiry on. */
  lemma CodeAcceptedWithinWindow(users: Users, bound: nat, email: string, code: string, issuedAt: int, now: int)
    requires FindByEmail(users, bound, email).Some?
    ensures VerifyStep(WithCode(users, bound, email, code, VerificationExpiry(issuedAt)), bound, email, code, now).ok
      <==> now < issuedAt + ExpiryWindowMs
  {
    LatestCodeOnly(users, bound, email, code, VerificationExpiry(issuedAt), code, now);
  }

  /** The account lifecycle: register, verify with the mailed code before it expires,
      then log in with the registered password. */
  lemma RegisterVerifyLogin(users: Users, bound: nat, kdf: Kdf, email: string, username: string, password: string,
                            random: seq<byte>, codeRandom: seq<byte>, issuedAt: int, now: int)
    requires UsersWellFormed(users, bound) && ValidKdf(kdf)
    requires |random| == SaltBytes && |codeRandom| == CodeBytes
    requires FindByEmail(users, bound, email).None?
    requires now < issuedAt + ExpiryWindowMs
    ensures var code := GenerateVerificationCode(codeRandom);
      var after := AfterRegister(users, bound, kdf, email, username, password, code, issuedAt, random);
      var v := VerifyStep(after, bound + 1, email, code, now);
      && v.ok
      && v.users[bound].isVerified
      && Authenticate(kdf, UserByEmail(v.users, bound + 1, email), password) == Accepted(v.users[bound])
  {
    var code := GenerateVerificationCode(codeRandom);
    var after := AfterRegister(users, bound, kdf, email, username, password, code, issuedAt, random);
    FindAfterCreate(users, after[bound], email, 1, bound);
    var v := VerifyStep(after, bound + 1, email, code, now);
    FirstWithEmailSameEmails(after, v.users, email, 1, bound + 1);
    LoginAgainstStoredHash(kdf, v.users[bound], password, password, random);
  }

  /** As written, the session stores a string, and `getUser` never finds a user under
      a string key: the next request's session resolves to nobody. */
  lemma SessionLostAsWritten(users: Users, bound: nat, u: User)
    requires UsersWellFormed(users, bound) && u.id in users
    ensures UserAt(users, Num(u.id)) == Some(users[u.id])
    ensures UserAt(users, SerializeUserAsWritten(u)) == None
  {
  }

  /** Storing the numeric id makes the session resolve to exactly the logged-in user. */
  lemma SessionResolves(users: Users, bound: nat, u: User)
    requires UsersWellFormed(users, bound) && u.id in users && users[u.id] == u
    ensures UserAt(users, Num(SerializeUser(u))) == Some(u)
  {
  }
}
