# CyberChat accounts and conversation store, modelled in Dafny

CyberChat is a chat web application. Users register with an email address, confirm the address
with a six-character code that is mailed to them, log in, and then chat with a chatbot. The
server keeps users and each user's chat history in memory (`MemStorage`) and tracks logins with
session cookies. This project models that core as a sequential state machine and proves its
properties:

- **Hex**: bytes and their text encodings, as Node's `Buffer` writes them (`toString("hex")`) and
  reads them (`Buffer.from(s, "hex")`), plus ASCII upper-casing and decimal rendering.
- **Email** (server/email.ts): the verification code is three random bytes written as upper-case
  hex. The code expires ten minutes after it is issued.
- **Passwords** (server/auth.ts): the stored form `hex(scrypt(password, salt)) + "." + salt` and
  the comparison against it. scrypt is an arbitrary deterministic function `kdf`.
- **Storage** (server/storage.ts): the `MemStorage` class. It has a user map, a conversation map
  and two id counters. Each method states the new state, and pure transition functions
  (`WithCode`, `VerifyStep`, `Appended`) carry the lemmas that relate several calls.
- **Http**: the responses the handlers send.
- **ServerLog** (server/index.ts): how a log line is truncated, and the error handler's fallback
  for status and message.
- **Auth** (server/auth.ts): the login decision, and the register, verify, login, logout and
  current-user handlers. They are methods of `AuthServer`, which holds the store and the session
  table. The session table maps a session token to the user id that `serializeUser` stores.
- **Routes** (server/routes.ts): the history and chat endpoints and their guards.
- **AuthForms** (client/src/pages/auth-page.tsx): the login, register and verify form schemas,
  written as predicates.
- **Scenario**: client methods that run the handlers' contracts through a session: register,
  a wrong code, a login refused before verification, verification, login, chat, history, and a
  second account whose history stays empty.

The model takes these as parameters: the clock (`now`, as milliseconds since the epoch), the
random bytes, scrypt, the mailer's outcome (`mailError`), the chatbot's reply (`reply`) and the
session token of the request.

Properties proved include:

- codes are single-use;
- only the latest code is accepted;
- a code is accepted exactly while `now < issue + 10 min`;
- an unverified account never logs in;
- an unknown email and a wrong password get the same answer;
- `comparePasswords(p, hashPassword(p))` holds;
- registered emails stay unique;
- user and conversation ids are fresh;
- each chat appends exactly one turn, to the requester's history only.

Four behaviours of the code a reader may not expect:

- `comparePasswords` throws on a stored form that has no "." or whose digest has the wrong
  length. It does not return false. At login this becomes a 500 from the error handler.
- A successful login and `/api/user` send back the whole user record. That record includes the
  password hash and the verification fields.
- `/api/chat` rejects only a missing or empty message. A message made only of spaces is accepted.
- The store accepts a code at any time before its expiry. It never checks that the time is after
  the code was issued.

## Model

| member | source | states |
|---|---|---|
| `Hex.ToHex` | server/auth.ts:20-22 | `toString("hex")`: two lower-case hex digits per byte. That parsing undoes it is `Hex.FromHexToHex`. |
| `Hex.FromHex` | server/auth.ts:27 | `Buffer.from(s, "hex")`: at most one byte per two characters. The contract gives only this length bound; that it undoes `ToHex` is `Hex.FromHexToHex`. |
| `Hex.ToUpper` | server/email.ts:28 | `toUpperCase`: same length, each character upper-cased in place. |
| `Hex.FromHexToHex` | server/auth.ts:22-27 | Parsing `buf.toString("hex")` with `Buffer.from(.., "hex")` gives back `buf`. |
| `Hex.FromHexUpperToHex` | server/email.ts:28 | Hex parsing undoes hex encoding even after the encoding is upper-cased. |
| `Hex.Decimal` | server/auth.ts:72 | A natural's decimal rendering is a non-empty string of digits, without a leading zero, whose value (`DigitsValue`) is the natural. |
| `Email.GenerateVerificationCode` | server/email.ts:27-29 | The code has exactly 6 characters, each in `0-9A-F`. |
| `Email.DecodeGenerated` | server/email.ts:28 | Decoding the code's hex gives back the 3 random bytes. |
| `Email.GenerateInjective` | server/email.ts:28 | Different random bytes give different codes. |
| `Email.VerificationExpiry` | server/email.ts:31-35 | The expiry is strictly later than the issue time; `Auth.CodeAcceptedWithinWindow` pins the window at ten minutes. |
| `Passwords.IndexOf` | server/auth.ts:26 | Returns the position of the first separator. |
| `Passwords.Split` | server/auth.ts:26 | `split(".")` gives at least one piece, and a single one exactly when there is no ".". No piece contains ".", and joining the pieces with "." (`Join`) gives back the input. |
| `Passwords.ComparePasswords` | server/auth.ts:25-30 | Without "." in the stored form it fails with `MissingSalt`. With one, it compares the hex-decoded first piece with the KDF of the supplied password under the second piece: when their lengths agree the answer is whether they are equal, otherwise it fails with `LengthMismatch` carrying both lengths. |
| `Passwords.HashPassword` | server/auth.ts:19-23 | The stored form is twice the digest length, then a ".", then the 32-digit salt. Its split is proved in `Passwords.HashPasswordFormat`. |
| `Passwords.HashPasswordFormat` | server/auth.ts:19-23 | The stored form splits at "." into exactly two parts: the 128-digit lower-case hex of `kdf(password, salt)`, then the 32-digit lower-case hex salt. |
| `Passwords.CompareAgainstHash` | server/auth.ts:19-30 | Comparing any password against a stored form never throws. It is true exactly when the KDF gives the same digest under that salt. |
| `Passwords.HashThenCompare` | server/auth.ts:19-30 | `comparePasswords(p, hashPassword(p))` is true. |
| `Passwords.DigestIsNotPlaintext` | server/auth.ts:21-22 | The digest part is never the plaintext, unless the plaintext is itself a 128-digit hex string. |
| `Storage.FirstWithEmail` | server/storage.ts:41-45 | Returns the lowest id in the range whose user has the email, or none if no user in the range has it. |
| `Storage.UserByEmail` | server/storage.ts:41-45 | Finds a record exactly when an id is found; the record is the one stored under that id and has the email searched for. |
| `Storage.VerifyStep` | server/storage.ts:62-78 | Definition of the `verifyUser` transition; `Storage.MemStorage.VerifyUser` ensures it, and `Storage.CodesAreSingleUse` and `Storage.LatestCodeOnly` state its properties. |
| `Storage.WithCode` | server/storage.ts:80-87 | Only the user found by email gets the new code and expiry. The map's keys and every other user are unchanged. |
| `Storage.Appended` | server/storage.ts:101-103 | The turn is added at the end of its owner's list. Every other owner's list is unchanged. |
| `Storage.MemStorage.constructor` | server/storage.ts:27-35 | A new store is empty and both counters start at 1. |
| `Storage.MemStorage.GetUser` | server/storage.ts:37-39 | Returns the record stored under exactly that key. The only key that finds a user is that user's numeric id. |
| `Storage.MemStorage.GetUserByEmail` | server/storage.ts:41-45 | Returns the first user in insertion order (ascending id) with that email, or none if no user has it. |
| `Storage.MemStorage.CreateUser` | server/storage.ts:47-60 | The new user's id is the old counter, greater than every existing id. The counter is incremented. The user is unverified, with no code and no expiry. No other user and no conversation changes. |
| `Storage.MemStorage.VerifyUser` | server/storage.ts:62-78 | True iff the user with that email exists, the code equals its stored code and `now` is strictly before the stored expiry. When true, that user is verified and its code and expiry are cleared. When false, nothing changes. |
| `Storage.MemStorage.UpdateVerificationCode` | server/storage.ts:80-87 | Overwrites the code and expiry of the user found by email and nobody else's. Does nothing when no user has the email. |
| `Storage.MemStorage.GetConversations` | server/storage.ts:89-91 | Returns the list saved under the key, or `[]` if nothing is saved there. |
| `Storage.MemStorage.SaveConversation` | server/storage.ts:93-106 | The turn's id is the old counter, which no saved turn has. The turn is appended to its owner's list only, and users are unchanged. |
| `Storage.CodesAreSingleUse` | server/storage.ts:71-73 | After a successful verification, every later attempt for that email fails with any code at any time, changes nothing, and leaves the user verified. |
| `Storage.LatestCodeOnly` | server/storage.ts:80-87 | After a code update, verification succeeds iff the email is known, the submitted code is the latest one, and `now` is before its expiry. |
| `Storage.FindAfterCreate` | server/storage.ts:47-58 | A new user leaves every earlier email lookup unchanged. It is found by its email when no earlier user had that email. |
| `ServerLog.Truncate` | server/index.ts:28-30 | A line of at most 80 characters is unchanged. A longer line becomes its first 79 characters followed by "…", 80 in all. |
| `ServerLog.TruncateIdempotent` | server/index.ts:28-30 | Truncating twice is the same as truncating once. |
| `ServerLog.FullLogLine` | server/index.ts:23-26 | The line starts with the method, the path, the status and " in ", and ends with the captured JSON when there is one. |
| `ServerLog.LogLine` | server/index.ts:22-30 | Only paths starting with "/api" are logged. The logged line is at most 80 characters and keeps the start of the full line. |
| `ServerLog.ErrorStatus` | server/index.ts:49 | The status is `err.status` if truthy, otherwise `err.statusCode` if truthy, otherwise 500. It is never 0. |
| `ServerLog.ErrorMessage` | server/index.ts:50 | The message is `err.message` if non-empty, otherwise "Internal Server Error". |
| `ServerLog.ErrorResponse` | server/index.ts:48-52 | The reply never has status 0 and always has a non-empty `{message}`. A truthy `status`, else a truthy `statusCode`, comes through, and without either the status is 500. A non-empty `message` comes through, and without one the message is "Internal Server Error". The two fallbacks are independent. |
| `Auth.Authenticate` | server/auth.ts:48-67 | Definition of the strategy's ordered decision (unknown email, then unverified, then password, a thrown comparison as an error). Its properties are in `Auth.LoginAcceptedIff`, `Auth.UnverifiedNeverLogsIn` and `Auth.UnknownEmailLooksLikeWrongPassword`. |
| `Auth.CompareFailure` | server/auth.ts:26-29 | What a throwing comparison raises: an error with a non-empty message and no status, so the error handler answers 500. |
| `Auth.SerializeUser` | server/auth.ts:72 | Corrected serialisation: the numeric id. Its property is `Auth.SessionResolves`. |
| `Auth.SerializeUserAsWritten` | server/auth.ts:72 | As written: the id as a decimal string. Its property is `Auth.SessionLostAsWritten`. |
| `Auth.FailureMessage` | server/auth.ts:149 | The failure message is never empty. A non-empty strategy message is passed through unchanged, and without one the message is "Invalid credentials". |
| `Auth.RegisterResponse` | server/auth.ts:100-114 | The reply is 201 when the mail was sent and 500 when sending failed, always with a non-empty `{message}`. |
| `Auth.AuthServer.constructor` | server/auth.ts:32-43 | The server starts with no sessions. |
| `Auth.AuthServer.SessionUser` | server/auth.ts:75-82 | A token resolves to a user exactly when it has a session, and the user is the stored record whose id the session holds. |
| `Auth.AuthServer.Register` | server/auth.ts:84-115 | An email already registered gets 400 and creates no user. Otherwise exactly one new unverified user is stored, with the hashed password, the issued code and an expiry of issue + 10 min, and the response is 201, or 500 when mailing fails; the user is not rolled back. |
| `Auth.AuthServer.Verify` | server/auth.ts:117-143 | A missing or empty email or code gets 400 and changes nothing. Otherwise the store makes exactly the `verifyUser` transition. A valid code gets 200 and binds the session to that user; an invalid or expired code gets 400 "Invalid or expired verification code" and no session. |
| `Auth.AuthServer.Login` | server/auth.ts:145-156 | Missing fields get 401 "Missing credentials". Otherwise the strategy's decision is applied: acceptance binds the session and returns the user; a rejection gets 401 with its message; a comparison error becomes the error handler's response. |
| `Auth.AuthServer.Logout` | server/auth.ts:158-163 | The token's session is removed, and the reply is 200. Logging out again is harmless. |
| `Auth.AuthServer.CurrentUser` | server/auth.ts:165-168 | Without a session the reply is 401. Otherwise it is 200 with the session's user. |
| `Auth.UnverifiedNeverLogsIn` | server/auth.ts:55-57 | An unverified account is refused with "Please verify your email first", whatever the password. |
| `Auth.LoginAcceptedIff` | server/auth.ts:48-63 | Login is accepted iff the user exists, is verified and the password compares true, and the accepted user is the one found. |
| `Auth.UnknownEmailLooksLikeWrongPassword` | server/auth.ts:51-61 | An unknown email and a wrong password get the same rejection, "Invalid email or password". |
| `Auth.LoginAgainstStoredHash` | server/auth.ts:59-63 | For a verified user whose password was stored by `hashPassword`, login never errors. It is accepted exactly when the KDF agrees, and always with the original password. |
| `Auth.RegisterStep` | server/auth.ts:94-99 | For an email nobody has, `createUser` followed by `updateVerificationCode` leaves exactly the registered user, holding its code and expiry, at the new id, and emails stay unique. |
| `Auth.NewAccountCannotLogIn` | server/auth.ts:84-100 | After registration the new account is the one found by its email, and every login attempt is refused with "Please verify your email first". |
| `Auth.CodeAcceptedWithinWindow` | server/email.ts:31-35 | The issued code is accepted iff `now` is before issue + 10 min, because the store's check at server/storage.ts:66-68 is strict. |
| `Auth.RegisterVerifyLogin` | server/auth.ts:84-156 | Register, then verify with the mailed code before it expires, then log in with the registered password: verification succeeds and the login accepts the now-verified user. |
| `Auth.SessionLostAsWritten` | server/auth.ts:71-80 | As written, the session stores a decimal string that `getUser`'s numeric map never finds, although the numeric id would find the user. |
| `Auth.SessionResolves` | server/auth.ts:71-80 | Storing the numeric id makes the session resolve to exactly the logged-in user. |
| `Routes.ConversationKey` | server/routes.ts:22-37 | Corrected history key: the user's numeric id. Its property is `Routes.ChatIsolated`. |
| `Routes.ConversationKeyAsWritten` | server/routes.ts:22-37 | As written: `req.user._id`, which is `undefined` for every user. Its property is `Routes.ChatSharedAsWritten`. |
| `Routes.TopicsOrEmpty` | server/routes.ts:40 | Definition of `response.suggestedTopics \|\| []`; `Routes.Chat` ensures the saved turn carries it. |
| `Routes.ListConversations` | server/routes.ts:20-24 | Without a session the reply is 401. Otherwise it is 200 with exactly the stored history under the requester's id. |
| `Routes.Chat` | server/routes.ts:27-48 | Without a session the reply is 401; a missing or empty message gets 400 "Message is required"; a generator failure gets 500 (an exception from `generateChatResponse`; see "## Left out" for why OpenAI errors do not take this path). None of these saves anything. Otherwise exactly one turn goes at the end of the requester's history, with `message`, `reply.content` and the suggested topics (`[]` when the reply has none), and the reply is 200 with the generator's answer. |
| `Routes.ChatIsolated` | server/routes.ts:36-41 | When two users have different ids, one user's chat leaves the other's history unchanged and adds exactly one turn to its own. |
| `Routes.ChatSharedAsWritten` | server/routes.ts:22-37 | As written, save and read both use the key `req.user._id`. It is undefined for every user, so each user's turn appears in every other user's history. |
| `Routes.ChatLeakExample` | server/routes.ts:22-37 | A concrete case: with users 1 and 2, user 1 says "hi", and as written user 2 reads that turn. Corrected, user 2 reads nothing. |
| `AuthForms.LoginPasswordValid` | client/src/pages/auth-page.tsx:18 | Definition: at least 6 characters. |
| `AuthForms.UsernameValid` | client/src/pages/auth-page.tsx:23 | Definition: at least 3 characters. |
| `AuthForms.RegisterPasswordValid` | client/src/pages/auth-page.tsx:24-27 | Definition of the length check and the three lookaheads on `FirstLine`. Its meaning is in `AuthForms.RegisterPasswordOneLine` and `AuthForms.RegisterPasswordLineBreak`. |
| `AuthForms.CodeValid` | client/src/pages/auth-page.tsx:31 | Definition: exactly `Email.CodeLength` (6) characters. |
| `AuthForms.LoginFormValid` | client/src/pages/auth-page.tsx:16-19 | Definition of the login schema. Its relation to registration is `AuthForms.RegisterFormImpliesLoginForm`. |
| `AuthForms.RegisterFormValid` | client/src/pages/auth-page.tsx:21-28 | Definition of the register schema. Its relation to login is `AuthForms.RegisterFormImpliesLoginForm`. |
| `AuthForms.VerifyFormValid` | client/src/pages/auth-page.tsx:30-32 | Definition of the verify schema. That issued codes pass it is `AuthForms.IssuedCodePassesVerifyForm`. |
| `AuthForms.FirstLine` | client/src/pages/auth-page.tsx:26 | The part of the password that the regex lookaheads can see: the longest prefix without a line break. |
| `AuthForms.RegisterPasswordIsLoginPassword` | client/src/pages/auth-page.tsx:18-27 | Every password the register form accepts, the login form accepts too. |
| `AuthForms.RegisterFormImpliesLoginForm` | client/src/pages/auth-page.tsx:16-28 | Every registration form the schema accepts holds an email and password that the login form accepts. |
| `AuthForms.IssuedCodePassesVerifyForm` | client/src/pages/auth-page.tsx:30-32 | Every code the server issues passes the 6-character check. |
| `AuthForms.RegisterPasswordOneLine` | client/src/pages/auth-page.tsx:24-27 | On a password without line breaks, the schema holds iff the length is at least 6 and there is a lower-case letter, an upper-case letter and a digit. |
| `AuthForms.RegisterPasswordLineBreak` | client/src/pages/auth-page.tsx:26 | A line break hides what follows it from the lookaheads, so "abcdef\nA1" is rejected. |

## Left out

- Sending mail (server/email.ts:4-25) is I/O. `Register` takes its outcome as `mailError`.
- The OpenAI call (server/openai.ts) is I/O. `Chat` takes its outcome as `reply`, and a failure
  stands for an exception.
- `generateChatResponse` catches every OpenAI error itself (server/openai.ts:68-85). It returns the
  error text as an ordinary reply. So a failed OpenAI call (quota, bad key, network) reaches
  `/api/chat` as a `reply`: the answer is 200 and the turn is saved. This generator never reaches
  the 500 branch at server/routes.ts:44-46; the model keeps that branch for a thrown exception.
- scrypt, `randomBytes` and `timingSafeEqual` are parameters (`kdf` and the byte sequences).
  Constant-time comparison, that is timing behaviour, is not modelled.
- The clock is a parameter. For `getVerificationExpiry`, `setMinutes` on the local time is
  modelled as adding 600000 ms. A daylight-saving change inside those ten minutes is not
  modelled.
- passport, express-session and memorystore internals are not modelled. The session token is a
  parameter, and `AuthServer.sessions` stands for the session store. Passport's regeneration of
  the session id on login and logout is not modelled. The 500 replies after a failed `req.login`
  (server/auth.ts:130-133) and the catch-all 500 of `/api/verify` (server/auth.ts:140-142) are
  not modelled either: the in-memory store never throws, and a failure of the session store is
  outside the model.
- Passport-local's "Missing credentials" answer is modelled as 401 with that message. Its other
  internals are not.
- The rate limiter (server/routes.ts:12-17), Vite/static serving, `listen`, and the rethrow after
  the error response (server/index.ts:53) are library plumbing and are not modelled.
- In the logger, the wrapping of `res.json` is not modelled. The captured body is a parameter
  that already holds its `JSON.stringify` text.
- Request bodies are modelled as strings, or `Option<string>` where the handler tests for
  presence. JSON values that are not strings, and extra fields that `...req.body` copies into the
  user record, are not modelled.
- Lengths count Unicode scalar values, not UTF-16 code units. This affects `Truncate` (its
  `slice` could split a surrogate pair) and the zod length checks for characters outside the
  Basic Multilingual Plane.
- `ToUpper` upper-cases ASCII only. `toUpperCase` is applied only to hex digits, so nothing
  changes.
- zod's `.email()` is the abstract predicate `isEmail`.
- Concurrent requests are not modelled; every operation is atomic and sequential.
- The MFA fields are stored as `createUser` sets them (off, no secret); nothing reads them.

## Findings

| source | as written | input that shows it | evidently intended | confidence | as-written member | corrected member |
|---|---|---|---|---|---|---|
| server/routes.ts:22 | Conversations are saved and listed under `req.user._id`. A `MemStorage` user has only a numeric `id`, so every user's key is `undefined`. | Latent: with the server/auth.ts:72 finding in place no request after login reaches the route code authenticated (401 or 500, see the server/auth.ts:72 row). Once sessions resolve: users 1 and 2; user 1 posts "hi" to `/api/chat`; user 2's `GET /api/conversations` lists user 1's turn. | Key the history by the numeric user id that server/storage.ts:48 assigns. | medium; not executed | `Routes.ChatSharedAsWritten` | `Routes.ChatIsolated` |
| server/auth.ts:72 | `serializeUser` stores `user.id.toString()`, and `deserializeUser` passes that string to `getUser`. `getUser` looks it up in a map with numeric keys and finds nothing. | Log in as user 1, then request `GET /api/user` with the new session cookie: `getUser("1")` finds no user and `deserializeUser` hands passport `undefined`. If passport treats that as a lost session, the reply is 401; if, as its published authenticator does for `undefined`, it raises "Failed to deserialize user out of session", every request with that cookie gets 500 from the error handler at server/index.ts:48-52. Either way the user is not logged in. | The session resolves to the user who logged in. | medium (the status, 401 or 500, depends on passport internals that are not part of this model); not executed | `Auth.SessionLostAsWritten` | `Auth.SessionResolves` |

The rest of the model uses the corrected versions. `Routes.ConversationKey` keys histories by
`Num(id)`, and the session table stores the numeric id (`Auth.SerializeUser`), which
`CurrentUser` looks up with `GetUser(Num(id))`.
