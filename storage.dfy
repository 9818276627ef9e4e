/** The in-memory credential and conversation store of server/storage.ts
    (`MemStorage`): a map from numeric user id to user record, a map from a
    conversation owner key to that owner's list of turns, and two id counters
    that start at 1 and are post-incremented. */
module Storage {
  import opened Wrappers

  /** A JavaScript value used as a `Map` key: `Map.get` finds an entry only under
      a key of the same type and value, so the number 1, the string "1" and
      `undefined` are three different keys. */
  datatype JsKey = Num(n: nat) | Str(s: string) | Undefined

  /** A user record as `createUser` builds it (server/storage.ts:49-57); times are
      milliseconds since the epoch. */
  datatype User = User(
    id: nat,
    email: string,
    username: string,
    password: string,
    mfaEnabled: bool,
    mfaSecret: Option<string>,
    isVerified: bool,
    verificationCode: Option<string>,
    verificationExpiry: Option<int>)

  /** One saved chat turn; `userId` is whatever key the caller saved it under. */
  datatype Conversation = Conversation(
    id: nat,
    userId: JsKey,
    message: string,
    response: string,
    suggestedTopics: seq<string>,
    timestamp: int)

  type Users = map<nat, User>
  type Histories = map<JsKey, seq<Conversation>>

  /** The ids handed out so far are exactly 1 .. bound-1, each stored under its own id. */
  ghost predicate UsersWellFormed(users: Users, bound: nat) {
    && bound >= 1
    && (forall id: nat :: id in users ==> 1 <= id < bound)
    && (forall id: nat :: 1 <= id < bound ==> id in users)
    && (forall id | id in users :: users[id].id == id)
  }

  /** Every saved conversation has an id below `bound`. */
  ghost predicate ConversationIdsBelow(histories: Histories, bound: nat) {
    forall key, i | key in histories && 0 <= i < |histories[key]| :: histories[key][i].id < bound
  }

  /** The first id in from .. bound-1 whose user has `email`; `Map` iteration runs in
      insertion order, and users are inserted in ascending id order. */
  function FirstWithEmail(users: Users, email: string, from: nat, bound: nat): (r: Option<nat>)
    ensures r.Some? ==> from <= r.value < bound && r.value in users && users[r.value].email == email
    ensures r.Some? ==> forall j :: from <= j < r.value && j in users ==> users[j].email != email
    ensures r.None? ==> forall j :: from <= j < bound && j in users ==> users[j].email != email
    decreases bound - from
  {
    if from >= bound then None
    else if from in users && users[from].email == email then Some(from)
    else FirstWithEmail(users, email, from + 1, bound)
  }

  /** The id `getUserByEmail` finds. */
  function FindByEmail(users: Users, bound: nat, email: string): Option<nat> {
    FirstWithEmail(users, email, 1, bound)
  }

  /** The record `getUserByEmail` returns. */
  function UserByEmail(users: Users, bound: nat, email: string): (r: Option<User>)
    ensures r.Some? <==> FindByEmail(users, bound, email).Some?
    ensures r.Some? ==> r.value.email == email
    ensures r.Some? ==> FindByEmail(users, bound, email).value in users && r.value == users[FindByEmail(users, bound, email).value]
  {
    match FindByEmail(users, bound, email)
    case None => None
    case Some(id) => Some(users[id])
  }

  /** `this.users.get(key)`. */
  function UserAt(users: Users, key: JsKey): Option<User> {
    if key.Num? && key.n in users then Some(users[key.n]) else None
  }

  function NewUser(id: nat, email: string, username: string, password: string): User {
    User(id, email, username, password, false, None, false, None, None)
  }

  /** The test of server/storage.ts:66-68: the stored code equals the submitted one
      and an expiry is set that lies strictly after `now`. */
  predicate CodeAccepted(u: User, code: string, now: int) {
    u.verificationCode == Some(code) && u.verificationExpiry.Some? && now < u.verificationExpiry.value
  }

  /** A user after a successful verification: verified, code and expiry cleared. */
  function Verified(u: User): User {
    u.(isVerified := true, verificationCode := None, verificationExpiry := None)
  }

  /** The users after `updateVerificationCode(email, code, expiry)`: the user found by
      email gets the code and expiry; nobody else changes. */
  function WithCode(users: Users, bound: nat, email: string, code: string, expiry: int): (r: Users)
    ensures r.Keys == users.Keys
    ensures forall id | id in users && Some(id) != FindByEmail(users, bound, email) :: r[id] == users[id]
    ensures FindByEmail(users, bound, email).Some? ==>
      var id := FindByEmail(users, bound, email).value;
      r[id] == users[id].(verificationCode := Some(code), verificationExpiry := Some(expiry))
  {
    match FindByEmail(users, bound, email)
    case None => users
    case Some(id) => users[id := users[id].(verificationCode := Some(code), verificationExpiry := Some(expiry))]
  }

  datatype Verification = Verification(ok: bool, users: Users)

  /** `verifyUser(email, code)` at time `now`: the answer and the users afterwards. */
  function VerifyStep(users: Users, bound: nat, email: string, code: string, now: int): Verification {
    match FindByEmail(users, bound, email)
    case None => Verification(false, users)
    case Some(id) =>
      if CodeAccepted(users[id], code, now) then Verification(true, users[id := Verified(users[id])])
      else Verification(false, users)
  }

  /** `this.conversations.get(key) || []`. */
  function History(histories: Histories, key: JsKey): seq<Conversation> {
    if key in histories then histories[key] else []
  }

  /** The histories after saving `c` under `key`: that list grows by `c` at its end,
      every other list is as it was. */
  function Appended(histories: Histories, key: JsKey, c: Conversation): (r: Histories)
    ensures History(r, key) == History(histories, key) + [c]
    ensures forall other :: other != key ==> History(r, other) == History(histories, other)
    ensures r.Keys == histories.Keys + {key}
  {
    histories[key := History(histories, key) + [c]]
  }

  class MemStorage {
    var users: Users
    var conversations: Histories
    var currentUserId: nat
    var currentConversationId: nat

    ghost predicate Valid()
      reads this
    {
      && currentConversationId >= 1
      && UsersWellFormed(users, currentUserId)
      && ConversationIdsBelow(conversations, currentConversationId)
    }

    constructor ()
      ensures Valid()
      ensures users == map[] && conversations == map[]
      ensures currentUserId == 1 && currentConversationId == 1
    {
      users := map[];
      conversations := map[];
      currentUserId := 1;
      currentConversationId := 1;
    }

    /** `getUser(id)`: the record stored under exactly that key. */
    method GetUser(key: JsKey) returns (r: Option<User>)
      requires Valid()
      ensures r == UserAt(users, key)
      ensures r.Some? ==> key == Num(r.value.id)
    {
      if key.Num? && key.n in users {
        r := Some(users[key.n]);
      } else {
        r := None;
      }
    }

    /** `getUserByEmail(email)`: the first user in insertion order with that email. */
    method GetUserByEmail(email: string) returns (r: Option<User>)
      requires Valid()
      ensures r == UserByEmail(users, currentUserId, email)
      ensures r.Some? ==> r.value.email == email && r.value.id in users && users[r.value.id] == r.value
      ensures r.Some? ==> forall id | id in users && id < r.value.id :: users[id].email != email
      ensures r.None? ==> forall id | id in users :: users[id].email != email
    {
      var id := 1;
      while id < currentUserId
        invariant 1 <= id <= currentUserId
        invariant FindByEmail(users, currentUserId, email) == FirstWithEmail(users, email, id, currentUserId)
      {
        var u := users[id];
        if u.email == email {
          return Some(u);
        }
        id := id + 1;
      }
      return None;
    }

    /** `createUser(insertUser)`: takes the next id, stores a fresh unverified user
      with no code, and advances the counter. */
    method CreateUser(email: string, username: string, password: string) returns (u: User)
      requires Valid()
      modifies this
      ensures Valid()
      ensures u == NewUser(old(currentUserId), email, username, password)
      ensures !u.isVerified && u.verificationCode.None? && u.verificationExpiry.None?
      ensures u.id !in old(users) && forall id | id in old(users) :: id < u.id
      ensures users == old(users)[u.id := u]
      ensures currentUserId == old(currentUserId) + 1
      ensures conversations == old(conversations) && currentConversationId == old(currentConversationId)
    {
      var id := currentUserId;
      currentUserId := currentUserId + 1;
      u := NewUser(id, email, username, password);
      users := users[id := u];
    }

    /** `verifyUser(email, code)` with the clock reading `now`. */
    method VerifyUser(email: string, code: string, now: int) returns (ok: bool)
      requires Valid()
      modifies this
      ensures Valid()
      ensures Verification(ok, users) == VerifyStep(old(users), old(currentUserId), email, code, now)
      ensures ok <==> (var found := UserByEmail(old(users), old(currentUserId), email);
                       found.Some? && CodeAccepted(found.value, code, now))
      ensures ok ==> var u := UserByEmail(old(users), old(currentUserId), email).value;
                     users == old(users)[u.id := Verified(u)]
      ensures !ok ==> users == old(users)
      ensures conversations == old(conversations)
      ensures currentUserId == old(currentUserId) && currentConversationId == old(currentConversationId)
    {
      var found := GetUserByEmail(email);
      if found.None? {
        return false;
      }
      var user := found.value;
      ok := user.verificationCode == Some(code) && user.verificationExpiry.Some? && now < user.verificationExpiry.value;
      if ok {
        user := user.(isVerified := true, verificationCode := None, verificationExpiry := None);
        users := users[user.id := user];
      }
    }

    /** `updateVerificationCode(email, code, expiry)`: overwrites the code and expiry of
      the user found by email; does nothing when no user has that email. */
    method UpdateVerificationCode(email: string, code: string, expiry: int)
      requires Valid()
      modifies this
      ensures Valid()
      ensures users == WithCode(old(users), old(currentUserId), email, code, expiry)
      ensures UserByEmail(old(users), old(currentUserId), email).None? ==> users == old(users)
      ensures conversations == old(conversations)
      ensures currentUserId == old(currentUserId) && currentConversationId == old(currentConversationId)
    {
      var found := GetUserByEmail(email);
      if found.None? {
        return;
      }
      var user := found.value.(verificationCode := Some(code), verificationExpiry := Some(expiry));
      users := users[user.id := user];
    }

    /** `getConversations(userId)`: the list saved under that key, `[]` if none. */
    method GetConversations(key: JsKey) returns (cs: seq<Conversation>)
      ensures cs == History(conversations, key)
      ensures key !in conversations ==> cs == []
    {
      if key in conversations {
        cs := conversations[key];
      } else {
        cs := [];
      }
    }

    /** `saveConversation(conversation)` at time `now`: takes the next conversation id
      and appends the new turn to the end of the list under `key`. */
    method SaveConversation(key: JsKey, message: string, response: string, topics: seq<string>, now: int)
      returns (c: Conversation)
      requires Valid()
      modifies this
      ensures Valid()
      ensures c == Conversation(old(currentConversationId), key, message, response, topics, now)
      ensures ConversationIdsBelow(old(conversations), c.id)
      ensures conversations == Appended(old(conversations), key, c)
      ensures currentConversationId == old(currentConversationId) + 1
      ensures users == old(users) && currentUserId == old(currentUserId)
    {
      var id := currentConversationId;
      currentConversationId := currentConversationId + 1;
      c := Conversation(id, key, message, response, topics, now);
      var list := if key in conversations then conversations[key] else [];
      conversations := conversations[key := list + [c]];
    }
  }

  /** Changing fields other than the email does not change who `getUserByEmail` finds. */
  lemma {:induction false} FirstWithEmailSameEmails(users: Users, users': Users, email: string, from: nat, bound: nat)
    requires users'.Keys == users.Keys
    requires forall id | id in users :: users'[id].email == users[id].email
    ensures FirstWithEmail(users', email, from, bound) == FirstWithEmail(users, email, from, bound)
    decreases bound - from
  {
    if from < bound {
      FirstWithEmailSameEmails(users, users', email, from + 1, bound);
    }
  }

  /** Codes are single-use: once a verification succeeds, every later attempt for that
      email fails, whatever the code and time, changes nothing, and the user stays verified. */
  lemma CodesAreSingleUse(users: Users, bound: nat, email: string, code: string, now: int, code': string, later: int)
    requires VerifyStep(users, bound, email, code, now).ok
    ensures var after := VerifyStep(users, bound, email, code, now).users;
      && !VerifyStep(after, bound, email, code', later).ok
      && VerifyStep(after, bound, email, code', later).users == after
      && UserByEmail(after, bound, email).Some?
      && UserByEmail(after, bound, email).value.isVerified
  {
    var id := FindByEmail(users, bound, email).value;
    var after := VerifyStep(users, bound, email, code, now).users;
    FirstWithEmailSameEmails(users, after, email, 1, bound);
    assert after[id].verificationCode.None?;
  }

  /** Only the latest code counts: after `updateVerificationCode`, verification succeeds
      exactly for that code, before that expiry, and only if a user has the email. */
  lemma LatestCodeOnly(users: Users, bound: nat, email: string, code: string, expiry: int, submitted: string, now: int)
    ensures VerifyStep(WithCode(users, bound, email, code, expiry), bound, email, submitted, now).ok
      <==> FindByEmail(users, bound, email).Some? && submitted == code && now < expiry
  {
    var updated := WithCode(users, bound, email, code, expiry);
    FirstWithEmailSameEmails(users, updated, email, 1, bound);
  }

  /** Creating a user under the next id leaves every earlier email lookup as it was,
      and the new user is found by its email when nobody had it before. */
  lemma {:induction false} FindAfterCreate(users: Users, u: User, email: string, from: nat, bound: nat)
    requires bound !in users
    ensures FirstWithEmail(users[bound := u], email, from, bound + 1)
      == match FirstWithEmail(users, email, from, bound)
         case Some(id) => Some(id)
         case None => if from <= bound && u.email == email then Some(bound) else None
    decreases bound - from
  {
    if from < bound {
      FindAfterCreate(users, u, email, from + 1, bound);
    }
  }
}
