/** The chat routes of server/routes.ts: GET /api/conversations and POST /api/chat.
    The text generator's answer is an input (`reply`), a failure being the message
    of what it threw. */
module Routes {
  import opened Wrappers
  import opened Storage
  import opened Http
  import opened Auth

  const MessageRequired := "Message is required"
  const GenerationFailed := "Failed to generate response"

  /** The key a user's turns are saved and read under: the store's numeric id
      (corrected; see `ConversationKeyAsWritten`). */
  function ConversationKey(u: User): JsKey {
    Num(u.id)
  }

  /** The key as written, `req.user._id`: a record made by `createUser` has no `_id`
      field, so every user's key is `undefined`. */
  function ConversationKeyAsWritten(u: User): JsKey {
    Undefined
  }

  /** `response.suggestedTopics || []`. */
  function TopicsOrEmpty(reply: Reply): seq<string> {
    if reply.suggestedTopics.Some? then reply.suggestedTopics.value else []
  }

  /** GET /api/conversations. */
  method ListConversations(server: AuthServer, token: string) returns (res: Response)
    requires server.Valid()
    ensures server.SessionUser(token).None? ==> res == Unauthorized
    ensures server.SessionUser(token).Some? ==>
      res == Response(200, HistoryBody(History(server.store.conversations, ConversationKey(server.SessionUser(token).value))))
  {
    var user := server.SessionUser(token);
    if user.None? {
      return Unauthorized;
    }
    var list := server.store.GetConversations(ConversationKey(user.value));
    res := Response(200, HistoryBody(list));
  }

  /** POST /api/chat at time `now`. */
  method Chat(server: AuthServer, token: string, message: Option<string>, reply: Result<Reply, string>, now: int)
    returns (res: Response)
    requires server.Valid()
    modifies server.store
    ensures server.Valid()
    ensures server.store.users == old(server.store.users)
    ensures server.store.currentUserId == old(server.store.currentUserId)
    ensures server.SessionUser(token).None? ==> res == Unauthorized
    ensures server.SessionUser(token).Some? && !Present(message) ==>
      res == Response(400, ErrorBody(MessageRequired))
    ensures server.SessionUser(token).Some? && Present(message) && reply.Failure? ==>
      res == Response(500, ErrorBody(GenerationFailed))
    ensures !(server.SessionUser(token).Some? && Present(message) && reply.Success?) ==>
      && server.store.conversations == old(server.store.conversations)
      && server.store.currentConversationId == old(server.store.currentConversationId)
    ensures server.SessionUser(token).Some? && Present(message) && reply.Success? ==>
      var key := ConversationKey(server.SessionUser(token).value);
      var turn := Conversation(old(server.store.currentConversationId), key, message.value,
                               reply.value.content, TopicsOrEmpty(reply.value), now);
      && res == Response(200, ReplyBody(reply.value))
      && server.store.conversations == Appended(old(server.store.conversations), key, turn)
      && server.store.currentConversationId == old(server.store.currentConversationId) + 1
  {
    var user := server.SessionUser(token);
    if user.None? {
      return Unauthorized;
    }
    if !Present(message) {
      return Response(400, ErrorBody(MessageRequired));
    }
    if reply.Failure? {
      return Response(500, ErrorBody(GenerationFailed));
    }
    var response := reply.value;
    var _ := server.store.SaveConversation(ConversationKey(user.value), message.value,
                                           response.content, TopicsOrEmpty(response), now);
    res := Response(200, ReplyBody(response));
  }

  /** Chatting as one user leaves every other user's history as it was, and adds
      exactly the new turn at the end of the chatting user's own history. */
  lemma ChatIsolated(histories: Histories, a: User, b: User, turn: Conversation)
    requires a.id != b.id
    ensures History(Appended(histories, ConversationKey(a), turn), ConversationKey(b)) == History(histories, ConversationKey(b))
    ensures History(Appended(histories, ConversationKey(a), turn), ConversationKey(a)) == History(histories, ConversationKey(a)) + [turn]
  {
  }

  /** As written, one user's chat turn shows up in every other user's history. */
  lemma ChatSharedAsWritten(histories: Histories, a: User, b: User, turn: Conversation)
    ensures History(Appended(histories, ConversationKeyAsWritten(a), turn), ConversationKeyAsWritten(b))
      == History(histories, ConversationKeyAsWritten(b)) + [turn]
  {
  }

  /** Concretely: two users with ids 1 and 2 and no history; user 1 says "hi"; as
      written user 2 then reads one turn that user 1 wrote, corrected user 2 reads none. */
  lemma ChatLeakExample()
    ensures var a := NewUser(1, "a@b.com", "alice", "h.s");
      var b := NewUser(2, "c@d.com", "carol", "h.s");
      var turn := Conversation(1, ConversationKeyAsWritten(a), "hi", "hello", [], 0);
      && History(Appended(map[], ConversationKeyAsWritten(a), turn), ConversationKeyAsWritten(b)) == [turn]
      && History(Appended(map[], ConversationKey(a), turn.(userId := ConversationKey(a))), ConversationKey(b)) == []
  {
  }
}
