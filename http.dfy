/** The HTTP responses the handlers send: a status code and a JSON or text body. */
module Http {
  import opened Wrappers
  import opened Storage

  /** What the text generator hands back (server/openai.ts), taken as an input. */
  datatype Reply = Reply(content: string, isCyberSecurityRelated: bool, suggestedTopics: Option<seq<string>>)

  datatype Body =
    | StatusText(text: string)            // `res.sendStatus(n)`
    | MessageBody(message: string)        // `{ message }`
    | ErrorBody(error: string)            // `{ error }`
    | UserBody(user: User)                // the user record as JSON
    | HistoryBody(conversations: seq<Conversation>)
    | ReplyBody(reply: Reply)

  datatype Response = Response(status: int, body: Body)

  const Unauthorized: Response := Response(401, StatusText("Unauthorized"))
  const Ok: Response := Response(200, StatusText("OK"))

  /** A request-body field that JavaScript treats as truthy: present and non-empty. */
  predicate Present(field: Option<string>) {
    field.Some? && field.value != ""
  }
}
