/** The request logger and the error handler of server/index.ts. */
module ServerLog {
  import opened Wrappers
  import opened Hex
  import opened Http

  const LogLimit: nat := 80
  const Ellipsis: char := '…'

  /** `if (logLine.length > 80) logLine = logLine.slice(0, 79) + "…"`. */
  function Truncate(line: string): (r: string)
    ensures |line| <= LogLimit ==> r == line
    ensures |line| > LogLimit ==> |r| == LogLimit && r[..LogLimit - 1] == line[..LogLimit - 1] && r[LogLimit - 1] == Ellipsis
    ensures |r| <= LogLimit
  {
    if |line| > LogLimit then line[..LogLimit - 1] + [Ellipsis] else line
  }

  /** Truncating twice is truncating once. */
  lemma TruncateIdempotent(line: string)
    ensures Truncate(Truncate(line)) == Truncate(line)
  {
  }

  /** The untruncated line `${verb} ${path} ${status} in ${duration}ms`, followed by
      ` :: ` and the JSON of the captured body when `res.json` was called. */
  function FullLogLine(verb: string, path: string, status: nat, durationMs: nat, capturedJson: Option<string>): (line: string)
    ensures verb + " " + path + " " + Decimal(status) + " in " <= line
    ensures capturedJson.Some? ==> |line| >= |capturedJson.value| && line[|line| - |capturedJson.value|..] == capturedJson.value
  {
    var line := verb + " " + path + " " + Decimal(status) + " in " + Decimal(durationMs) + "ms";
    if capturedJson.Some? then line + " :: " + capturedJson.value else line
  }

  /** The line logged when a response finishes; only paths under "/api" are logged. */
  function LogLine(verb: string, path: string, status: nat, durationMs: nat, capturedJson: Option<string>): (r: Option<string>)
    ensures r.Some? <==> "/api" <= path
    ensures r.Some? ==> |r.value| <= LogLimit
    ensures r.Some? ==> var full := FullLogLine(verb, path, status, durationMs, capturedJson);
      (|full| <= LogLimit ==> r.value == full) && (|full| > LogLimit ==> |r.value| == LogLimit && r.value[..LogLimit - 1] == full[..LogLimit - 1])
  {
    if "/api" <= path then Some(Truncate(FullLogLine(verb, path, status, durationMs, capturedJson))) else None
  }

  /** The fields of a thrown error the handler reads; a number is falsy when 0, a
      string when empty, either when absent. */
  datatype ThrownError = ThrownError(status: Option<int>, statusCode: Option<int>, message: Option<string>)

  predicate Truthy(n: Option<int>) {
    n.Some? && n.value != 0
  }

  /** `err.status || err.statusCode || 500`. */
  function ErrorStatus(e: ThrownError): (s: int)
    ensures s != 0
    ensures Truthy(e.status) ==> s == e.status.value
    ensures !Truthy(e.status) && Truthy(e.statusCode) ==> s == e.statusCode.value
    ensures !Truthy(e.status) && !Truthy(e.statusCode) ==> s == 500
  {
    if Truthy(e.status) then e.status.value
    else if Truthy(e.statusCode) then e.statusCode.value
    else 500
  }

  /** `err.message || "Internal Server Error"`. */
  function ErrorMessage(e: ThrownError): (m: string)
    ensures m != ""
    ensures Present(e.message) ==> m == e.message.value
    ensures !Present(e.message) ==> m == "Internal Server Error"
  {
    if Present(e.message) then e.message.value else "Internal Server Error"
  }

  /** The response the error-handling middleware sends: never status 0 and never an
      empty message; the thrown status and message come through when truthy; without a
      truthy status the status is 500 and without a message the message is
      "Internal Server Error", each independently of the other. */
  function ErrorResponse(e: ThrownError): (r: Response)
    ensures r.status != 0 && r.body.MessageBody? && r.body.message != ""
    ensures Truthy(e.status) ==> r.status == e.status.value
    ensures !Truthy(e.status) && Truthy(e.statusCode) ==> r.status == e.statusCode.value
    ensures Present(e.message) ==> r.body == MessageBody(e.message.value)
    ensures !Truthy(e.status) && !Truthy(e.statusCode) ==> r.status == 500
    ensures !Present(e.message) ==> r.body == MessageBody("Internal Server Error")
  {
    Response(ErrorStatus(e), MessageBody(ErrorMessage(e)))
  }
}
