/** What the two order handlers share: the request body as the handlers see
    it, the response they return, and the mapping of a caught error to a
    response. */
module LambdaHttp {
  import opened Wrappers
  import opened JsValues
  import opened OrderEntity

  /** One key of a parsed JSON object as a handler reads it: not present,
      present with a value of the type the schema expects, or present with
      any other value (`null` included). */
  datatype Field<+T> = Missing | Given(value: T) | Mistyped

  /** A parsed JSON object body: the three fields the order handlers read
      and how many other keys the object has. */
  datatype Payload = Payload(items: Field<Items>, total: Field<int>, userId: Field<int>, otherKeys: nat)

  /** `Object.keys(payload).length`: every present key counts, whatever its
      value. */
  function KeyCount(p: Payload): (r: nat)
    ensures r == 0 <==> p.items.Missing? && p.total.Missing? && p.userId.Missing? && p.otherKeys == 0
    ensures r >= p.otherKeys
  {
    (if p.items.Missing? then 0 else 1) + (if p.total.Missing? then 0 else 1)
      + (if p.userId.Missing? then 0 else 1) + p.otherKeys
  }

  /** The outcome of `JSON.parse` on a non-empty body. */
  datatype ParseResult = Unparseable | Object(payload: Payload)

  /** `event.body`: missing (`null`), the empty string, or some text. */
  datatype EventBody = Absent | EmptyText | NonEmptyText(parsed: ParseResult)

  /** `!event.body`. */
  predicate BodyFalsy(b: EventBody)
  {
    b.Absent? || b.EmptyText?
  }

  /** What `JSON.parse` throws on text that is not JSON. */
  const SYNTAX_ERROR: Exception := Exception("SyntaxError", "Unexpected token in JSON", [])

  datatype ResponseBody =
    | Message(message: string)
    | Details(message: string, details: seq<Issue>)
    | Data(message: string, data: Order)

  /** The status code and JSON body of a handler's response (headers are
      always `Content-Type: application/json` and left out). */
  datatype Response = Response(statusCode: int, body: ResponseBody)

  const INTERNAL_ERROR: Response := Response(500, Message("Internal server error"))

  /** The `catch` block of both handlers: an error named `ZodError` is a
      client error carrying the issues; anything else is a bare 500. */
  function ErrorResponse(e: Exception): (r: Response)
    ensures r.statusCode == 400 <==> e.name == "ZodError"
    ensures r.statusCode == 400 ==> r.body == Details("Validation error", e.errors)
    ensures r.statusCode != 400 ==> r == INTERNAL_ERROR
  {
    if e.name == "ZodError" then Response(400, Details("Validation error", e.errors))
    else INTERNAL_ERROR
  }
}
