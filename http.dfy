/**
 * Requests and responses as the three handlers see them once Express or the
 * serverless runtime has parsed the JSON body.
 */
module Http {
  import opened Wrappers
  import opened Formatter

  /** A parsed JSON request body: field name to string value. */
  type Body = map<string, string>

  /** A field of the request body: its value, or `undefined` when it is absent. */
  function Field(body: Body, key: string): (v: Option<string>)
    ensures v.Some? <==> key in body
    ensures v.Some? ==> v.value == body[key]
  {
    if key in body then Some(body[key]) else None
  }

  /** JavaScript truthiness of a string field: `undefined` and "" are falsy,
      every other string (whitespace included) is truthy. */
  predicate Truthy(v: Option<string>) {
    v.Some? && v.value != ""
  }

  /** The body of a response. */
  datatype Payload =
    | NoContent                                     // an empty body
    | Message(message: string)                      // an object with a message
    | ErrorMessage(message: string, error: string)  // a message and the error's text
    | Results(results: seq<SearchResult>)           // the search results
    | SavedDocument                                 // the saved document itself

  datatype Response = Response(status: nat, payload: Payload)

  const METHOD_NOT_ALLOWED: string := "Método não permitido."
  const QUERY_REQUIRED: string := "A consulta (query) é obrigatória."
  const QUERY_FAILED: string := "Erro interno ao consultar a base de dados."
}
