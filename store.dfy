/**
 * What the handlers see of the MongoDB `memories` collection. The database
 * itself (connection, text index, ranking, persistence) is outside the
 * model: a query's outcome and a save's outcome are inputs.
 */
module Store {
  import opened Wrappers

  /** A stored Memory document, with the fields the handlers read. */
  datatype Document = Document(
    id: nat,                  // `_id`, assigned by the database
    agente: Option<string>,
    texto: string,
    estado: Option<string>,
    imagemUrl: Option<string>,
    dataHora: Option<int>,    // creation time in the schema of api/index.js
    createdAt: Option<int>)   // creation time as api/search-knowledge.js reads it

  /** The outcome of the text search on the collection, sorted by score: the
      matching documents in the order the database ranked them, or the
      message of the error it raised. */
  datatype FindOutcome = Found(ranked: seq<Document>) | FindFailed(message: string)

  /** The outcome of `save()`: stored, or the message of the error it raised. */
  datatype SaveOutcome = Saved | SaveFailed(message: string)

  /** The `.limit(5)` both search handlers apply. */
  const RESULT_LIMIT: nat := 5

  /** MongoDB's `.limit(n)`: the first `n` documents of the ranked cursor,
      in order, or all of them when there are fewer; `.limit(0)` sets no
      limit at all. */
  function Limit(ranked: seq<Document>, n: nat): (r: seq<Document>)
    ensures |r| == if n == 0 || |ranked| < n then |ranked| else n
    ensures forall i :: 0 <= i < |r| ==> r[i] == ranked[i]
  {
    if n == 0 || |ranked| <= n then ranked else ranked[..n]
  }
}
