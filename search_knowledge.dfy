/**
 * api/search-knowledge.js: the stand-alone search handler. It answers the
 * CORS preflight, rejects every method but POST, requires a truthy `query`,
 * and formats at most five ranked documents. It never looks at the
 * connection state: a database that cannot be reached shows up as a failed
 * query.
 */
module SearchKnowledge {
  import opened Store
  import opened Formatter
  import opened Http

  function Handle(httpMethod: string, body: Body, find: FindOutcome): Response {
    if httpMethod == "OPTIONS" then Response(200, NoContent)
    else if httpMethod != "POST" then Response(405, Message(METHOD_NOT_ALLOWED))
    else if !Truthy(Field(body, "query")) then Response(400, Message(QUERY_REQUIRED))
    else match find
      case FindFailed(error) => Response(500, ErrorMessage(QUERY_FAILED, error))
      case Found(ranked) => Response(200, Results(FormatResults(ranked, CreatedAt)))
  }

  /** The preflight answer is an empty 200, whatever the body and whatever
      the store would have returned. */
  lemma OptionsAnswersAtOnce(body: Body, find: FindOutcome)
    ensures Handle("OPTIONS", body, find) == Response(200, NoContent)
  {
  }

  /** The status of the handler, case by case: the method is checked first,
      then the query, then the store. */
  lemma HandleStatus(httpMethod: string, body: Body, find: FindOutcome)
    ensures var status := Handle(httpMethod, body, find).status;
      var query := Field(body, "query");
      && (status == 405 <==> httpMethod != "OPTIONS" && httpMethod != "POST")
      && (status == 400 <==> httpMethod == "POST" && !Truthy(query))
      && (status == 500 <==> httpMethod == "POST" && Truthy(query) && find.FindFailed?)
      && (status == 200 <==> httpMethod == "OPTIONS" || (httpMethod == "POST" && Truthy(query) && find.Found?))
  {
  }

  /** The query check is JavaScript truthiness only: a query made of
      whitespace alone reaches the store. */
  lemma WhitespaceQueryReachesStore(query: string, find: FindOutcome)
    requires query != "" && JsStrings.AllWhitespace(query)
    ensures Handle("POST", map["query" := query], find).status == if find.Found? then 200 else 500
  {
  }

  /** A successful search answers one result for each of the first five
      ranked documents (all of them when there are fewer), in rank order, with createdAt taken from createdAt. */
  lemma HandleResults(body: Body, ranked: seq<Document>)
    requires Truthy(Field(body, "query"))
    ensures var r := Handle("POST", body, Found(ranked));
      && r.status == 200 && r.payload.Results?
      && |r.payload.results| == (if |ranked| < RESULT_LIMIT then |ranked| else RESULT_LIMIT)
      && forall i :: 0 <= i < |r.payload.results| ==>
           && r.payload.results[i].id == ranked[i].id
           && r.payload.results[i].title == SplitTitle(ranked[i].texto).title
           && r.payload.results[i].content == SplitTitle(ranked[i].texto).content
           && r.payload.results[i].estado == ranked[i].estado
           && r.payload.results[i].imageUrl == ranked[i].imagemUrl
           && r.payload.results[i].createdAt == ranked[i].createdAt
  {
    FormatResultsFaithful(ranked, CreatedAt);
  }
}
