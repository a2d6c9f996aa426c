# Knowledge-base backend: connection gate, title/content split and handler decisions

A Dafny model of the logic inside a small Express/Mongoose backend that stores
"memory" records for a chatbot and answers free-text searches over them. Three
pieces of it carry real behaviour, and they are what this project models and
proves:

- **The lazy connection flag** of `api/index.js` (`connectDB` and
  `isConnected`): one connection attempt per call until one succeeds, none
  afterwards; a failed attempt leaves the flag clear and raises nothing; both
  routes answer 503 while the flag is clear, before looking at anything else.
  Modelled as the class `IndexApi.App` with the flag as a field and a ghost
  counter of attempts, plus the pure functions `ConnectStep` / `ConnectRun` for
  reasoning about successive calls.
- **The title/content split** shared by both search handlers:
  `texto.split(': ')`, the first piece as the title, the rest re-joined with
  `': '` (falling back to the whole text when that is empty, JavaScript `||`),
  both trimmed. Modelled once, on `seq<char>`, in `JsStrings` (JavaScript's
  `trim`, `split`, `join`, `||`) and `Formatter`.
- **The handler decisions** of the three routes, as pure functions from the
  HTTP method, the body fields, the connection state and the store's outcome
  to a status and payload: `IndexApi.MemoriesRoute`, `IndexApi.SearchRoute`,
  `SearchKnowledge.Handle`, `Memories.Handle`. The database's answer to a
  search is an input: the matching documents in the order the database ranked
  them; `.limit(5)` and the order-preserving `map` are modelled.

Files: `wrappers.dfy` (Option), `js_strings.dfy`, `store.dfy` (documents,
store outcomes, `.limit`), `formatter.dfy`, `http.dfy` (body fields, JavaScript
truthiness, responses), `index_api.dfy`, `search_knowledge.dfy`,
`memories.dfy`.

The model follows the code as written: the query check is JavaScript truthiness (absent or `""` is rejected, a
whitespace-only query is not); results are not re-ranked or tie-broken by
creation time (the database's order is taken as given); there is no list
operation and no validation in the `api/index.js` save route.

## Model

| member | source | states |
|---|---|---|
| `JsStrings.Trim` | api/index.js:97-98 | `trim()` returns the infix left after removing a whitespace-only prefix and suffix (ECMAScript WhiteSpace and LineTerminator characters); the result has no whitespace at either end |
| `JsStrings.TrimIdempotent` | api/index.js:97-98 | trimming an already trimmed title or content changes nothing |
| `JsStrings.TrimmedIsFixed` | api/index.js:97-98 | a text with no whitespace at either end is its own `trim()` |
| `JsStrings.TrimEmptyIff` | api/index.js:97-98 | a trimmed part is empty exactly when it was whitespace only |
| `JsStrings.FindFirst` | api/index.js:92 | the position `split` cuts at is an occurrence of the separator with none before it; none is found exactly when the text has no occurrence |
| `JsStrings.Split` | api/index.js:92 | `split(': ')` yields at least one piece, and no piece contains the separator |
| `JsStrings.JoinSplit` | api/index.js:92-93 | joining the pieces of a split with the same separator gives back the original text |
| `JsStrings.SplitAtFirst` | api/index.js:92 | `split` cuts at the first occurrence: the first piece is the text before it, the other pieces are the split of the text after it |
| `JsStrings.JoinTailAfterFirst` | api/index.js:92-93 | the first piece is the text before the first separator, and the other pieces re-joined are exactly the text after it, later separators included |
| `JsStrings.Join` | api/index.js:93 | `join(sep)` of the pieces; no parts give `""`; described by `JoinSplit` and `JoinTailAfterFirst` |
| `JsStrings.OrElse` | api/index.js:93 | JavaScript's logical or on two strings yields its left operand when that is non-empty and its right one otherwise, so it is empty only when both are |
| `Formatter.RawSplit` | api/index.js:92-93 | the untrimmed title and content; described by `RawSplitAtFirst`, `RawSplitWithoutDelimiter`, `RawTitleHasNoDelimiter` and `RawSplitReconstructs` |
| `Formatter.SplitTitle` | api/index.js:92-98 | the trimmed title and content; described by `TitleAndContentAtFirstDelimiter`, `EmptyRemainderFallsBack`, `NoDelimiterFallsBack` and the four example lemmas |
| `Formatter.RawSplitAtFirst` | api/index.js:92-93 | with a first `": "` at `i`, the untrimmed title is the text before it and the untrimmed content everything after it, or the whole text when nothing follows |
| `Formatter.RawSplitWithoutDelimiter` | api/index.js:92-93 | without `": "` the untrimmed title and content are both the whole text |
| `Formatter.RawTitleHasNoDelimiter` | api/index.js:92 | the untrimmed title never contains `": "`: only the first occurrence splits |
| `Formatter.TitleAndContentAtFirstDelimiter` | api/index.js:92-98 | with text after the first `": "`, title and content are the trimmed text before and after it |
| `Formatter.EmptyRemainderFallsBack` | api/index.js:92-98 | when nothing follows the first `": "`, the title is the trimmed prefix and the content the trimmed whole text |
| `Formatter.NoDelimiterFallsBack` | api/index.js:92-98 | without `": "`, title and content are both the trimmed whole text |
| `Formatter.RawSplitReconstructs` | api/index.js:92-93 | untrimmed title + `": "` + content equals the text if and only if the text has a `": "` with something after the first one |
| `Formatter.ExampleEmptyRemainder` | api/search-knowledge.js:48-54 | `"A: "` gives title `"A"` and content `"A:"` |
| `Formatter.ExampleEmptyTitle` | api/search-knowledge.js:48-54 | `": x"` gives an empty title and content `"x"` |
| `Formatter.ExampleEmptyText` | api/search-knowledge.js:48-54 | `""` gives an empty title and an empty content |
| `Formatter.ExampleLaterDelimiterKept` | api/search-knowledge.js:48-54 | `"a: b: c"` gives title `"a"` and content `"b: c"` |
| `Formatter.CreationTime` | api/index.js:101 | the `createdAt` of a result: the document's `dataHora` in `api/index.js`, its `createdAt` in `api/search-knowledge.js` (line 57); described by `FormatResultsFaithful`, `SearchRouteResults` and `HandleResults` |
| `Formatter.Format` | api/index.js:91-102 | one search result from one document; described by `FormatResultsFaithful` |
| `Formatter.FormatAll` | api/index.js:91-103 | the `map` gives one result per document, the i-th formatted from the i-th document |
| `Formatter.FormatResults` | api/index.js:89-103 | `.limit(5)` followed by the `map` over the ranked documents, shared by both search handlers; described by `FormatResultsFaithful` |
| `Formatter.FormatResultsFaithful` | api/index.js:89-102 | a search gives at most five results (all documents when fewer), in rank order, each copying id, estado and imagemUrl, taking createdAt from the chosen field and title/content from the split |
| `Store.Limit` | api/index.js:89 | MongoDB's `.limit(n)` keeps the first `n` ranked documents in order, or all of them when there are fewer, and `.limit(0)` keeps all; both handlers pass 5 |
| `Http.Field` | api/memories.js:14 | destructuring a body field gives its value when present and `undefined` otherwise |
| `Http.Truthy` | api/index.js:79 | JavaScript truthiness of a body field: absent or `""` is falsy, any other string truthy; used by the status lemmas and `WhitespaceQueryReachesStore` |
| `IndexApi.App.constructor` | api/index.js:14 | the flag starts clear, with no attempt made |
| `IndexApi.App.ConnectDB` | api/index.js:17-26 | when connected, nothing is attempted and the flag stays set; otherwise exactly one attempt is made, the flag is set exactly when it succeeds, and a failure returns normally with the flag clear |
| `IndexApi.ConnectStep` | api/index.js:17-26 | one `connectDB()` call on the flag and the attempt count; `App.ConnectDB`, `App.PostMemories` and `App.PostSearchKnowledge` state their new state against it |
| `IndexApi.ConnectRun` | api/index.js:17-26 | successive `connectDB()` calls, one attempt outcome each; described by `ConnectedStaysConnected` and `ConnectRunFromDisconnected` |
| `IndexApi.ConnectedStaysConnected` | api/index.js:17-18 | once the flag is set, any number of further calls make no attempt and never clear it |
| `IndexApi.ConnectRunFromDisconnected` | api/index.js:17-26 | from a clear flag, calls retry until one succeeds: the flag ends set iff some attempt succeeded, and the attempts made are all the calls, or the calls up to and including the first success |
| `IndexApi.App.PostMemories` | api/index.js:46-66 | calls `connectDB` first; 503 while the flag is clear; otherwise 201 when the save succeeds and 400 when it raises |
| `IndexApi.App.PostSearchKnowledge` | api/index.js:68-114 | calls `connectDB` first; 503 while the flag is clear, then the query check, then the store |
| `IndexApi.MemoriesRoute` | api/index.js:46-66 | the save route's answer for a given connection state and save outcome; described by `UnavailableComesFirst` and `MemoriesRouteStatus` |
| `IndexApi.SearchRoute` | api/index.js:68-114 | the search route's answer for a given connection state, body and query outcome; described by `UnavailableComesFirst`, `SearchRouteStatus` and `SearchRouteResults` |
| `IndexApi.UnavailableComesFirst` | api/index.js:46-81 | without a database both routes answer the same 503 whatever the body and the store: an empty query gives 503, not 400 |
| `IndexApi.MemoriesRouteStatus` | api/index.js:46-65 | the save route answers 503 iff not connected, 201 iff connected and the save succeeds, 400 iff connected and the save raises |
| `IndexApi.SearchRouteStatus` | api/index.js:68-113 | the search route answers 503 iff not connected, 400 iff connected with a falsy query, 500 iff the query then fails, 200 iff it succeeds |
| `IndexApi.SearchRouteResults` | api/index.js:83-105 | a successful search answers one result for each of the first five ranked documents (all of them when there are fewer), in rank order, createdAt taken from `dataHora` |
| `SearchKnowledge.Handle` | api/search-knowledge.js:14-66 | the handler's answer for a given method, body and query outcome; described by `OptionsAnswersAtOnce`, `HandleStatus`, `WhitespaceQueryReachesStore` and `HandleResults` |
| `SearchKnowledge.OptionsAnswersAtOnce` | api/search-knowledge.js:20-22 | OPTIONS answers an empty 200 whatever the body and the store |
| `SearchKnowledge.HandleStatus` | api/search-knowledge.js:20-66 | 405 iff the method is neither OPTIONS nor POST; 400 iff POST with a falsy query; 500 iff the query then fails; 200 for OPTIONS or a successful query; the connection state is never an input |
| `SearchKnowledge.WhitespaceQueryReachesStore` | api/search-knowledge.js:32-34 | a whitespace-only query passes the check and reaches the store |
| `SearchKnowledge.HandleResults` | api/search-knowledge.js:36-61 | a successful search answers one result for each of the first five ranked documents (all of them when there are fewer), in rank order, createdAt taken from `createdAt` |
| `Memories.Handle` | api/memories.js:6-35 | the handler's answer and stored record for a given method, body and save outcome; described by `HandleStatus`, `StoredRecord`, `OtherFieldsIgnored`, `ImageUrlNotValidated` and `WhitespaceFieldsAccepted` |
| `Memories.Complete` | api/memories.js:16 | the three required fields are all truthy; described by `HandleStatus` and `WhitespaceFieldsAccepted` |
| `Memories.Build` | api/memories.js:21-26 | the record built from `agente`, `estado`, `texto` and `imagemUrl` only; described by `StoredRecord` and `OtherFieldsIgnored` |
| `Memories.HandleStatus` | api/memories.js:8-35 | 405 iff the method is not POST; 400 iff POST with `agente`, `estado` or `texto` absent or empty; 500 iff the save then fails; 201 iff it succeeds |
| `Memories.StoredRecord` | api/memories.js:14-30 | a record reaches the store iff the answer is 201; it holds the body's `agente`, `estado`, `texto` (all non-empty) and `imagemUrl` |
| `Memories.OtherFieldsIgnored` | api/memories.js:14-26 | bodies that agree on the four known fields get the same answer and store the same record |
| `Memories.ImageUrlNotValidated` | api/memories.js:14-18 | the presence or value of `imagemUrl` never changes the status |
| `Memories.WhitespaceFieldsAccepted` | api/memories.js:16-18 | any non-empty required fields made of whitespace alone pass validation, and the answer is 201 or 500 as the save goes |

## Left out

- Express setup, `cors()`, `express.json()`, the CORS `setHeader` calls and the `GET /` banner route: transport plumbing. Requests with other methods to the `api/index.js` routes are answered by Express's router, not by this code.
- `mongoose.connect`, the schema, `Memory.find` and `save`: foreign library calls. Their outcomes are parameters (`attemptSucceeds`, `FindOutcome`, `SaveOutcome`).
- The `$text` tokenisation and `textScore` ranking: done inside the database. The ranked documents are an input sequence; no tie-break by creation time exists in the code.
- `Date.now`, `_id` generation and `console.log`/`console.error`: nondeterministic values or output.
- `../utils/db` and `../models/Memory` are not part of this model. In `api/search-knowledge.js` and `api/memories.js` the awaited `connectDB()` is taken to complete; an unreachable database shows up only as a failed query or save. Whether that model's documents carry the `createdAt` field the search handler reads is unknown.
- Concurrent `connectDB` calls: the code has no coordination between them, and the model treats calls one at a time.
- The document echoed back by the `api/index.js` save route is modelled as an opaque `SavedDocument` payload: the body goes to the schema unchanged and nothing about it is checked.
- Request bodies are modelled as maps from field names to strings. Non-string JSON values (numbers, booleans, `null`, objects) and a missing body, which makes the destructuring throw, are not modelled.
- JavaScript strings are UTF-16 code units and Dafny's are Unicode scalar values. Every character `trim()` removes lies in the Basic Multilingual Plane, so the split and trim behave the same on both.
- A stored document without `texto` would make `item.texto.split` throw. The model gives every document a `texto`, since a `$text` search only matches documents that have one.
