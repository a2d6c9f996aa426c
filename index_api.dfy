/**
 * api/index.js: the Express app with a lazily connected database. A
 * module-level flag `isConnected` records whether `mongoose.connect` has
 * succeeded; both POST routes first call `connectDB()` and answer 503 while
 * the flag is still clear.
 */
module IndexApi {
  import opened Store
  import opened Formatter
  import opened Http

  /** The connection flag together with the number of connection attempts
      made so far. */
  datatype ConnState = ConnState(connected: bool, attempts: nat)

  /** One call of `connectDB()` whose connection attempt, if one is made,
      succeeds exactly when `attemptSucceeds`. */
  function ConnectStep(s: ConnState, attemptSucceeds: bool): ConnState {
    if s.connected then s else ConnState(attemptSucceeds, s.attempts + 1)
  }

  /** Successive calls of `connectDB()`, the k-th attempt, when made,
      succeeding exactly when `outcomes[k]`. */
  function ConnectRun(s: ConnState, outcomes: seq<bool>): ConnState
    decreases |outcomes|
  {
    if outcomes == [] then s else ConnectRun(ConnectStep(s, outcomes[0]), outcomes[1..])
  }

  /** Once connected, any number of further calls attempt nothing and
      leave the flag set. */
  lemma {:induction false} ConnectedStaysConnected(s: ConnState, outcomes: seq<bool>)
    requires s.connected
    ensures ConnectRun(s, outcomes) == s
    decreases |outcomes|
  {
    if outcomes != [] {
      ConnectedStaysConnected(s, outcomes[1..]);
    }
  }

  /** From a clear flag, every call retries until one succeeds: the flag ends
      up set exactly when some attempt succeeded, and the attempts made are
      all the calls when none did, or the calls up to and including the first
      success. */
  lemma {:induction false} ConnectRunFromDisconnected(s: ConnState, outcomes: seq<bool>)
    requires !s.connected
    ensures ConnectRun(s, outcomes).connected <==> true in outcomes
    ensures true !in outcomes ==> ConnectRun(s, outcomes).attempts == s.attempts + |outcomes|
    ensures forall k :: 0 <= k < |outcomes| && outcomes[k] && true !in outcomes[..k] ==>
              ConnectRun(s, outcomes).attempts == s.attempts + k + 1
    decreases |outcomes|
  {
    if outcomes != [] {
      var next := ConnectStep(s, outcomes[0]);
      if outcomes[0] {
        ConnectedStaysConnected(next, outcomes[1..]);
        assert forall k :: 0 < k < |outcomes| ==> outcomes[..k][0] == true;
      } else {
        ConnectRunFromDisconnected(next, outcomes[1..]);
        assert true in outcomes <==> true in outcomes[1..];
        forall k | 0 <= k < |outcomes| && outcomes[k] && true !in outcomes[..k]
          ensures ConnectRun(s, outcomes).attempts == s.attempts + k + 1
        {
          assert k > 0;
          assert outcomes[1..][..k - 1] == outcomes[1..k];
          assert outcomes[..k] == [outcomes[0]] + outcomes[1..k];
          assert outcomes[1..][k - 1] == outcomes[k];
        }
      }
    }
  }

  /** The body of the 503 answer both routes give without a database. */
  const UNAVAILABLE: Response :=
    Response(503, ErrorMessage("Serviço indisponível. Verifique o MONGODB_URI",
                               "Database Connection Failed"))

  /** POST /api/memories after `connectDB()`: 503 without a database;
      otherwise the body goes to the store as it is, 201 when saved, 400 when
      the save raised. */
  function MemoriesRoute(connected: bool, save: SaveOutcome): Response {
    if !connected then UNAVAILABLE
    else match save
      case Saved => Response(201, SavedDocument)
      case SaveFailed(error) => Response(400, ErrorMessage("Erro ao salvar conteúdo.", error))
  }

  /** POST /api/search-knowledge after `connectDB()`. */
  function SearchRoute(connected: bool, body: Body, find: FindOutcome): Response {
    if !connected then UNAVAILABLE
    else if !Truthy(Field(body, "query")) then Response(400, Message(QUERY_REQUIRED))
    else match find
      case FindFailed(error) => Response(500, ErrorMessage(QUERY_FAILED, error))
      case Found(ranked) => Response(200, Results(FormatResults(ranked, DataHora)))
  }

  /** Without a database both routes answer 503 whatever the request and the
      store would have done: an empty query gives 503, not 400. */
  lemma UnavailableComesFirst(body: Body, find: FindOutcome, save: SaveOutcome)
    ensures SearchRoute(false, body, find) == UNAVAILABLE
    ensures MemoriesRoute(false, save) == UNAVAILABLE
  {
  }

  /** The status of the memories route, case by case: a failed save is
      answered 400 here, where api/memories.js answers 500. */
  lemma MemoriesRouteStatus(connected: bool, save: SaveOutcome)
    ensures var status := MemoriesRoute(connected, save).status;
      && (status == 503 <==> !connected)
      && (status == 201 <==> connected && save.Saved?)
      && (status == 400 <==> connected && save.SaveFailed?)
  {
  }

  /** The status of the search route, case by case. */
  lemma SearchRouteStatus(connected: bool, body: Body, find: FindOutcome)
    ensures var status := SearchRoute(connected, body, find).status;
      && (status == 503 <==> !connected)
      && (status == 400 <==> connected && !Truthy(Field(body, "query")))
      && (status == 500 <==> connected && Truthy(Field(body, "query")) && find.FindFailed?)
      && (status == 200 <==> connected && Truthy(Field(body, "query")) && find.Found?)
  {
  }

  /** A successful search answers one result for each of the first five
      ranked documents (all of them when there are fewer), in rank order, with createdAt taken from dataHora. */
  lemma SearchRouteResults(body: Body, ranked: seq<Document>)
    requires Truthy(Field(body, "query"))
    ensures var r := SearchRoute(true, body, Found(ranked));
      && r.status == 200 && r.payload.Results?
      && |r.payload.results| == (if |ranked| < RESULT_LIMIT then |ranked| else RESULT_LIMIT)
      && forall i :: 0 <= i < |r.payload.results| ==>
           && r.payload.results[i].id == ranked[i].id
           && r.payload.results[i].title == SplitTitle(ranked[i].texto).title
           && r.payload.results[i].content == SplitTitle(ranked[i].texto).content
           && r.payload.results[i].estado == ranked[i].estado
           && r.payload.results[i].imageUrl == ranked[i].imagemUrl
           && r.payload.results[i].createdAt == ranked[i].dataHora
  {
    FormatResultsFaithful(ranked, DataHora);
  }

  /** The app: the module-level `isConnected` flag and, for the proofs, the
      number of connection attempts made. */
  class App {
    var isConnected: bool
    ghost var attempts: nat

    constructor ()
      ensures !isConnected && attempts == 0
    {
      isConnected := false;
      attempts := 0;
    }

    ghost function State(): ConnState
      reads this
    {
      ConnState(isConnected, attempts)
    }

    /** `connectDB()`: nothing when already connected; otherwise one
        attempt, which sets the flag when it succeeds and, when it fails,
        leaves it clear without raising. */
    method ConnectDB(attemptSucceeds: bool)
      modifies this
      ensures old(isConnected) ==> isConnected && attempts == old(attempts)
      ensures !old(isConnected) ==> attempts == old(attempts) + 1 && isConnected == attemptSucceeds
      ensures State() == ConnectStep(old(State()), attemptSucceeds)
    {
      if isConnected {
        return;
      }
      attempts := attempts + 1;
      if attemptSucceeds {
        isConnected := true;
      }
    }

    /** The POST /api/memories route. */
    method PostMemories(attemptSucceeds: bool, save: SaveOutcome) returns (r: Response)
      modifies this
      ensures State() == ConnectStep(old(State()), attemptSucceeds)
      ensures r == MemoriesRoute(isConnected, save)
      ensures !isConnected ==> r.status == 503
    {
      ConnectDB(attemptSucceeds);
      r := MemoriesRoute(isConnected, save);
    }

    /** The POST /api/search-knowledge route. */
    method PostSearchKnowledge(attemptSucceeds: bool, body: Body, find: FindOutcome)
      returns (r: Response)
      modifies this
      ensures State() == ConnectStep(old(State()), attemptSucceeds)
      ensures r == SearchRoute(isConnected, body, find)
      ensures !isConnected ==> r.status == 503
    {
      ConnectDB(attemptSucceeds);
      r := SearchRoute(isConnected, body, find);
    }
  }
}
