/** The thread runner, src/lambda/thread_runner.py: the catalog and knowledge
    base helpers, the six-entry function mapping, and `process_thread_run`,
    which polls a run and answers its tool calls.

    The outside world is a `World` value: the HTTP client, the JSON decoder,
    Python's `str()` of a non-string value, the embeddings API and the vector
    table's search. The remote run is a scripted trace of the states that
    successive retrievals return; what the runner does to the world is a log of
    tool invocations and tool-output submissions. */
module ThreadRunner {
  import opened Json
  import opened Dicts

  // ---------------------------------------------------------------------
  // The outside world

  datatype Request = Request(url: string, params: seq<(string, Value)>)

  datatype Response = Response(status: int, body: string)

  /** A vector-table search as the query builder leaves it. */
  datatype SearchQuery = SearchQuery(
    vector: Value, metric: string, limit: int, where: Option<string>, prefilter: bool)

  datatype World = World(
    post: Request -> Result<Response>,        // requests.post(url, params=...); Err when it raises
    decodeJson: string -> Option<Value>,      // json.loads; None when it raises
    repr: Value -> string,                    // str() of a value that is not a str
    embed: Value -> Result<Value>,            // client.embeddings.create(...).data[0].embedding
    search: SearchQuery -> Result<seq<Row>>)  // search_query.to_list()

  // ---------------------------------------------------------------------
  // The catalog helpers

  const UseCaseUrl := "https://search.worldbank.org/api/v2/projects"
  const DatasetViewUrl := "https://datacatalogapi.worldbank.org/ddhxext/DatasetView"
  const ResourceViewUrl := "https://datacatalogapi.worldbank.org/ddhxext/ResourceView"
  const DownloadResourceUrl := "https://datacatalogapi.worldbank.org/ddhxext/DownloadResource"
  const OpenResourceUrl := "https://datacatalogapi.worldbank.org/ddhxext/OpenResource"

  /** `response.json() if response.status_code == 200 else None` after
      `requests.post`: the exception of the request itself escapes; then the
      decoded body on status 200 (raising if it does not decode), None on any
      other status. */
  function Lookup(req: Request, w: World): (r: Result<Value>)
    ensures w.post(req).Err? ==> r == Err(w.post(req).error)
    ensures w.post(req).Ok? && w.post(req).value.status != 200 ==> r == Ok(Null)
    ensures w.post(req).Ok? && w.post(req).value.status == 200 ==>
      (r.Ok? <==> w.decodeJson(w.post(req).value.body).Some?) &&
      (r.Ok? ==> Some(r.value) == w.decodeJson(w.post(req).value.body)) &&
      (r.Err? ==> r.error == MalformedJson)
  {
    match w.post(req)
    case Err(e) => Err(e)
    case Ok(response) =>
      if response.status == 200 then
        match w.decodeJson(response.body)
        case Some(v) => Ok(v)
        case None => Err(MalformedJson)
      else Ok(Null)
  }

  /** A 404 and a 500 give the caller the same answer, and so does a 200 whose
      body is JSON `null`: the caller cannot tell these apart. */
  lemma NonOkStatusesIndistinguishable(req: Request, w1: World, w2: World)
    requires w1.post(req).Ok? && w1.post(req).value.status != 200
    requires w2.post(req).Ok? && w2.post(req).value.status != 200
    ensures Lookup(req, w1) == Lookup(req, w2) == Ok(Null)
  {
  }

  lemma NullBodyLooksLikeFailure(req: Request, w: World)
    requires w.post(req).Ok? && w.post(req).value.status == 200
    requires w.decodeJson(w.post(req).value.body) == Some(Null)
    ensures Lookup(req, w) == Ok(Null)
  {
  }

  // ---------------------------------------------------------------------
  // The knowledge base helper

  const DefaultNumResults := 5

  /** The query `get_rag_matches` builds: cosine metric, the given limit, and
      the `type = '<datatype>'` prefilter only when `datatype` is truthy. */
  function RagQuery(embedding: Value, dataType: Value, numResults: int, repr: Value -> string): (q: SearchQuery)
    ensures q.vector == embedding && q.metric == "cosine" && q.limit == numResults
    ensures q.where.Some? <==> Truthy(dataType)
    ensures q.where.Some? ==> q.prefilter && q.where.value == "type = '" + Show(dataType, repr) + "'"
  {
    var searchQuery := SearchQuery(embedding, "cosine", numResults, None, false);
    if Truthy(dataType) then
      searchQuery.(where := Some("type = '" + Show(dataType, repr) + "'"), prefilter := true)
    else searchQuery
  }

  /** `{k: v for k, v in r.items() if k != 'vector'}`. */
  function StripVector(r: Row): (s: Row)
    ensures "vector" !in Keys(s)
    ensures Keys(s) == Keys(r) - {"vector"}
    ensures forall k :: k != "vector" ==> Get(s, k) == Get(r, k)
    decreases |r|
  {
    if r == [] then []
    else
      var init, last := r[..|r| - 1], r[|r| - 1];
      var s := StripVector(init);
      KeysOfInit(r);
      if last.0 == "vector" then s
      else
        KeysOfInit(s + [last]);
        assert (s + [last])[..|s|] == s;
        s + [last]
  }

  /** `get_rag_matches(query, dataType, num_results)`. */
  function GetRagMatches(query: Value, dataType: Value, numResults: int, w: World): Result<Value> {
    match w.embed(query)
    case Err(e) => Err(e)
    case Ok(embedding) =>
      match w.search(RagQuery(embedding, dataType, numResults, w.repr))
      case Err(e) => Err(e)
      case Ok(rows) => Ok(List(seq(|rows|, i requires 0 <= i < |rows| => Obj(StripVector(rows[i])))))
  }

  /** `search_knowledge_base(query, dataType)`. */
  function SearchKnowledgeBase(query: Value, dataType: Value, w: World): Result<Value> {
    GetRagMatches(query, dataType, DefaultNumResults, w)
  }

  /** The matches come back one per search result, in the table's order, each
      with every key but `vector`; the search asked for at most five. */
  lemma KnowledgeBaseMatches(query: Value, dataType: Value, w: World, embedding: Value)
    requires w.embed(query) == Ok(embedding)
    ensures var q := RagQuery(embedding, dataType, DefaultNumResults, w.repr);
      && q.limit == 5
      && (q.where.Some? <==> Truthy(dataType))
      && (w.search(q).Ok? ==>
        var rows := w.search(q).value;
        var r := SearchKnowledgeBase(query, dataType, w);
        && r.Ok? && r.value.List? && |r.value.items| == |rows|
        && forall i :: 0 <= i < |rows| ==>
          && r.value.items[i].Obj?
          && Keys(r.value.items[i].entries) == Keys(rows[i]) - {"vector"}
          && forall k :: k != "vector" ==> Get(r.value.items[i].entries, k) == Get(rows[i], k))
  {
  }

  // ---------------------------------------------------------------------
  // The function mapping

  datatype ToolFunction =
    | SearchKnowledgeBaseFn
    | GetUseCaseDetailsFn
    | GetDataDetailsFn
    | GetDataFileDetailsFn
    | DownloadDataFileFn
    | OpenDataFileFn

  function FunctionName(f: ToolFunction): string {
    match f
    case SearchKnowledgeBaseFn => "search_knowledge_base"
    case GetUseCaseDetailsFn => "get_use_case_details"
    case GetDataDetailsFn => "get_data_details"
    case GetDataFileDetailsFn => "get_data_file_details"
    case DownloadDataFileFn => "download_data_file"
    case OpenDataFileFn => "open_data_file"
  }

  const FunctionMapping: map<string, ToolFunction> := map[
    "search_knowledge_base" := SearchKnowledgeBaseFn,
    "get_use_case_details" := GetUseCaseDetailsFn,
    "get_data_details" := GetDataDetailsFn,
    "get_data_file_details" := GetDataFileDetailsFn,
    "download_data_file" := DownloadDataFileFn,
    "open_data_file" := OpenDataFileFn
  ]

  /** The mapping holds exactly the six tool names, each bound to the function
      of that name. */
  lemma FunctionMappingExactlySix()
    ensures FunctionMapping.Keys == {"search_knowledge_base", "get_use_case_details", "get_data_details",
                                     "get_data_file_details", "download_data_file", "open_data_file"}
    ensures |FunctionMapping| == 6
    ensures forall f :: FunctionName(f) in FunctionMapping && FunctionMapping[FunctionName(f)] == f
    ensures forall name :: name in FunctionMapping ==> FunctionName(FunctionMapping[name]) == name
  {
    assert |FunctionMapping.Keys| == 6;
  }

  /** The keyword parameters each function must receive. */
  function RequiredParams(f: ToolFunction): set<string> {
    match f
    case SearchKnowledgeBaseFn => {"query"}
    case GetUseCaseDetailsFn => {"use_case_id"}
    case GetDataDetailsFn => {"data_unique_id"}
    case GetDataFileDetailsFn => {"data_file_unique_id"}
    case DownloadDataFileFn => {"data_file_unique_id", "version_id"}
    case OpenDataFileFn => {"data_file_unique_id"}
  }

  /** The keyword parameters that have a default. */
  function OptionalParams(f: ToolFunction): set<string> {
    if f == SearchKnowledgeBaseFn then {"datatype"} else {}
  }

  /** The request a catalog function posts. */
  function CatalogRequest(f: ToolFunction, kwargs: Record): Request
    requires f != SearchKnowledgeBaseFn && RequiredParams(f) <= kwargs.Keys
  {
    match f
    case GetUseCaseDetailsFn => Request(UseCaseUrl, [("id", kwargs["use_case_id"])])
    case GetDataDetailsFn => Request(DatasetViewUrl, [("dataset_unique_id", kwargs["data_unique_id"])])
    case GetDataFileDetailsFn => Request(ResourceViewUrl, [("resource_unique_id", kwargs["data_file_unique_id"])])
    case DownloadDataFileFn =>
      Request(DownloadResourceUrl, [("resource_unique_id", kwargs["data_file_unique_id"]),
                                    ("version_id", kwargs["version_id"])])
    case OpenDataFileFn => Request(OpenResourceUrl, [("resource_unique_id", kwargs["data_file_unique_id"])])
  }

  /** `function_mapping[name](**arguments)`: the arguments must be a dict whose
      keys fit the function's signature; then the function runs. */
  function Invoke(f: ToolFunction, arguments: Value, w: World): Result<Value> {
    if !arguments.Obj? then Err(NotAMapping)
    else
      var kwargs := ToMap(arguments.entries);
      if !(RequiredParams(f) <= kwargs.Keys <= RequiredParams(f) + OptionalParams(f)) then
        Err(BadArguments(FunctionName(f)))
      else if f == SearchKnowledgeBaseFn then
        SearchKnowledgeBase(kwargs["query"], if "datatype" in kwargs then kwargs["datatype"] else Null, w)
      else
        Lookup(CatalogRequest(f, kwargs), w)
  }

  /** Every catalog function answers None on a status other than 200, and the
      decoded body on 200. */
  lemma CatalogFunctionsStatusRule(f: ToolFunction, arguments: Value, w: World)
    requires f != SearchKnowledgeBaseFn && arguments.Obj?
    requires ToMap(arguments.entries).Keys == RequiredParams(f)
    ensures var req := CatalogRequest(f, ToMap(arguments.entries));
      && (w.post(req).Err? ==> Invoke(f, arguments, w) == Err(w.post(req).error))
      && (w.post(req).Ok? && w.post(req).value.status != 200 ==> Invoke(f, arguments, w) == Ok(Null))
      && (w.post(req).Ok? && w.post(req).value.status == 200 && w.decodeJson(w.post(req).value.body).Some? ==>
            Invoke(f, arguments, w) == Ok(w.decodeJson(w.post(req).value.body).value))
  {
  }

  // ---------------------------------------------------------------------
  // process_thread_run

  datatype ToolCall = ToolCall(id: string, name: string, arguments: string)

  /** A retrieved run: its id, its status, and the tool calls of its required
      action (None when the run carries no required action). */
  datatype RunState = RunState(id: string, status: string, toolCalls: Option<seq<ToolCall>>)

  datatype ToolOutput = ToolOutput(toolCallId: string, output: Value)

  datatype Submission = Submission(threadId: string, runId: string, toolOutputs: seq<ToolOutput>)

  /** What the runner does to the world, in order. `Invoked` records the
      attempt announced by the `Calling function ...` line, which comes before
      the arguments are bound: a call whose arguments do not fit the signature
      is still announced, although the tool function never runs and no request
      is made. `Submitted` records a tool-output submission. */
  datatype Event =
    | Invoked(name: string, arguments: Value)
    | Submitted(submission: Submission)

  /** The events of a step and the exception that ended it, if any. */
  datatype Effects = Effects(log: seq<Event>, error: Option<Error>)

  /** How a poll ends: the run completed, an exception escaped, or the trace ran
      out while the runner was still waiting. */
  datatype PollOutcome = Completed(run: RunState) | Raised(error: Error) | StillPolling

  /** `submit_tool_outputs(thread_id, run_id, tool_call_id, output)`: one call,
      one output (its JSON encoding is left to `json.dumps`). */
  function SubmitToolOutputs(threadId: string, runId: string, toolCallId: string, output: Value): Submission {
    Submission(threadId, runId, [ToolOutput(toolCallId, output)])
  }

  /** One pass of the `for tool_call in ...` body: decode the arguments, check
      the name, invoke, submit. */
  function HandleToolCall(threadId: string, runId: string, call: ToolCall, w: World): Effects {
    match w.decodeJson(call.arguments)
    case None => Effects([], Some(MalformedJson))
    case Some(arguments) =>
      if call.name !in FunctionMapping then Effects([], Some(UnknownFunction(call.name)))
      else
        match Invoke(FunctionMapping[call.name], arguments, w)
        case Err(e) => Effects([Invoked(call.name, arguments)], Some(e))
        case Ok(response) =>
          Effects([Invoked(call.name, arguments),
                   Submitted(SubmitToolOutputs(threadId, runId, call.id, response))], None)
  }

  /** Arguments that do not fit the signature raise `BadArguments` after the
      call was announced; nothing is submitted. */
  lemma MisfitArgumentsRaise(threadId: string, runId: string, call: ToolCall, arguments: Value, w: World)
    requires w.decodeJson(call.arguments) == Some(arguments) && call.name in FunctionMapping
    requires arguments.Obj?
    requires var f := FunctionMapping[call.name];
      !(RequiredParams(f) <= ToMap(arguments.entries).Keys <= RequiredParams(f) + OptionalParams(f))
    ensures HandleToolCall(threadId, runId, call, w)
      == Effects([Invoked(call.name, arguments)], Some(BadArguments(call.name)))
  {
    FunctionMappingExactlySix();
  }

  /** The whole `for` loop over a batch: it stops at the first exception. */
  function HandleBatch(threadId: string, runId: string, calls: seq<ToolCall>, w: World): Effects
    decreases |calls|
  {
    if calls == [] then Effects([], None)
    else
      var first := HandleToolCall(threadId, runId, calls[0], w);
      if first.error.Some? then first
      else
        var rest := HandleBatch(threadId, runId, calls[1..], w);
        Effects(first.log + rest.log, rest.error)
  }

  /** The run as `process_thread_run` drives it from the next retrieval on:
      `trace[0]` is the state that retrieval returns. */
  function Poll(threadId: string, trace: seq<RunState>, w: World): (PollOutcome, seq<Event>)
    decreases |trace|
  {
    if trace == [] then (StillPolling, [])
    else
      var run := trace[0];
      if run.status == "completed" then (Completed(run), [])
      else if run.status == "requires_action" then
        if run.toolCalls.None? then (Raised(MissingRequiredAction), [])
        else
          var batch := HandleBatch(threadId, run.id, run.toolCalls.value, w);
          if batch.error.Some? then (Raised(batch.error.value), batch.log)
          else
            var rest := Poll(threadId, trace[1..], w);
            (rest.0, batch.log + rest.1)
      else Poll(threadId, trace[1..], w)
  }

  /** The `for tool_call in run.required_action.submit_tool_outputs.tool_calls`
      loop: handle each call in turn, stopping at the first exception. */
  method RunToolCalls(threadId: string, runId: string, calls: seq<ToolCall>, w: World)
    returns (effects: Effects)
    ensures effects == HandleBatch(threadId, runId, calls, w)
  {
    HandleBatchIsBatchOf(threadId, runId, calls, w);
    effects := RunBatch(calls, c => HandleToolCall(threadId, runId, c, w));
  }

  /** The batch from call `i` on is call `i`'s effects, followed, when it
      raises nothing, by the batch from call `i + 1` on. */
  lemma BatchSuffixStep(calls: seq<ToolCall>, i: int, handle: ToolCall -> Effects)
    requires 0 <= i < |calls|
    ensures var first := handle(calls[i]);
      BatchOf(calls[i..], handle)
        == if first.error.Some? then first else Effects(first.log + BatchOf(calls[i + 1..], handle).log,
                                                        BatchOf(calls[i + 1..], handle).error)
  {
    assert calls[i..][0] == calls[i] && calls[i..][1..] == calls[i + 1..];
  }

  /** The loop over a batch for any loop body `handle`: the events of each call
      in turn, up to and including the first call that raises. */
  method RunBatch(calls: seq<ToolCall>, handle: ToolCall -> Effects) returns (effects: Effects)
    ensures effects == BatchOf(calls, handle)
  {
    var batchLog := [];
    var i := 0;
    while i < |calls|
      invariant 0 <= i <= |calls|
      invariant BatchOf(calls, handle).error == BatchOf(calls[i..], handle).error
      invariant BatchOf(calls, handle).log == batchLog + BatchOf(calls[i..], handle).log
    {
      BatchSuffixStep(calls, i, handle);
      var step := handle(calls[i]);
      if step.error.Some? {
        return Effects(batchLog + step.log, step.error);
      }
      batchLog := batchLog + step.log;
      i := i + 1;
    }
    assert calls[i..] == [];
    effects := Effects(batchLog, None);
  }

  /** `process_thread_run(thread_id, run_id)`; `trace` holds what the successive
      `runs.retrieve` calls return. */
  method ProcessThreadRun(threadId: string, trace: seq<RunState>, w: World)
    returns (outcome: PollOutcome, log: seq<Event>)
    ensures (outcome, log) == Poll(threadId, trace, w)
  {
    log := [];
    if trace == [] {
      return StillPolling, log;
    }
    var run := trace[0];
    var next := 1;
    assert trace[next - 1..] == trace;
    while run.status != "completed"
      invariant 1 <= next <= |trace| && run == trace[next - 1]
      invariant Poll(threadId, trace, w).0 == Poll(threadId, trace[next - 1..], w).0
      invariant Poll(threadId, trace, w).1 == log + Poll(threadId, trace[next - 1..], w).1
      decreases |trace| - next
    {
      ghost var here, rest := trace[next - 1..], trace[next..];
      assert here[0] == run && here[1..] == rest && log + [] == log;
      if run.status == "requires_action" {
        if run.toolCalls.None? {
          return Raised(MissingRequiredAction), log;
        }
        var batch := RunToolCalls(threadId, run.id, run.toolCalls.value, w);
        if batch.error.Some? {
          return Raised(batch.error.value), log + batch.log;
        }
        assert Poll(threadId, here, w).1 == batch.log + Poll(threadId, rest, w).1;
        log := log + batch.log;
      }
      assert Poll(threadId, here, w).0 == Poll(threadId, rest, w).0;
      assert Poll(threadId, trace, w).1 == log + Poll(threadId, rest, w).1;
      if next == |trace| {
        assert rest == [] && Poll(threadId, rest, w) == (StillPolling, []) && log + [] == log;
        return StillPolling, log;
      }
      run := trace[next];
      next := next + 1;
    }
    assert trace[next - 1..][0] == run && log + [] == log;
    outcome := Completed(run);
  }

  // ---------------------------------------------------------------------
  // What the poll loop guarantees

  /** The loop exits normally only on a retrieved status of exactly
      `completed`: the first such state in the trace, reached with no exception. */
  lemma {:induction false} OnlyCompletedExits(threadId: string, trace: seq<RunState>, w: World)
    ensures Poll(threadId, trace, w).0.Completed? ==>
      exists k :: 0 <= k < |trace| && trace[k] == Poll(threadId, trace, w).0.run
        && trace[k].status == "completed"
        && forall j :: 0 <= j < k ==> trace[j].status != "completed"
    decreases |trace|
  {
    if trace != [] && trace[0].status != "completed" {
      OnlyCompletedExits(threadId, trace[1..], w);
      if Poll(threadId, trace, w).0.Completed? {
        var k :| 0 <= k < |trace[1..]| && trace[1..][k] == Poll(threadId, trace[1..], w).0.run
          && trace[1..][k].status == "completed"
          && forall j :: 0 <= j < k ==> trace[1..][j].status != "completed";
        assert trace[k + 1] == trace[1..][k];
        assert forall j :: 1 <= j < k + 1 ==> trace[j] == trace[1..][j - 1];
      }
    }
  }

  /** `failed`, `cancelled`, `expired` and every other status but `completed`
      and `requires_action` lead to one more retrieval and nothing else. */
  lemma OtherStatusesPollAgain(threadId: string, trace: seq<RunState>, w: World)
    requires trace != [] && trace[0].status != "completed" && trace[0].status != "requires_action"
    ensures Poll(threadId, trace, w) == Poll(threadId, trace[1..], w)
  {
  }

  /** A run that never reports `completed` or `requires_action` (say it stays
      `failed`) keeps the runner polling with no effect until the trace ends. */
  lemma {:induction false} TerminalLookingStatusesNeverExit(threadId: string, trace: seq<RunState>, w: World)
    requires forall j :: 0 <= j < |trace| ==>
      trace[j].status != "completed" && trace[j].status != "requires_action"
    ensures Poll(threadId, trace, w) == (StillPolling, [])
    decreases |trace|
  {
    if trace != [] {
      TerminalLookingStatusesNeverExit(threadId, trace[1..], w);
    }
  }

  /** A run already completed at the first retrieval: nothing is invoked or
      submitted. */
  lemma AlreadyCompletedDoesNothing(threadId: string, trace: seq<RunState>, w: World)
    requires trace != [] && trace[0].status == "completed"
    ensures Poll(threadId, trace, w) == (Completed(trace[0]), [])
  {
  }

  /** The batch loop of `process_thread_run` over any per-call `handle`. */
  function BatchOf(calls: seq<ToolCall>, handle: ToolCall -> Effects): Effects
    decreases |calls|
  {
    if calls == [] then Effects([], None)
    else
      var first := handle(calls[0]);
      if first.error.Some? then first
      else
        var rest := BatchOf(calls[1..], handle);
        Effects(first.log + rest.log, rest.error)
  }

  /** `HandleBatch` is the batch loop over `HandleToolCall`. */
  lemma {:induction false} HandleBatchIsBatchOf(threadId: string, runId: string, calls: seq<ToolCall>, w: World)
    ensures HandleBatch(threadId, runId, calls, w) == BatchOf(calls, c => HandleToolCall(threadId, runId, c, w))
    decreases |calls|
  {
    if calls != [] {
      HandleBatchIsBatchOf(threadId, runId, calls[1..], w);
    }
  }

  /** When every successful call leaves two events, a batch that raises
      nothing holds each call's two events at positions `2 * i` and `2 * i + 1`. */
  lemma {:induction false} BatchOfLogs(calls: seq<ToolCall>, handle: ToolCall -> Effects)
    requires forall c :: handle(c).error.None? ==> |handle(c).log| == 2
    requires BatchOf(calls, handle).error.None?
    ensures var log := BatchOf(calls, handle).log;
      && |log| == 2 * |calls|
      && forall i :: 0 <= i < |calls| ==>
        && handle(calls[i]).error.None?
        && log[2 * i] == handle(calls[i]).log[0]
        && log[2 * i + 1] == handle(calls[i]).log[1]
    decreases |calls|
  {
    if calls != [] {
      var rest := calls[1..];
      BatchOfLogs(rest, handle);
      forall i | 1 <= i < |calls|
        ensures handle(calls[i]) == handle(rest[i - 1])
      {
        assert calls[i] == rest[i - 1];
      }
    }
  }

  /** `invoked` and `submitted` are what a successful `call` leaves in the log:
      its decoded arguments passed to the registered function, then one
      submission of that function's response under the call's id. */
  predicate AnsweredBy(threadId: string, runId: string, call: ToolCall, w: World, invoked: Event, submitted: Event) {
    && w.decodeJson(call.arguments).Some?
    && call.name in FunctionMapping
    && var arguments := w.decodeJson(call.arguments).value;
    var response := Invoke(FunctionMapping[call.name], arguments, w);
    && response.Ok?
    && invoked == Invoked(call.name, arguments)
    && submitted == Submitted(SubmitToolOutputs(threadId, runId, call.id, response.value))
  }

  /** A call that raises nothing leaves exactly its invocation and its submission. */
  lemma OneCallAnswered(threadId: string, runId: string, call: ToolCall, w: World)
    requires HandleToolCall(threadId, runId, call, w).error.None?
    ensures var log := HandleToolCall(threadId, runId, call, w).log;
      |log| == 2 && AnsweredBy(threadId, runId, call, w, log[0], log[1])
  {
  }

  /** A batch that raises nothing invokes its calls in the order given, each
      followed by exactly one submission of that call's id and one output. */
  lemma BatchInOrder(threadId: string, runId: string, calls: seq<ToolCall>, w: World)
    requires HandleBatch(threadId, runId, calls, w).error.None?
    ensures var log := HandleBatch(threadId, runId, calls, w).log;
      && |log| == 2 * |calls|
      && forall i :: 0 <= i < |calls| ==> AnsweredBy(threadId, runId, calls[i], w, log[2 * i], log[2 * i + 1])
  {
    var handle := c => HandleToolCall(threadId, runId, c, w);
    HandleBatchIsBatchOf(threadId, runId, calls, w);
    forall c | handle(c).error.None?
      ensures |handle(c).log| == 2
    {
      OneCallAnswered(threadId, runId, c, w);
    }
    BatchOfLogs(calls, handle);
    var log := HandleBatch(threadId, runId, calls, w).log;
    forall i | 0 <= i < |calls|
      ensures AnsweredBy(threadId, runId, calls[i], w, log[2 * i], log[2 * i + 1])
    {
      OneCallAnswered(threadId, runId, calls[i], w);
    }
  }

  /** A batch whose first `k` calls succeed and whose call `k` raises keeps the
      submissions already made for the first `k` and stops there. */
  lemma {:induction false} BatchStopsAtFirstFailure(threadId: string, runId: string, calls: seq<ToolCall>,
                                                    w: World, k: int)
    requires 0 <= k < |calls|
    requires forall i :: 0 <= i < k ==> HandleToolCall(threadId, runId, calls[i], w).error.None?
    requires HandleToolCall(threadId, runId, calls[k], w).error.Some?
    ensures HandleBatch(threadId, runId, calls, w).error == HandleToolCall(threadId, runId, calls[k], w).error
    ensures HandleBatch(threadId, runId, calls, w).log
      == HandleBatch(threadId, runId, calls[..k], w).log + HandleToolCall(threadId, runId, calls[k], w).log
    ensures HandleBatch(threadId, runId, calls[..k], w).error.None?
    decreases k
  {
    if k > 0 {
      var tail := calls[1..];
      assert tail[..k - 1] == calls[..k][1..];
      assert tail[k - 1] == calls[k];
      forall i | 0 <= i < k - 1
        ensures HandleToolCall(threadId, runId, tail[i], w).error.None?
      {
        assert tail[i] == calls[i + 1];
      }
      BatchStopsAtFirstFailure(threadId, runId, tail, w, k - 1);
      var first := HandleToolCall(threadId, runId, calls[0], w);
      assert first.error.None?;
      assert calls[..k][0] == calls[0];
      calc {
        HandleBatch(threadId, runId, calls, w).log;
        first.log + HandleBatch(threadId, runId, tail, w).log;
        first.log + (HandleBatch(threadId, runId, tail[..k - 1], w).log
          + HandleToolCall(threadId, runId, calls[k], w).log);
        (first.log + HandleBatch(threadId, runId, calls[..k][1..], w).log)
          + HandleToolCall(threadId, runId, calls[k], w).log;
        HandleBatch(threadId, runId, calls[..k], w).log + HandleToolCall(threadId, runId, calls[k], w).log;
      }
    } else {
      assert calls[..0] == [];
    }
  }

  /** An unknown name aborts the batch before that call is invoked or
      submitted; what the earlier calls submitted stays submitted. */
  lemma UnknownFunctionAbortsBatch(threadId: string, runId: string, calls: seq<ToolCall>, w: World, k: int)
    requires 0 <= k < |calls|
    requires forall i :: 0 <= i < k ==> HandleToolCall(threadId, runId, calls[i], w).error.None?
    requires w.decodeJson(calls[k].arguments).Some? && calls[k].name !in FunctionMapping
    ensures HandleBatch(threadId, runId, calls, w)
      == Effects(HandleBatch(threadId, runId, calls[..k], w).log, Some(UnknownFunction(calls[k].name)))
  {
    BatchStopsAtFirstFailure(threadId, runId, calls, w, k);
  }

  /** The arguments are decoded before the name is checked: malformed arguments
      raise the decoding error even under an unknown name. */
  lemma DecodeBeforeNameCheck(threadId: string, runId: string, call: ToolCall, w: World)
    requires w.decodeJson(call.arguments).None?
    ensures HandleToolCall(threadId, runId, call, w) == Effects([], Some(MalformedJson))
  {
  }

  /** Each submission answers a tool call of a run the runner saw in state
      `requires_action`, under that run's id and the runner's thread. */
  lemma {:induction false} SubmissionsAnswerObservedCalls(threadId: string, trace: seq<RunState>, w: World)
    ensures forall e :: e in Poll(threadId, trace, w).1 && e.Submitted? ==>
      && e.submission.threadId == threadId
      && |e.submission.toolOutputs| == 1
      && (exists j :: 0 <= j < |trace| && trace[j].status == "requires_action" && trace[j].toolCalls.Some?
            && e.submission.runId == trace[j].id
            && exists c :: c in trace[j].toolCalls.value && c.id == e.submission.toolOutputs[0].toolCallId)
    decreases |trace|
  {
    if trace != [] && trace[0].status != "completed" {
      SubmissionsAnswerObservedCalls(threadId, trace[1..], w);
      assert forall j :: 1 <= j < |trace| ==> trace[j] == trace[1..][j - 1];
      if trace[0].status == "requires_action" && trace[0].toolCalls.Some? {
        BatchSubmissionsAnswerCalls(threadId, trace[0].id, trace[0].toolCalls.value, w);
      }
      forall e | e in Poll(threadId, trace, w).1 && e.Submitted?
        ensures (exists j :: 0 <= j < |trace| && trace[j].status == "requires_action" && trace[j].toolCalls.Some?
                   && e.submission.runId == trace[j].id
                   && exists c :: c in trace[j].toolCalls.value && c.id == e.submission.toolOutputs[0].toolCallId)
      {
        if trace[0].status == "requires_action" && trace[0].toolCalls.Some?
          && e in HandleBatch(threadId, trace[0].id, trace[0].toolCalls.value, w).log {
          assert 0 < |trace|;
        } else {
          var j :| 0 <= j < |trace[1..]| && trace[1..][j].status == "requires_action" && trace[1..][j].toolCalls.Some?
            && e.submission.runId == trace[1..][j].id
            && exists c :: c in trace[1..][j].toolCalls.value && c.id == e.submission.toolOutputs[0].toolCallId;
          assert trace[j + 1] == trace[1..][j];
        }
      }
    }
  }

  lemma {:induction false} BatchSubmissionsAnswerCalls(threadId: string, runId: string, calls: seq<ToolCall>, w: World)
    ensures forall e :: e in HandleBatch(threadId, runId, calls, w).log && e.Submitted? ==>
      && e.submission == Submission(threadId, runId, e.submission.toolOutputs)
      && |e.submission.toolOutputs| == 1
      && exists c :: c in calls && c.id == e.submission.toolOutputs[0].toolCallId
    decreases |calls|
  {
    if calls != [] {
      BatchSubmissionsAnswerCalls(threadId, runId, calls[1..], w);
      forall c | c in calls[1..] ensures c in calls { }
    }
  }

  /** The scripted run `queued, in_progress, requires_action` with one call to
      `get_use_case_details`, then `completed`: one invocation, one submission,
      then the loop exits. */
  lemma OneToolCallScenario(threadId: string, runId: string, callId: string, arguments: string,
                            useCaseId: Value, w: World)
    requires w.decodeJson(arguments) == Some(Obj([("use_case_id", useCaseId)]))
    requires Invoke(GetUseCaseDetailsFn, Obj([("use_case_id", useCaseId)]), w).Ok?
    ensures var call := ToolCall(callId, "get_use_case_details", arguments);
      var trace := [RunState(runId, "queued", None), RunState(runId, "in_progress", None),
                    RunState(runId, "requires_action", Some([call])), RunState(runId, "completed", None)];
      var response := Invoke(GetUseCaseDetailsFn, Obj([("use_case_id", useCaseId)]), w).value;
      Poll(threadId, trace, w)
        == (Completed(trace[3]),
            [Invoked("get_use_case_details", Obj([("use_case_id", useCaseId)])),
             Submitted(Submission(threadId, runId, [ToolOutput(callId, response)]))])
  {
    var call := ToolCall(callId, "get_use_case_details", arguments);
    var trace := [RunState(runId, "queued", None), RunState(runId, "in_progress", None),
                  RunState(runId, "requires_action", Some([call])), RunState(runId, "completed", None)];
    var arg := Obj([("use_case_id", useCaseId)]);
    var response := Invoke(GetUseCaseDetailsFn, arg, w).value;
    var events := [Invoked("get_use_case_details", arg),
                   Submitted(Submission(threadId, runId, [ToolOutput(callId, response)]))];
    assert FunctionMapping["get_use_case_details"] == GetUseCaseDetailsFn;
    assert HandleToolCall(threadId, runId, call, w) == Effects(events, None);
    assert [call][1..] == [];
    assert HandleBatch(threadId, runId, [call], w) == Effects(events + [], None);
    assert trace[3..][0] == trace[3];
    assert Poll(threadId, trace[3..], w) == (Completed(trace[3]), []);
    var t2 := trace[2..];
    assert t2[0] == RunState(runId, "requires_action", Some([call])) && t2[1..] == trace[3..];
    assert events + [] == events;
    assert Poll(threadId, t2, w) == (Completed(trace[3]), events);
    assert trace[1..][0] == trace[1] && trace[1..][1..] == trace[2..];
    assert Poll(threadId, trace[1..], w) == Poll(threadId, trace[2..], w);
  }

  /** A call to the unregistered `delete_everything` raises `UnknownFunction`
      and submits nothing. */
  lemma UnregisteredFunctionScenario(threadId: string, runId: string, callId: string, arguments: string,
                                     decoded: Value, w: World)
    requires w.decodeJson(arguments) == Some(decoded)
    ensures var trace := [RunState(runId, "requires_action",
                                   Some([ToolCall(callId, "delete_everything", arguments)]))];
      Poll(threadId, trace, w) == (Raised(UnknownFunction("delete_everything")), [])
  {
    assert "delete_everything" !in FunctionMapping;
  }
}
