/** The decision logic of the Flask backend: validation of a `/chat`
    request, the mapping from a Celery task's state to the `/api/result`
    reply, the way the worker task turns Ollama's answer into its result
    record, and the `/health` classification.

    Flask, Celery, Redis and the HTTP calls to Ollama are not modelled;
    what they produce is an input: the parsed request body, whether the
    task could be queued, the task's stored state and result, and what the
    Ollama call returned or raised. */
module Backend {
  import opened Wrappers
  import opened Text

  /** A JSON value as Python sees it once `json` has decoded it: `None`,
      `bool`, a number, `str`, `list` or `dict`. Numbers are integers
      here. */
  datatype JsonValue =
    | JNull
    | JBool(b: bool)
    | JNum(n: int)
    | JStr(s: string)
    | JArr(items: seq<JsonValue>)
    | JObj(fields: map<string, JsonValue>)

  /** Python's truth value of a decoded JSON value. */
  predicate Truthy(v: JsonValue) {
    match v
    case JNull => false
    case JBool(b) => b
    case JNum(n) => n != 0
    case JStr(s) => s != []
    case JArr(items) => items != []
    case JObj(fields) => fields != map[]
  }

  /** The name Python gives the type of a decoded JSON value, as it appears
      in `TypeError` and `AttributeError` messages. */
  function TypeName(v: JsonValue): string {
    match v
    case JNull => "NoneType"
    case JBool(_) => "bool"
    case JNum(_) => "int"
    case JStr(_) => "str"
    case JArr(_) => "list"
    case JObj(_) => "dict"
  }

  /** The text of the `AttributeError` raised when `attr` is looked up on an
      object whose type is named `typeName`. */
  function NoAttribute(typeName: string, attr: string): string {
    "'" + typeName + "' object has no attribute '" + attr + "'"
  }

  /** `t` occurs in `s` as a contiguous piece: Python's `t in s` on two
      strings. */
  predicate Contains(s: string, t: string)
    decreases |s|
  {
    t <= s || (s != [] && Contains(s[1..], t))
  }

  /** Python's `dict.get(key, default)`. */
  function Get(fields: map<string, JsonValue>, key: string, default: JsonValue): (r: JsonValue)
    ensures key in fields ==> r == fields[key]
    ensures key !in fields ==> r == default
  {
    if key in fields then fields[key] else default
  }

  /** The model the backend uses when a request names none: the
      `MODEL_NAME` environment variable, or `llama2` when it is unset. */
  function ModelName(env: Option<string>): (r: string)
    ensures env.None? ==> r == "llama2"
    ensures env.Some? ==> r == env.value
  {
    env.GetOr("llama2")
  }

  /** A reply: its HTTP status and the JSON object `jsonify` renders. */
  datatype HttpReply = HttpReply(code: int, body: map<string, JsonValue>)

  // ---------------------------------------------------------------------
  // POST /chat

  /** What `request.get_json()` did: raised (its exception's text), or
      returned a value (`None` is `JNull`). */
  datatype RequestBody = BodyRaised(detail: string) | Parsed(data: JsonValue)

  /** What `apply_async` did: queued the task under an id, or raised. */
  datatype Dispatch = Queued(taskId: string) | DispatchRaised(detail: string)

  /** The arguments a queued worker task receives. */
  datatype TaskArgs = TaskArgs(message: string, model: JsonValue)

  /** The reply to a `/chat` request, and the task it queued, if any. */
  datatype ChatOutcome = ChatOutcome(reply: HttpReply, queued: Option<TaskArgs>)

  const MissingField: string := "Missing required field: message"
  const EmptyMessage: string := "Message cannot be empty"

  function ErrorReply(code: int, error: string): HttpReply {
    HttpReply(code, map["error" := JStr(error)])
  }

  function ServerError(detail: string): ChatOutcome {
    ChatOutcome(ErrorReply(500, "Server error: " + detail), None)
  }

  /** The `'message' in data` test, or the `TypeError` text it raises for a
      value that is not a container. */
  function HasMessageKey(data: JsonValue): Result {
    match data
    case JStr(s) => Ok(Contains(s, "message"))
    case JArr(items) => Ok(JStr("message") in items)
    case JObj(fields) => Ok("message" in fields)
    case _ => Raised("argument of type '" + TypeName(data) + "' is not iterable")
  }

  /** A membership test's answer, or the text of what it raised. */
  datatype Result = Ok(holds: bool) | Raised(detail: string)

  /** The `/chat` handler. */
  function Chat(request: RequestBody, dispatch: Dispatch, modelName: string): (r: ChatOutcome)
    ensures r.queued.Some? <==> r.reply.code == 202
    ensures r.reply.code == 202 || r.reply.code == 400 || r.reply.code == 500
  {
    match request
    case BodyRaised(detail) => ServerError(detail)
    case Parsed(data) =>
      if !Truthy(data) then ChatOutcome(ErrorReply(400, MissingField), None)
      else match HasMessageKey(data)
        case Raised(detail) => ServerError(detail)
        case Ok(present) =>
          if !present then ChatOutcome(ErrorReply(400, MissingField), None)
          else if !data.JObj? then ServerError(NoAttribute(TypeName(data), "get"))
          else
            var raw := data.fields["message"];
            if !raw.JStr? then ServerError(NoAttribute(TypeName(raw), "strip"))
            else
              var message := PyStrip(raw.s);
              if message == [] then ChatOutcome(ErrorReply(400, EmptyMessage), None)
              else
                var model := Get(data.fields, "model", JStr(modelName));
                match dispatch
                case DispatchRaised(detail) => ServerError(detail)
                case Queued(taskId) =>
                  ChatOutcome(
                    HttpReply(202, map["task_id" := JStr(taskId), "status" := JStr("PENDING"),
                                       "message" := JStr("Task created successfully")]),
                    Some(TaskArgs(message, model)))
  }

  /** A body that is falsy, or an object without a `message` key, is
      refused with 400 and the missing-field error, and no task is
      queued. */
  lemma {:induction false} ChatRejectsMissingMessage(data: JsonValue, dispatch: Dispatch, modelName: string)
    requires !Truthy(data) || (data.JObj? && "message" !in data.fields)
    ensures Chat(Parsed(data), dispatch, modelName) == ChatOutcome(ErrorReply(400, MissingField), None)
  {
  }

  /** A `message` that is blank once stripped is refused with 400 and the
      empty-message error, and no task is queued. */
  lemma {:induction false} ChatRejectsBlankMessage(fields: map<string, JsonValue>, dispatch: Dispatch, modelName: string)
    requires "message" in fields && fields["message"].JStr?
    requires AllSpace(fields["message"].s, PySpace)
    ensures Chat(Parsed(JObj(fields)), dispatch, modelName) == ChatOutcome(ErrorReply(400, EmptyMessage), None)
  {
  }

  /** A request is accepted with 202 exactly when it is an object whose
      `message` is a string that is not blank once stripped and the task
      could be queued. The task then receives the stripped message, which
      has no surrounding whitespace left, and the requested model or the
      configured one; the reply carries the task id and status
      `PENDING`. */
  lemma {:induction false} ChatAccepts(request: RequestBody, dispatch: Dispatch, modelName: string)
    ensures var r := Chat(request, dispatch, modelName);
      r.reply.code == 202 <==>
        && request.Parsed? && request.data.JObj?
        && "message" in request.data.fields && request.data.fields["message"].JStr?
        && !AllSpace(request.data.fields["message"].s, PySpace)
        && dispatch.Queued?
    ensures var r := Chat(request, dispatch, modelName);
      r.reply.code == 202 ==>
        var fields := request.data.fields;
        && r.queued == Some(TaskArgs(PyStrip(fields["message"].s), Get(fields, "model", JStr(modelName))))
        && PyStrip(r.queued.value.message) == r.queued.value.message
        && r.reply.body["task_id"] == JStr(dispatch.taskId)
        && r.reply.body["status"] == JStr("PENDING")
  {
    var r := Chat(request, dispatch, modelName);
    if r.reply.code == 202 {
      TrimIdempotent(request.data.fields["message"].s, PySpace);
    }
  }

  // ---------------------------------------------------------------------
  // The worker task process_ollama_request

  /** What the call to Ollama's `/api/generate` ended in: the timeout, any
      other `requests` exception (connection failure, an HTTP error status,
      a body that is not JSON), any other exception, or the decoded JSON
      body. */
  datatype OllamaOutcome =
    | TimedOut
    | RequestFailed(detail: string)
    | Unexpected(detail: string)
    | Replied(json: JsonValue)

  const TimeoutError: string := "Request timeout. The model took too long to respond."

  function Failure(error: string): map<string, JsonValue> {
    map["status" := JStr("FAILURE"), "error" := JStr(error)]
  }

  /** The record the worker task returns. It never raises: every failure
      becomes a record whose `status` is `FAILURE`. */
  function ProcessRequest(outcome: OllamaOutcome, model: JsonValue): (r: map<string, JsonValue>)
    ensures "status" in r && (r["status"] == JStr("SUCCESS") || r["status"] == JStr("FAILURE"))
    ensures r["status"] == JStr("SUCCESS") <==> outcome.Replied? && outcome.json.JObj?
    ensures r["status"] == JStr("FAILURE") <==> "error" in r && "result" !in r
  {
    match outcome
    case TimedOut => Failure(TimeoutError)
    case RequestFailed(detail) => Failure("Failed to connect to Ollama: " + detail)
    case Unexpected(detail) => Failure("An unexpected error occurred: " + detail)
    case Replied(json) =>
      if json.JObj? then
        map["status" := JStr("SUCCESS"), "result" := Get(json.fields, "response", JStr([])), "model" := model]
      else Failure("An unexpected error occurred: " + NoAttribute(TypeName(json), "get"))
  }

  /** A successful call yields the `response` field of Ollama's answer, or
      the empty string when it has none, together with the model; a timeout
      yields the fixed timeout error. */
  lemma {:induction false} ProcessRequestResult(outcome: OllamaOutcome, model: JsonValue)
    ensures outcome.Replied? && outcome.json.JObj? ==>
      var r := ProcessRequest(outcome, model);
      && r["result"] == (if "response" in outcome.json.fields then outcome.json.fields["response"] else JStr([]))
      && r["model"] == model
    ensures outcome.TimedOut? ==> ProcessRequest(outcome, model)["error"] == JStr(TimeoutError)
  {
  }

  // ---------------------------------------------------------------------
  // GET /api/result/<task_id>

  /** What Celery holds as a task's result: a decoded JSON value (the
      record the task returned, or the `meta` of a custom state), or a
      stored exception, which Python treats as true and which has no
      `get`. */
  datatype TaskResult = Value(v: JsonValue) | Exception(typeName: string)

  /** The lookup of a task: it raised, or found the task's state and
      result. */
  datatype Lookup = LookupRaised(detail: string) | Found(state: string, result: TaskResult)

  function Waiting(state: string, message: string): HttpReply {
    HttpReply(200, map["status" := JStr(state), "result" := JNull, "message" := JStr(message)])
  }

  function LookupError(detail: string): HttpReply {
    HttpReply(500, map["status" := JStr("ERROR"), "error" := JStr("Server error: " + detail)])
  }

  /** `result.get(key, default)`, or the `AttributeError` text when the
      result is not a dictionary. */
  function ResultGet(result: TaskResult, key: string, default: JsonValue): Either {
    match result
    case Value(JObj(fields)) => Right(Get(fields, key, default))
    case Value(v) => Left(NoAttribute(TypeName(v), "get"))
    case Exception(name) => Left(NoAttribute(name, "get"))
  }

  /** A looked-up value, or the text of what the lookup raised. */
  datatype Either = Left(error: string) | Right(value: JsonValue)

  /** The `/api/result` handler. */
  function GetResult(lookup: Lookup, modelName: string): (r: HttpReply)
    ensures r.code == 200 || r.code == 500
    ensures "status" in r.body
  {
    match lookup
    case LookupRaised(detail) => LookupError(detail)
    case Found(state, result) =>
      if state == "PENDING" then Waiting(state, "Task is waiting to be processed")
      else if state == "PROCESSING" then Waiting(state, "Task is currently being processed")
      else if state == "SUCCESS" then
        match ResultGet(result, "result", JStr([]))
        case Left(e) => LookupError(e)
        case Right(text) =>
          match ResultGet(result, "model", JStr(modelName))
          case Left(e) => LookupError(e)
          case Right(model) =>
            HttpReply(200, map["status" := JStr("SUCCESS"), "result" := text, "model" := model])
      else if state == "FAILURE" then
        var stored := if result.Value? && !Truthy(result.v) then Value(JObj(map[])) else result;
        match ResultGet(stored, "error", JStr("Task failed"))
        case Left(e) => LookupError(e)
        case Right(error) =>
          HttpReply(200, map["status" := JStr("FAILURE"), "error" := error, "result" := JNull])
      else Waiting(state, "Task state: " + state)
  }

  /** Every reply with HTTP status 200 echoes the task's state as its
      `status`, and carries a `result` that is `null` unless the state is
      `SUCCESS`; a 500 reply has status `ERROR`. */
  lemma {:induction false} GetResultEchoesState(lookup: Lookup, modelName: string)
    ensures var r := GetResult(lookup, modelName);
      && (r.code == 200 ==>
            && lookup.Found?
            && r.body["status"] == JStr(lookup.state)
            && "result" in r.body
            && (lookup.state != "SUCCESS" ==> r.body["result"] == JNull))
      && (r.code == 500 ==> r.body["status"] == JStr("ERROR"))
  {
  }

  /** The replies for each state. `PENDING` and `PROCESSING` carry no
      result; `SUCCESS` with a dictionary carries its `result` (default the
      empty string) and `model` (default the configured model); `FAILURE`
      with an empty result carries the error `Task failed`, with a
      dictionary its `error` (default `Task failed`), and with a stored
      exception or any other value the `.get` raises and the reply is the
      500 server error; any other state is echoed with the message `Task state: ` and the state. */
  lemma {:induction false} GetResultStates(state: string, result: TaskResult, modelName: string)
    ensures state == "PENDING" || state == "PROCESSING" ==>
      var r := GetResult(Found(state, result), modelName);
      r.code == 200 && r.body["result"] == JNull && "message" in r.body
    ensures state == "SUCCESS" && result.Value? && result.v.JObj? ==>
      var fields := result.v.fields;
      GetResult(Found(state, result), modelName)
        == HttpReply(200, map["status" := JStr("SUCCESS"),
                              "result" := Get(fields, "result", JStr([])),
                              "model" := Get(fields, "model", JStr(modelName))])
    ensures state == "FAILURE" && result.Value? && !Truthy(result.v) ==>
      GetResult(Found(state, result), modelName)
        == HttpReply(200, map["status" := JStr("FAILURE"), "error" := JStr("Task failed"), "result" := JNull])
    ensures state == "FAILURE" && result.Value? && result.v.JObj? && Truthy(result.v) ==>
      GetResult(Found(state, result), modelName)
        == HttpReply(200, map["status" := JStr("FAILURE"),
                              "error" := Get(result.v.fields, "error", JStr("Task failed")),
                              "result" := JNull])
    ensures state == "FAILURE" && result.Exception? ==>
      GetResult(Found(state, result), modelName) == LookupError(NoAttribute(result.typeName, "get"))
    ensures state == "FAILURE" && result.Value? && Truthy(result.v) && !result.v.JObj? ==>
      GetResult(Found(state, result), modelName) == LookupError(NoAttribute(TypeName(result.v), "get"))
    ensures state !in ["PENDING", "PROCESSING", "SUCCESS", "FAILURE"] ==>
      GetResult(Found(state, result), modelName) == Waiting(state, "Task state: " + state)
  {
  }

  /** A task whose Ollama call failed still ends in Celery's `SUCCESS`
      state, because the task returns its failure record instead of
      raising. The handler then reports `SUCCESS` with an empty result and
      the configured model, and the error text is lost. */
  lemma {:induction false} FailedTaskReportedAsSuccess(outcome: OllamaOutcome, model: JsonValue, modelName: string)
    requires !(outcome.Replied? && outcome.json.JObj?)
    ensures var r := GetResult(Found("SUCCESS", Value(JObj(ProcessRequest(outcome, model)))), modelName);
      r == HttpReply(200, map["status" := JStr("SUCCESS"), "result" := JStr([]), "model" := JStr(modelName)])
  {
    var record := ProcessRequest(outcome, model);
    assert "result" !in record && "model" !in record;
  }

  /** The `/api/result` handler as its `FAILURE` branch evidently intends:
      a task that finished with a record whose `status` is `FAILURE` is
      reported as a failure with that record's error. Every other lookup is
      answered as before. */
  function GetResultCorrected(lookup: Lookup, modelName: string): (r: HttpReply)
    ensures lookup.Found? && lookup.state == "SUCCESS" && lookup.result.Value? && lookup.result.v.JObj?
            && Get(lookup.result.v.fields, "status", JNull) == JStr("FAILURE") ==>
              && "status" in r.body && r.body["status"] == JStr("FAILURE")
              && "result" in r.body && r.body["result"] == JNull
  {
    if lookup.Found? && lookup.state == "SUCCESS" && lookup.result.Value? && lookup.result.v.JObj?
       && Get(lookup.result.v.fields, "status", JNull) == JStr("FAILURE")
    then
      HttpReply(200, map["status" := JStr("FAILURE"),
                         "error" := Get(lookup.result.v.fields, "error", JStr("Task failed")),
                         "result" := JNull])
    else GetResult(lookup, modelName)
  }

  /** With the corrected handler, the reply for a finished task reports
      `SUCCESS` exactly when the Ollama call succeeded, and otherwise
      reports `FAILURE` with the task's own error text; it agrees with the
      handler as written on every successful task. */
  lemma {:induction false} CorrectedReportsTaskOutcome(outcome: OllamaOutcome, model: JsonValue, modelName: string)
    ensures var record := ProcessRequest(outcome, model);
      var r := GetResultCorrected(Found("SUCCESS", Value(JObj(record))), modelName);
      && (r.body["status"] == JStr("SUCCESS") <==> outcome.Replied? && outcome.json.JObj?)
      && (r.body["status"] == JStr("FAILURE") ==> r.body["error"] == record["error"])
      && (outcome.Replied? && outcome.json.JObj? ==> r == GetResult(Found("SUCCESS", Value(JObj(record))), modelName))
  {
    var record := ProcessRequest(outcome, model);
    if !(outcome.Replied? && outcome.json.JObj?) {
      assert record["status"] == JStr("FAILURE");
    }
  }

  // ---------------------------------------------------------------------
  // GET /health

  /** What the probe of Ollama's `/api/tags` did: raised, or answered with
      an HTTP status. */
  datatype HealthProbe = ProbeRaised | ProbeStatus(code: int)

  /** The `/health` handler. It always answers, with HTTP status 200. */
  function HealthCheck(probe: HealthProbe, modelName: string): (r: HttpReply)
    ensures r.code == 200
    ensures r.body.Keys == {"status", "ollama_connection", "model"}
    ensures r.body["status"] == JStr("running") && r.body["model"] == JStr(modelName)
    ensures r.body["ollama_connection"] == JStr("healthy") <==> probe == ProbeStatus(200)
    ensures r.body["ollama_connection"] == JStr("healthy") || r.body["ollama_connection"] == JStr("unhealthy")
  {
    var connection := if probe.ProbeStatus? && probe.code == 200 then "healthy" else "unhealthy";
    HttpReply(200, map["status" := JStr("running"), "ollama_connection" := JStr(connection),
                       "model" := JStr(modelName)])
  }
}
