/**
 * The JSON-RPC side of internal/mcp/server.go: the `handle` decision table,
 * `tools/call` dispatch onto the memory service, the request and error
 * counters, the request-log classification and the `Serve` loop.
 *
 * JSON itself is not modelled: a `Codec` supplies decoding of a payload into
 * a request, of params and arguments into the Go structs, and encoding of a
 * response into bytes. Requests arrive as a method name, an optional id and
 * optional params.
 */
module Server {
  import opened Wrappers
  import opened Types
  import opened Text
  import Tools
  import Memory
  import Store
  import Wire

  const JsonRpcVersion: string := "2.0"
  const DefaultProtocolVersion: string := "2024-11-05"
  const ServerName: string := "memory-mcp"
  const ServerVersion: string := "0.1.0"

  const MethodInitialized: string := "notifications/initialized"
  const MethodInitialize: string := "initialize"
  const MethodPing: string := "ping"
  const MethodToolsList: string := "tools/list"
  const MethodToolsCall: string := "tools/call"

  const ParseErrorCode: int := -32700
  const MethodNotFoundCode: int := -32601

  /** The counters are uint64: they wrap at 2^64. */
  const CounterModulus: int := 0x1_0000_0000_0000_0000

  /** A decoded request; an id that is present may still be JSON null. */
  datatype Request = Request(id: Option<Json>, methodName: string, params: Option<Json>)

  datatype RpcError = RpcError(code: int, message: string, data: Json)

  /** A response; an id or result of JNull, like Go's nil, is omitted on the wire. */
  datatype Response = Response(jsonrpc: string, id: Json, result: Option<Json>, error: Option<RpcError>)

  /** The params of `tools/call`. */
  datatype Call = Call(name: string, arguments: Option<Json>)

  /** What a tool handler returns on success, before it is encoded. */
  datatype ToolOutput =
    | Written(record: MemoryRecord)
    | Found(results: seq<SearchResult>)
    | Packed(pack: ContextPack)
    | Promoted(record: MemoryRecord)

  /**
   * encoding/json as the server uses it. Each decoder fails with the error
   * text of the library; `indent` is `MarshalIndent(v, "", "  ")`.
   */
  datatype Codec = Codec(
    request: seq<Wire.byte> -> Result<Request, string>,
    response: Response -> seq<Wire.byte>,
    call: Option<Json> -> Result<Call, string>,
    protocolVersion: Option<Json> -> string,
    writeInput: Option<Json> -> Result<WriteInput, string>,
    searchInput: Option<Json> -> Result<SearchInput, string>,
    packInput: Option<Json> -> Result<ContextPackInput, string>,
    promoteInput: Option<Json> -> Result<PromoteInput, string>,
    structured: ToolOutput -> Json,
    indent: ToolOutput -> string)

  /** What `recordRequest` hands to the request-log sink (timings left out). */
  datatype RequestLog = RequestLog(methodName: string, toolName: string, success: bool, errorText: string)

  datatype Counters = Counters(requests: nat, errors: nat)

  // ---------------------------------------------------------------------------
  // Responses

  /** `decodeID`: an absent id is nil. */
  function DecodeId(raw: Option<Json>): (id: Json)
    ensures raw.Some? ==> id == raw.value
    ensures raw.None? ==> id == JNull
  {
    if raw.None? then JNull else raw.value
  }

  function ErrorResponse(id: Json, code: int, message: string, data: Json): (r: Response)
    ensures r.jsonrpc == JsonRpcVersion && r.id == id && r.result.None?
    ensures r.error == Some(RpcError(code, message, data))
  {
    Response(JsonRpcVersion, id, None, Some(RpcError(code, message, data)))
  }

  function ResultResponse(id: Json, result: Json): Response {
    Response(JsonRpcVersion, id, Some(result), None)
  }

  /** The `response{}` of a notification that gets no reply. */
  const NoResponse: Response := Response("", JNull, None, None)

  function TextContent(text: string): Json {
    JArray([JObject(map["type" := JString("text"), "text" := JString(text)])])
  }

  /** `toolSuccess`: the indented JSON as text, the value itself as structured content. */
  function ToolSuccess(codec: Codec, v: ToolOutput): (r: Json)
    ensures r.JObject? && "isError" in r.fields && r.fields["isError"] == JBool(false)
    ensures "structuredContent" in r.fields && r.fields["structuredContent"] == codec.structured(v)
    ensures "content" in r.fields && r.fields["content"] == TextContent(codec.indent(v))
  {
    JObject(map[
      "content" := TextContent(codec.indent(v)),
      "structuredContent" := codec.structured(v),
      "isError" := JBool(false)])
  }

  /** The result of a `tools/call` whose handler failed. */
  function ToolFailure(message: string): Json {
    JObject(map["content" := TextContent(message), "isError" := JBool(true)])
  }

  function InitializeResult(protocolVersion: string): Json {
    JObject(map[
      "protocolVersion" := JString(protocolVersion),
      "capabilities" := JObject(map["tools" := JObject(map["listChanged" := JBool(false)])]),
      "serverInfo" := JObject(map["name" := JString(ServerName), "version" := JString(ServerVersion)])])
  }

  /** The protocol version `initialize` answers with: the client's, or the default when blank. */
  function AnsweredVersion(requested: string): (v: string)
    ensures !IsBlank(v)
    ensures !IsBlank(requested) ==> v == requested
  {
    if IsBlank(requested) then DefaultProtocolVersion
    else requested
  }

  predicate KnownMethod(methodName: string) {
    methodName == MethodInitialize || methodName == MethodPing || methodName == MethodToolsList || methodName == MethodToolsCall
  }

  /**
   * `handle` after the counters: the response and whether to send it, given
   * what `handleToolCall` returned (used only for `tools/call`).
   */
  function Answer(codec: Codec, req: Request, call: Result<Json, string>): (r: (Response, bool))
    ensures r.1 ==> r.0.jsonrpc == JsonRpcVersion && r.0.id == DecodeId(req.id)
    ensures r.0.error.Some? ==> r.1 && r.0.error.value.code == MethodNotFoundCode
  {
    var hasId := req.id.Some?;
    var id := DecodeId(req.id);
    if req.methodName == MethodInitialized then (NoResponse, false)
    else if req.methodName == MethodInitialize then
      (ResultResponse(id, InitializeResult(AnsweredVersion(codec.protocolVersion(req.params)))), hasId)
    else if req.methodName == MethodPing then (ResultResponse(id, JObject(map[])), hasId)
    else if req.methodName == MethodToolsList then
      (ResultResponse(id, JObject(map["tools" := Tools.DefinitionsJson(Tools.ToolDefinitions())])), hasId)
    else if req.methodName == MethodToolsCall then
      match call
      case Failure(message) => (ResultResponse(id, ToolFailure(message)), hasId)
      case Success(result) => (ResultResponse(id, result), hasId)
    else if !hasId then (NoResponse, false)
    else (ErrorResponse(id, MethodNotFoundCode, "method not found", JString(req.methodName)), true)
  }

  /** A reply is sent exactly when the request has an id and is not the initialized notification. */
  lemma AnswerReplies(codec: Codec, req: Request, call: Result<Json, string>)
    ensures Answer(codec, req, call).1 <==> req.methodName != MethodInitialized && req.id.Some?
    ensures Answer(codec, req, call).1 ==>
      Answer(codec, req, call).0.jsonrpc == JsonRpcVersion && Answer(codec, req, call).0.id == DecodeId(req.id)
  {
  }

  /** Only an unknown method with an id gets an RPC error, and that error is -32601. */
  lemma AnswerMethodNotFound(codec: Codec, req: Request, call: Result<Json, string>)
    ensures Answer(codec, req, call).0.error.Some? <==> !KnownMethod(req.methodName) && req.methodName != MethodInitialized && req.id.Some?
    ensures !KnownMethod(req.methodName) && req.methodName != MethodInitialized && req.id.Some? ==>
      Answer(codec, req, call).0 == ErrorResponse(DecodeId(req.id), MethodNotFoundCode, "method not found", JString(req.methodName))
  {
  }

  /** `initialize` answers with the requested version, or 2024-11-05 when that is blank. */
  lemma AnswerInitialize(codec: Codec, req: Request, call: Result<Json, string>)
    requires req.methodName == MethodInitialize
    ensures var v := codec.protocolVersion(req.params);
      Answer(codec, req, call).0.result == Some(InitializeResult(if IsBlank(v) then DefaultProtocolVersion else v))
  {
  }

  /** A failed tool call is an error result, not an RPC error, and is logged as a failure with its text. */
  lemma AnswerToolCall(codec: Codec, req: Request, call: Result<Json, string>)
    requires req.methodName == MethodToolsCall
    ensures Answer(codec, req, call).0.error.None?
    ensures call.Failure? ==> !ResponseSuccessful(Answer(codec, req, call).0)
    ensures call.Failure? ==>
      ResponseErrorText(Answer(codec, req, call).0) == if IsBlank(call.error) then "tool call failed" else TrimSpace(call.error)
  {
    if call.Failure? {
      assert Answer(codec, req, call).0 == ResultResponse(DecodeId(req.id), ToolFailure(call.error));
      ToolFailureClassified(DecodeId(req.id), call.error);
    }
  }

  lemma ToolFailureClassified(id: Json, message: string)
    ensures !ResponseSuccessful(ResultResponse(id, ToolFailure(message)))
    ensures ResponseErrorText(ResultResponse(id, ToolFailure(message))) ==
      if IsBlank(message) then "tool call failed" else TrimSpace(message)
  {
    ToolFailureFields(message);
    FirstTextOf(message);
  }

  lemma ToolFailureFields(message: string)
    ensures IsErrorResult(ToolFailure(message).fields)
    ensures "content" in ToolFailure(message).fields && ToolFailure(message).fields["content"] == TextContent(message)
  {
  }

  lemma FirstTextOf(message: string)
    ensures FirstText(TextContent(message)) == if IsBlank(message) then "tool call failed" else TrimSpace(message)
  {
    var first := TextContent(message).items[0].fields;
    assert "text" in first && first["text"] == JString(message);
  }

  // ---------------------------------------------------------------------------
  // Request-log classification

  /** `result["isError"].(bool)` holds and is true. */
  predicate IsErrorResult(f: map<string, Json>) {
    "isError" in f && f["isError"].JBool? && f["isError"].b
  }

  /** `responseSuccessful`: no RPC error and no `isError: true` in a map result. */
  function ResponseSuccessful(resp: Response): (ok: bool)
    ensures ok ==> resp.error.None?
    ensures resp.error.None? && (resp.result.None? || !resp.result.value.JObject?) ==> ok
  {
    if resp.error.Some? then false
    else match resp.result
      case Some(JObject(f)) => !IsErrorResult(f)
      case _ => true
  }

  /** The `[]map[string]any` type assertion on a result's content. */
  predicate IsObjectList(j: Json) {
    j.JArray? && forall k :: 0 <= k < |j.items| ==> j.items[k].JObject?
  }

  /** The first content item's text, trimmed, or "tool call failed" when there is none. */
  function FirstText(content: Json): string {
    if !(IsObjectList(content) && |content.items| > 0) then "tool call failed"
    else
      var first := content.items[0].fields;
      var text := if "text" in first && first["text"].JString? then TrimSpace(first["text"].s) else "";
      if text == [] then "tool call failed" else text
  }

  /** `responseErrorText`: the RPC message, or the first content text of an error result. */
  function ResponseErrorText(resp: Response): (text: string)
    ensures ResponseSuccessful(resp) ==> text == ""
    ensures resp.error.Some? ==> text == TrimSpace(resp.error.value.message)
  {
    if resp.error.Some? then TrimSpace(resp.error.value.message)
    else match resp.result
      case Some(JObject(f)) =>
        if !IsErrorResult(f) then ""
        else if "content" !in f then "tool call failed"
        else FirstText(f["content"])
      case _ => ""
  }

  /** A response with an error text is never successful; an unsuccessful result always has one. */
  lemma ErrorTextMeansFailure(resp: Response)
    ensures ResponseErrorText(resp) != "" ==> !ResponseSuccessful(resp)
    ensures !ResponseSuccessful(resp) && resp.error.None? ==> ResponseErrorText(resp) != ""
  {
  }

  /** An RPC error response is a failure whose text is its trimmed message. */
  lemma ErrorResponseClassified(id: Json, code: int, message: string, data: Json)
    ensures !ResponseSuccessful(ErrorResponse(id, code, message, data))
    ensures ResponseErrorText(ErrorResponse(id, code, message, data)) == TrimSpace(message)
  {
  }

  /** A tool result is a success with no error text. */
  lemma ToolSuccessClassified(codec: Codec, id: Json, v: ToolOutput)
    ensures ResponseSuccessful(ResultResponse(id, ToolSuccess(codec, v)))
    ensures ResponseErrorText(ResultResponse(id, ToolSuccess(codec, v))) == ""
  {
    var f := ToolSuccess(codec, v).fields;
    assert "isError" in f && f["isError"] == JBool(false);
  }

  /** `toolNameFromParams`: the trimmed tool name of a `tools/call`, "" for anything else. */
  function ToolNameFromParams(codec: Codec, methodName: string, params: Option<Json>): (name: string)
    ensures name != "" ==> methodName == MethodToolsCall && params.Some? && codec.call(params).Success?
  {
    if methodName != MethodToolsCall || params.None? then ""
    else match codec.call(params)
      case Failure(_) => ""
      case Success(c) => TrimSpace(c.name)
  }

  /** A tool name is recorded only for `tools/call`, and it is the name dispatched on, trimmed. */
  lemma ToolNameRecorded(codec: Codec, methodName: string, params: Option<Json>)
    ensures ToolNameFromParams(codec, methodName, params) != "" ==> methodName == MethodToolsCall && params.Some?
    ensures methodName == MethodToolsCall && params.Some? && codec.call(params).Success? ==>
      ToolNameFromParams(codec, methodName, params) == TrimSpace(codec.call(params).value.name)
  {
  }

  /** The record `recordRequest` builds; a blank method is logged as "unknown". */
  function LogRecord(codec: Codec, req: Request, resp: Response): (r: RequestLog)
    ensures r.methodName != []
    ensures r.success == ResponseSuccessful(resp) && r.errorText == ResponseErrorText(resp)
  {
    var methodName := TrimSpace(req.methodName);
    RequestLog(
      if methodName == [] then "unknown" else methodName,
      ToolNameFromParams(codec, req.methodName, req.params),
      ResponseSuccessful(resp),
      ResponseErrorText(resp))
  }

  /** The logged method is never blank; it is the trimmed method when that is not blank. */
  lemma LogRecordMethod(codec: Codec, req: Request, resp: Response)
    ensures LogRecord(codec, req, resp).methodName != []
    ensures !IsBlank(req.methodName) ==> LogRecord(codec, req, resp).methodName == TrimSpace(req.methodName)
    ensures LogRecord(codec, req, resp).errorText != "" ==> !LogRecord(codec, req, resp).success
  {
    ErrorTextMeansFailure(resp);
  }

  /** What `Serve` records for a payload that is not JSON-RPC. */
  function ParseErrorRecord(message: string): Response {
    Response("", JNull, None, Some(RpcError(ParseErrorCode, "parse error", JString(message))))
  }

  /** A parse error is logged as a failure with the text "parse error". */
  lemma ParseErrorClassified(message: string)
    ensures !ResponseSuccessful(ParseErrorRecord(message))
    ensures ResponseErrorText(ParseErrorRecord(message)) == "parse error"
  {
    RpcErrorText(ParseErrorRecord(message));
    ParseErrorTrimmed();
  }

  lemma ParseErrorTrimmed()
    ensures TrimSpace("parse error") == "parse error"
  {
    TrimSpaceOfTrimmed("parse error");
  }

  /** An RPC error is logged with its trimmed message. */
  lemma RpcErrorText(resp: Response)
    requires resp.error.Some?
    ensures !ResponseSuccessful(resp) && ResponseErrorText(resp) == TrimSpace(resp.error.value.message)
  {
  }

  /** What `Serve` sends for a payload that is not JSON-RPC: a nil id. */
  function ParseErrorReply(message: string): (r: Response)
    ensures r.id == JNull && r.error.Some? && r.error.value.code == ParseErrorCode
  {
    ErrorResponse(JNull, ParseErrorCode, "parse error", JString(message))
  }

  /** Quotes a tool name the way %q does for names without escapes. */
  function Quote(s: string): string {
    "\"" + s + "\""
  }

  function Inc(n: nat): (m: nat)
    requires n < CounterModulus
    ensures m < CounterModulus
    ensures m == if n + 1 == CounterModulus then 0 else n + 1
  {
    (n + 1) % CounterModulus
  }

  /** The counter after k increments. */
  function Advance(n: nat, k: nat): (m: nat)
    requires n < CounterModulus
    ensures m < CounterModulus
  {
    if k == 0 then n else Inc(Advance(n, k - 1))
  }

  /** k increments add k modulo 2^64. */
  lemma {:induction false} AdvanceAdds(n: nat, k: nat)
    requires n < CounterModulus
    ensures Advance(n, k) == (n + k) % CounterModulus
  {
    if k > 0 {
      AdvanceAdds(n, k - 1);
      var a := n + k - 1;
      assert Advance(n, k - 1) == a % CounterModulus;
      assert a == (a / CounterModulus) * CounterModulus + a % CounterModulus;
      if a % CounterModulus + 1 == CounterModulus {
        assert a + 1 == (a / CounterModulus + 1) * CounterModulus;
      } else {
        assert a + 1 == (a / CounterModulus) * CounterModulus + (a % CounterModulus + 1);
      }
    }
  }

  // ---------------------------------------------------------------------------
  // The input stream as a sequence of messages

  /** The messages `readMessage` returns one after another from i, and the error that ends them. */
  function Incoming(data: seq<Wire.byte>, i: nat): (r: (seq<Wire.Message>, Wire.ReadError))
    requires i <= |data|
    decreases |data| - i
  {
    match Wire.ReadMessage(data, i)
    case Failure(e) => ([], e)
    case Success(m) => var rest := Incoming(data, m.next); ([m] + rest.0, rest.1)
  }

  /** The mode a reply goes out in: the request's, but always framed for a parse error. */
  function ReplyMode(codec: Codec, payload: seq<Wire.byte>, mode: Wire.Mode): Wire.Mode {
    if codec.request(payload).Failure? then Wire.Framed else mode
  }

  /** The bytes written for one message: its reply, if any, in its reply mode. */
  function Outgoing(codec: Codec, payload: seq<Wire.byte>, mode: Wire.Mode, reply: Option<Response>): seq<Wire.byte> {
    if reply.None? then [] else Wire.Encode(codec.response(reply.value), ReplyMode(codec, payload, mode))
  }

  /** The bytes written for a sequence of messages. */
  function Transcript(codec: Codec, msgs: seq<Wire.Message>, replies: seq<Option<Response>>): seq<Wire.byte>
    requires |replies| == |msgs|
  {
    if msgs == [] then []
    else
      var n := |msgs| - 1;
      Transcript(codec, msgs[..n], replies[..n]) + Outgoing(codec, msgs[n].payload, msgs[n].mode, replies[n])
  }

  /** The reply is the parse-error reply, or answers the request the payload decodes to. */
  predicate ReplyFits(codec: Codec, payload: seq<Wire.byte>, reply: Option<Response>) {
    match codec.request(payload)
    case Failure(e) => reply == Some(ParseErrorReply(e))
    case Success(req) =>
      && (reply.Some? <==> req.methodName != MethodInitialized && req.id.Some?)
      && (reply.Some? ==> reply.value.jsonrpc == JsonRpcVersion && reply.value.id == DecodeId(req.id))
  }

  predicate RepliesFit(codec: Codec, msgs: seq<Wire.Message>, replies: seq<Option<Response>>) {
    |replies| == |msgs| && forall k :: 0 <= k < |msgs| ==> ReplyFits(codec, msgs[k].payload, replies[k])
  }

  /** The number of messages that decode as requests, the ones `handle` sees. */
  function Handled(codec: Codec, msgs: seq<Wire.Message>): (n: nat)
    ensures n <= |msgs|
  {
    if msgs == [] then 0
    else Handled(codec, msgs[..|msgs| - 1]) + if codec.request(msgs[|msgs| - 1].payload).Success? then 1 else 0
  }

  /** The reply `Serve` sends for a payload, given what `handleToolCall` returned for it. */
  function Reply(codec: Codec, payload: seq<Wire.byte>, call: Result<Json, string>): (r: Option<Response>)
    ensures ReplyFits(codec, payload, r)
  {
    match codec.request(payload)
    case Failure(e) => Some(ParseErrorReply(e))
    case Success(req) =>
      AnswerReplies(codec, req, call);
      if Answer(codec, req, call).1 then Some(Answer(codec, req, call).0) else None
  }

  predicate RepliesAre(codec: Codec, msgs: seq<Wire.Message>, calls: seq<Result<Json, string>>, replies: seq<Option<Response>>) {
    && |calls| == |msgs| && |replies| == |msgs|
    && forall k :: 0 <= k < |msgs| ==> replies[k] == Reply(codec, msgs[k].payload, calls[k])
  }

  /** The request-log record of a payload: `recordRequest` on the request and its response, or the parse-error row. */
  function Logged(codec: Codec, payload: seq<Wire.byte>, call: Result<Json, string>): (r: RequestLog)
    ensures codec.request(payload).Failure? ==> r.methodName == "parse_error" && !r.success && r.errorText == "parse error"
  {
    match codec.request(payload)
    case Failure(e) =>
      ParseErrorClassified(e);
      TrimSpaceOfTrimmed("parse_error");
      LogRecord(codec, Request(None, "parse_error", None), ParseErrorRecord(e))
    case Success(req) => LogRecord(codec, req, Answer(codec, req, call).0)
  }

  /** The records a sink receives for a sequence of messages, oldest first. */
  function LogOf(codec: Codec, msgs: seq<Wire.Message>, calls: seq<Result<Json, string>>): (r: seq<RequestLog>)
    requires |calls| == |msgs|
    ensures |r| == |msgs|
  {
    if msgs == [] then []
    else
      var n := |msgs| - 1;
      LogOf(codec, msgs[..n], calls[..n]) + [Logged(codec, msgs[n].payload, calls[n])]
  }

  /** A message counts as an error exactly when it is a `tools/call` whose handler failed. */
  predicate CallFailed(codec: Codec, payload: seq<Wire.byte>, call: Result<Json, string>) {
    codec.request(payload).Success? && codec.request(payload).value.methodName == MethodToolsCall && call.Failure?
  }

  /** The number of messages that count as errors. */
  function Failures(codec: Codec, msgs: seq<Wire.Message>, calls: seq<Result<Json, string>>): (n: nat)
    requires |calls| == |msgs|
    ensures n <= Handled(codec, msgs)
  {
    if msgs == [] then 0
    else
      var n := |msgs| - 1;
      Failures(codec, msgs[..n], calls[..n]) + if CallFailed(codec, msgs[n].payload, calls[n]) then 1 else 0
  }

  /** What one message does to the table: only a decoded `tools/call` may change it, as CallMeets says. */
  predicate TableStep(svc: Memory.Service, codec: Codec, payload: seq<Wire.byte>, now: int, id: string,
                      call: Result<Json, string>, before: seq<MemoryRecord>, after: seq<MemoryRecord>)
  {
    match codec.request(payload)
    case Failure(_) => after == before
    case Success(req) =>
      if req.methodName == MethodToolsCall then CallMeets(svc, codec, before, after, req.params, now, id, call)
      else after == before
  }

  /**
   * The tables between messages: for every k, message k, answered with
   * calls[k] at clock(k) with id ids(k), takes tables[k] to tables[k + 1].
   */
  predicate TableSteps(svc: Memory.Service, codec: Codec, msgs: seq<Wire.Message>, calls: seq<Result<Json, string>>,
                       tables: seq<seq<MemoryRecord>>, clock: nat -> int, ids: nat -> string)
    decreases |msgs|
  {
    && |calls| == |msgs| && |tables| == |msgs| + 1
    && (msgs != [] ==>
          var n := |msgs| - 1;
          && TableSteps(svc, codec, msgs[..n], calls[..n], tables[..n + 1], clock, ids)
          && TableStep(svc, codec, msgs[n].payload, clock(n), ids(n), calls[n], tables[n], tables[n + 1]))
  }

  lemma IncomingStep(data: seq<Wire.byte>, i: nat)
    requires i <= |data| && Wire.ReadMessage(data, i).Success?
    ensures var m := Wire.ReadMessage(data, i).value;
      Incoming(data, i) == ([m] + Incoming(data, m.next).0, Incoming(data, m.next).1)
  {
  }

  /** Reading one more message moves it from the rest of the stream to the messages seen. */
  lemma IncomingAdvance(data: seq<Wire.byte>, i: nat, seen: seq<Wire.Message>)
    requires i <= |data| && Wire.ReadMessage(data, i).Success?
    ensures var m := Wire.ReadMessage(data, i).value;
      && seen + Incoming(data, i).0 == (seen + [m]) + Incoming(data, m.next).0
      && Incoming(data, i).1 == Incoming(data, m.next).1
  {
    var m := Wire.ReadMessage(data, i).value;
    IncomingStep(data, i);
    assert seen + ([m] + Incoming(data, m.next).0) == (seen + [m]) + Incoming(data, m.next).0;
  }

  lemma IncomingEnd(data: seq<Wire.byte>, i: nat)
    requires i <= |data| && Wire.ReadMessage(data, i).Failure?
    ensures Incoming(data, i) == ([], Wire.ReadMessage(data, i).error)
  {
  }

  /** A stream of messages and nothing else ends with a clean end of input. */
  lemma {:induction false} IncomingOfBlank(data: seq<Wire.byte>, i: nat)
    requires i <= |data|
    requires forall k :: i <= k < |data| ==> Wire.IsSpaceRune(data[k])
    ensures Incoming(data, i) == ([], Wire.Eof)
  {
    Wire.SkipSpaceSkipsSpace(data, i);
    assert Wire.Detect(data, i) == Failure(Wire.Eof);
  }

  lemma TranscriptSnoc(codec: Codec, msgs: seq<Wire.Message>, replies: seq<Option<Response>>, m: Wire.Message, reply: Option<Response>)
    requires |replies| == |msgs|
    ensures Transcript(codec, msgs + [m], replies + [reply]) ==
      Transcript(codec, msgs, replies) + Outgoing(codec, m.payload, m.mode, reply)
  {
    assert (msgs + [m])[..|msgs|] == msgs;
    assert (replies + [reply])[..|replies|] == replies;
  }

  lemma RepliesFitSnoc(codec: Codec, msgs: seq<Wire.Message>, replies: seq<Option<Response>>, m: Wire.Message, reply: Option<Response>)
    requires RepliesFit(codec, msgs, replies) && ReplyFits(codec, m.payload, reply)
    ensures RepliesFit(codec, msgs + [m], replies + [reply])
  {
    forall k | 0 <= k < |msgs| + 1 ensures ReplyFits(codec, (msgs + [m])[k].payload, (replies + [reply])[k]) {
      if k < |msgs| {
        assert (msgs + [m])[k] == msgs[k] && (replies + [reply])[k] == replies[k];
      }
    }
  }

  lemma HandledSnoc(codec: Codec, msgs: seq<Wire.Message>, m: Wire.Message)
    ensures Handled(codec, msgs + [m]) == Handled(codec, msgs) + if codec.request(m.payload).Success? then 1 else 0
  {
    assert (msgs + [m])[..|msgs|] == msgs;
  }

  /** Counting one more message advances the request counter once if it decodes, else not at all. */
  lemma AdvanceHandled(codec: Codec, n: nat, msgs: seq<Wire.Message>, m: Wire.Message, before: nat, after: nat)
    requires n < CounterModulus && before == Advance(n, Handled(codec, msgs))
    requires after == if codec.request(m.payload).Success? then Inc(before) else before
    ensures after == Advance(n, Handled(codec, msgs + [m]))
  {
    HandledSnoc(codec, msgs, m);
  }

  lemma RepliesAreSnoc(codec: Codec, msgs: seq<Wire.Message>, calls: seq<Result<Json, string>>, replies: seq<Option<Response>>,
                       m: Wire.Message, call: Result<Json, string>)
    requires RepliesAre(codec, msgs, calls, replies)
    ensures RepliesAre(codec, msgs + [m], calls + [call], replies + [Reply(codec, m.payload, call)])
  {
    var ms, cs, rs := msgs + [m], calls + [call], replies + [Reply(codec, m.payload, call)];
    forall k | 0 <= k < |ms| ensures rs[k] == Reply(codec, ms[k].payload, cs[k]) {
      if k < |msgs| {
        assert ms[k] == msgs[k] && cs[k] == calls[k] && rs[k] == replies[k];
      }
    }
  }

  /** Replies chosen by Reply fit their requests. */
  lemma RepliesFitOfAre(codec: Codec, msgs: seq<Wire.Message>, calls: seq<Result<Json, string>>, replies: seq<Option<Response>>)
    requires RepliesAre(codec, msgs, calls, replies)
    ensures RepliesFit(codec, msgs, replies)
  {
    forall k | 0 <= k < |msgs| ensures ReplyFits(codec, msgs[k].payload, replies[k]) {
      assert replies[k] == Reply(codec, msgs[k].payload, calls[k]);
    }
  }

  lemma AppendAssoc<T>(a: seq<T>, b: seq<T>, c: seq<T>)
    ensures (a + b) + c == a + (b + c)
  {
  }

  lemma LogOfSnoc(codec: Codec, msgs: seq<Wire.Message>, calls: seq<Result<Json, string>>, m: Wire.Message, call: Result<Json, string>)
    requires |calls| == |msgs|
    ensures LogOf(codec, msgs + [m], calls + [call]) == LogOf(codec, msgs, calls) + [Logged(codec, m.payload, call)]
  {
    assert (msgs + [m])[..|msgs|] == msgs;
    assert (calls + [call])[..|calls|] == calls;
  }

  /** One more exchange extends the request log by that exchange's row when a sink is attached, and leaves it alone otherwise. */
  lemma LogAdvance(codec: Codec, sink: bool, start: seq<RequestLog>, before: seq<RequestLog>, after: seq<RequestLog>,
                   msgs: seq<Wire.Message>, calls: seq<Result<Json, string>>, m: Wire.Message, call: Result<Json, string>)
    requires |calls| == |msgs|
    requires before == start + (if sink then LogOf(codec, msgs, calls) else [])
    requires after == before + (if sink then [Logged(codec, m.payload, call)] else [])
    ensures after == start + (if sink then LogOf(codec, msgs + [m], calls + [call]) else [])
  {
    LogOfSnoc(codec, msgs, calls, m, call);
    if sink {
      AppendAssoc(start, LogOf(codec, msgs, calls), [Logged(codec, m.payload, call)]);
    } else {
      assert before == start && after == before;
    }
  }

  /** Counting one more message advances the error counter once if it is a failed tool call, else not at all. */
  lemma AdvanceFailures(codec: Codec, n: nat, msgs: seq<Wire.Message>, calls: seq<Result<Json, string>>,
                        m: Wire.Message, call: Result<Json, string>, before: nat, after: nat)
    requires |calls| == |msgs|
    requires n < CounterModulus && before == Advance(n, Failures(codec, msgs, calls))
    requires after == if CallFailed(codec, m.payload, call) then Inc(before) else before
    ensures after == Advance(n, Failures(codec, msgs + [m], calls + [call]))
  {
    assert (msgs + [m])[..|msgs|] == msgs;
    assert (calls + [call])[..|calls|] == calls;
  }

  lemma TableStepsSnoc(svc: Memory.Service, codec: Codec, msgs: seq<Wire.Message>, calls: seq<Result<Json, string>>,
                       tables: seq<seq<MemoryRecord>>, clock: nat -> int, ids: nat -> string,
                       m: Wire.Message, call: Result<Json, string>, after: seq<MemoryRecord>)
    requires TableSteps(svc, codec, msgs, calls, tables, clock, ids)
    requires TableStep(svc, codec, m.payload, clock(|msgs|), ids(|msgs|), call, tables[|msgs|], after)
    ensures TableSteps(svc, codec, msgs + [m], calls + [call], tables + [after], clock, ids)
  {
    var ms, cs, ts := msgs + [m], calls + [call], tables + [after];
    assert ms[..|msgs|] == msgs && cs[..|msgs|] == calls && ts[..|msgs| + 1] == tables;
    assert ms[|msgs|] == m && cs[|msgs|] == call && ts[|msgs|] == tables[|msgs|] && ts[|msgs| + 1] == after;
  }

  // ---------------------------------------------------------------------------
  // The server

  /** The outcome `handleToolCall` must have, given the table before and after. */
  predicate CallMeets(svc: Memory.Service, codec: Codec, before: seq<MemoryRecord>, after: seq<MemoryRecord>,
                      params: Option<Json>, now: int, id: string, out: Result<Json, string>)
  {
    match codec.call(params)
    case Failure(e) => out == Failure("invalid tools/call params: " + e) && after == before
    case Success(c) =>
      match Tools.Lookup(c.name)
      case None => out == Failure("unknown tool " + Quote(c.name)) && after == before
      case Some(MemoryWrite) => WriteMeets(svc, codec, before, after, c.arguments, now, id, out)
      case Some(MemorySearch) => SearchMeets(svc, codec, before, after, c.arguments, now, out)
      case Some(MemoryGetContextPack) => PackMeets(svc, codec, before, after, c.arguments, now, out)
      case Some(MemoryPromote) => PromoteMeets(svc, codec, before, after, c.arguments, now, out)
  }

  /** memory_write: the service's validation, then an insert unless the id is taken. */
  predicate WriteMeets(svc: Memory.Service, codec: Codec, before: seq<MemoryRecord>, after: seq<MemoryRecord>,
                       arguments: Option<Json>, now: int, id: string, out: Result<Json, string>)
  {
    match codec.writeInput(arguments)
    case Failure(e) => out == Failure("invalid memory_write arguments: " + e) && after == before
    case Success(input) =>
      match Memory.PrepareWrite(svc.cfg, svc.matches, input, id, now)
      case Failure(e) => out == Failure(Memory.Message(e)) && after == before
      case Success(rec) =>
        if id in Store.Ids(before) then out.Failure? && after == before
        else out == Success(ToolSuccess(codec, Written(rec))) && after == before + [Store.Stored(rec)]
  }

  /** memory_search: the ranked results; the table is not changed. */
  predicate SearchMeets(svc: Memory.Service, codec: Codec, before: seq<MemoryRecord>, after: seq<MemoryRecord>,
                        arguments: Option<Json>, now: int, out: Result<Json, string>)
  {
    match codec.searchInput(arguments)
    case Failure(e) => out == Failure("invalid memory_search arguments: " + e) && after == before
    case Success(input) =>
      && after == before
      && out == match Memory.SearchSpec(before, svc.store.ftsEnabled, svc.fts, svc.cfg, svc.matches, input, now, svc.decay)
        case Failure(e) => Failure(Memory.Message(e))
        case Success(items) => Success(ToolSuccess(codec, Found(items)))
  }

  /** memory_get_context_pack: the assembled pack; the table is not changed. */
  predicate PackMeets(svc: Memory.Service, codec: Codec, before: seq<MemoryRecord>, after: seq<MemoryRecord>,
                      arguments: Option<Json>, now: int, out: Result<Json, string>)
  {
    match codec.packInput(arguments)
    case Failure(e) => out == Failure("invalid memory_get_context_pack arguments: " + e) && after == before
    case Success(input) =>
      && after == before
      && out == match Memory.ContextPackSpec(before, svc.store.ftsEnabled, svc.fts, svc.cfg, svc.matches, input, now, svc.decay)
        case Failure(e) => Failure(Memory.Message(e))
        case Success(pack) => Success(ToolSuccess(codec, Packed(pack)))
  }

  /** memory_promote: validation, then the promoted row, or "not found". */
  predicate PromoteMeets(svc: Memory.Service, codec: Codec, before: seq<MemoryRecord>, after: seq<MemoryRecord>,
                         arguments: Option<Json>, now: int, out: Result<Json, string>)
  {
    match codec.promoteInput(arguments)
    case Failure(e) => out == Failure("invalid memory_promote arguments: " + e) && after == before
    case Success(input) =>
      if Memory.PromoteCheck(input).Some? then out == Failure(Memory.Message(Memory.PromoteCheck(input).value)) && after == before
      else if input.memoryId !in Store.Ids(before) then
        out == Failure(Memory.Message(Memory.NotFound(input.memoryId))) && after == before
      else
        && after == Store.PromoteRows(before, input.memoryId, now)
        && out == Success(ToolSuccess(codec, Promoted(Store.PromotedRow(Store.Lookup(before, input.memoryId).value, now))))
  }

  /** `Server`: the memory service, the JSON codec, the counters and the request log. */
  class Server {
    const svc: Memory.Service
    const codec: Codec
    /** Whether a request-log sink was given; without one nothing is logged. */
    const hasSink: bool
    var requests: nat
    var errors: nat
    /** The records handed to the sink, oldest first. */
    var log: seq<RequestLog>

    ghost predicate Valid()
      reads this, svc, svc.store
    {
      svc.Valid() && requests < CounterModulus && errors < CounterModulus
    }

    constructor (svc: Memory.Service, codec: Codec, hasSink: bool)
      requires svc.Valid()
      ensures Valid()
      ensures this.svc == svc && this.codec == codec && this.hasSink == hasSink
      ensures requests == 0 && errors == 0 && log == []
    {
      this.svc := svc;
      this.codec := codec;
      this.hasSink := hasSink;
      requests := 0;
      errors := 0;
      log := [];
    }

    /** `Snapshot`: the two counters (the timestamp is left out). */
    function Snapshot(): (c: Counters)
      requires Valid()
      reads this, svc, svc.store
      ensures c.requests < CounterModulus && c.errors < CounterModulus
    {
      Counters(requests, errors)
    }

    /** `handleToolCall`: decode the call, dispatch on the tool name, run the service. */
    method HandleToolCall(params: Option<Json>, now: int, id: string) returns (out: Result<Json, string>)
      requires Valid()
      modifies svc.store
      ensures Valid()
      ensures CallMeets(svc, codec, old(svc.store.memories), svc.store.memories, params, now, id, out)
    {
      var c := codec.call(params);
      if c.Failure? {
        return Failure("invalid tools/call params: " + c.error);
      }
      var call := c.value;
      var tool := Tools.Lookup(call.name);
      if tool.None? {
        return Failure("unknown tool " + Quote(call.name));
      }
      match tool.value
      case MemoryWrite =>
        var input := codec.writeInput(call.arguments);
        if input.Failure? {
          return Failure("invalid memory_write arguments: " + input.error);
        }
        var rec := svc.Write(input.value, id, now);
        if rec.Failure? {
          return Failure(Memory.Message(rec.error));
        }
        return Success(ToolSuccess(codec, Written(rec.value)));
      case MemorySearch =>
        var input := codec.searchInput(call.arguments);
        if input.Failure? {
          return Failure("invalid memory_search arguments: " + input.error);
        }
        var items := svc.Search(input.value, now);
        if items.Failure? {
          return Failure(Memory.Message(items.error));
        }
        return Success(ToolSuccess(codec, Found(items.value)));
      case MemoryGetContextPack =>
        var input := codec.packInput(call.arguments);
        if input.Failure? {
          return Failure("invalid memory_get_context_pack arguments: " + input.error);
        }
        var pack := svc.ContextPack(input.value, now);
        if pack.Failure? {
          return Failure(Memory.Message(pack.error));
        }
        return Success(ToolSuccess(codec, Packed(pack.value)));
      case MemoryPromote =>
        var input := codec.promoteInput(call.arguments);
        if input.Failure? {
          return Failure("invalid memory_promote arguments: " + input.error);
        }
        var rec := svc.Promote(input.value, now);
        if rec.Failure? {
          return Failure(Memory.Message(rec.error));
        }
        return Success(ToolSuccess(codec, Promoted(rec.value)));
    }

    /**
     * `handle`: counts the request, then answers it. Only a failed tool call
     * counts as an error, and only `tools/call` touches the table.
     */
    method Handle(req: Request, now: int, id: string) returns (resp: Response, reply: bool, ghost call: Result<Json, string>)
      requires Valid()
      modifies this, svc.store
      ensures Valid() && log == old(log)
      ensures requests == Inc(old(requests))
      ensures (resp, reply) == Answer(codec, req, call)
      ensures req.methodName == MethodToolsCall ==>
        && CallMeets(svc, codec, old(svc.store.memories), svc.store.memories, req.params, now, id, call)
        && errors == if call.Failure? then Inc(old(errors)) else old(errors)
      ensures req.methodName != MethodToolsCall ==> errors == old(errors) && svc.store.memories == old(svc.store.memories)
    {
      requests := Inc(requests);
      call := Success(JNull);
      var hasId := req.id.Some?;
      var rid := DecodeId(req.id);
      if req.methodName == MethodInitialized {
        return NoResponse, false, call;
      }
      if req.methodName == MethodInitialize {
        var pv := codec.protocolVersion(req.params);
        if IsBlank(pv) {
          pv := DefaultProtocolVersion;
        }
        return ResultResponse(rid, InitializeResult(pv)), hasId, call;
      } else if req.methodName == MethodPing {
        return ResultResponse(rid, JObject(map[])), hasId, call;
      } else if req.methodName == MethodToolsList {
        var defs := Tools.ToolDefinitions();
        return ResultResponse(rid, JObject(map["tools" := Tools.DefinitionsJson(defs)])), hasId, call;
      } else if req.methodName == MethodToolsCall {
        var res := HandleToolCall(req.params, now, id);
        call := res;
        if res.Failure? {
          errors := Inc(errors);
          return ResultResponse(rid, ToolFailure(res.error)), hasId, call;
        }
        return ResultResponse(rid, res.value), hasId, call;
      }
      if !hasId {
        return NoResponse, false, call;
      }
      return ErrorResponse(rid, MethodNotFoundCode, "method not found", JString(req.methodName)), true, call;
    }

    /** `recordRequest`: one record per request when there is a sink. */
    method RecordRequest(req: Request, resp: Response)
      modifies this
      ensures requests == old(requests) && errors == old(errors)
      ensures log == if hasSink then old(log) + [LogRecord(codec, req, resp)] else old(log)
    {
      if !hasSink {
        return;
      }
      log := log + [LogRecord(codec, req, resp)];
    }

    /**
     * One pass of `Serve` on a payload it has read: a parse error, or
     * `handle`, then the request log, then the reply if there is one.
     */
    method Exchange(writer: Wire.Writer, payload: seq<Wire.byte>, mode: Wire.Mode, now: int, id: string)
      returns (ghost reply: Option<Response>, ghost call: Result<Json, string>)
      requires Valid()
      modifies this, svc.store, writer
      ensures Valid()
      ensures reply == Reply(codec, payload, call)
      ensures writer.out == old(writer.out) + Outgoing(codec, payload, mode, reply)
      ensures log == old(log) + if hasSink then [Logged(codec, payload, call)] else []
      ensures requests == if codec.request(payload).Success? then Inc(old(requests)) else old(requests)
      ensures errors == if CallFailed(codec, payload, call) then Inc(old(errors)) else old(errors)
      ensures TableStep(svc, codec, payload, now, id, call, old(svc.store.memories), svc.store.memories)
    {
      var decoded := codec.request(payload);
      if decoded.Failure? {
        RecordRequest(Request(None, "parse_error", None), ParseErrorRecord(decoded.error));
        var resp := ParseErrorReply(decoded.error);
        writer.WriteFramedMessage(codec.response(resp));
        reply := Some(resp);
        call := Success(JNull);
        return;
      }
      var req := decoded.value;
      var resp, send;
      resp, send, call := Handle(req, now, id);
      RecordRequest(req, resp);
      if send {
        writer.WriteMessage(codec.response(resp), mode);
        reply := Some(resp);
      } else {
        reply := None;
      }
    }

    /**
     * One round of `Serve`: the exchange for the next message `m`, and what it
     * adds to the replies, the transcript, the log, the counters and the
     * tables kept for the messages before it.
     */
    method Round(writer: Wire.Writer, payload: seq<Wire.byte>, mode: Wire.Mode, now: int, id: string,
                 ghost m: Wire.Message, ghost msgs: seq<Wire.Message>, ghost replies: seq<Option<Response>>,
                 ghost calls: seq<Result<Json, string>>, ghost tables: seq<seq<MemoryRecord>>,
                 ghost clock: nat -> int, ghost ids: nat -> string,
                 ghost startLog: seq<RequestLog>, ghost counted: nat, ghost failed: nat)
      returns (ghost reply: Option<Response>, ghost call: Result<Json, string>)
      requires Valid()
      requires payload == m.payload && mode == m.mode && now == clock(|msgs|) && id == ids(|msgs|)
      requires counted < CounterModulus && failed < CounterModulus
      requires RepliesAre(codec, msgs, calls, replies)
      requires writer.out == Transcript(codec, msgs, replies)
      requires log == startLog + (if hasSink then LogOf(codec, msgs, calls) else [])
      requires requests == Advance(counted, Handled(codec, msgs))
      requires errors == Advance(failed, Failures(codec, msgs, calls))
      requires TableSteps(svc, codec, msgs, calls, tables, clock, ids) && tables[|msgs|] == svc.store.memories
      modifies this, svc.store, writer
      ensures Valid()
      ensures RepliesAre(codec, msgs + [m], calls + [call], replies + [reply])
      ensures writer.out == Transcript(codec, msgs + [m], replies + [reply])
      ensures log == startLog + (if hasSink then LogOf(codec, msgs + [m], calls + [call]) else [])
      ensures requests == Advance(counted, Handled(codec, msgs + [m]))
      ensures errors == Advance(failed, Failures(codec, msgs + [m], calls + [call]))
      ensures TableSteps(svc, codec, msgs + [m], calls + [call], tables + [svc.store.memories], clock, ids)
    {
      ghost var logBefore := log;
      ghost var requestsBefore := requests;
      ghost var errorsBefore := errors;
      reply, call := Exchange(writer, payload, mode, now, id);
      TranscriptSnoc(codec, msgs, replies, m, reply);
      RepliesAreSnoc(codec, msgs, calls, replies, m, call);
      LogAdvance(codec, hasSink, startLog, logBefore, log, msgs, calls, m, call);
      AdvanceHandled(codec, counted, msgs, m, requestsBefore, requests);
      AdvanceFailures(codec, failed, msgs, calls, m, call, errorsBefore, errors);
      TableStepsSnoc(svc, codec, msgs, calls, tables, clock, ids, m, call, svc.store.memories);
    }

    /**
     * `Serve`: reads messages until the input fails, answers each one, and
     * writes every reply in the mode its request came in; a payload that is not
     * a request gets a framed parse error. The clock and the generated ids are
     * given per message.
     */
    method Serve(input: seq<Wire.byte>, clock: nat -> int, ids: nat -> string)
      returns (r: Result<(), Wire.ReadError>, out: seq<Wire.byte>, ghost replies: seq<Option<Response>>,
               ghost calls: seq<Result<Json, string>>, ghost tables: seq<seq<MemoryRecord>>)
      requires Valid()
      modifies this, svc.store
      ensures Valid()
      ensures var (msgs, end) := Incoming(input, 0);
        && (r.Success? <==> end == Wire.Eof)
        && (r.Failure? ==> r.error == end)
        && RepliesFit(codec, msgs, replies)
        && RepliesAre(codec, msgs, calls, replies)
        && out == Transcript(codec, msgs, replies)
        && log == old(log) + (if hasSink then LogOf(codec, msgs, calls) else [])
        && requests == Advance(old(requests), Handled(codec, msgs))
        && errors == Advance(old(errors), Failures(codec, msgs, calls))
        && TableSteps(svc, codec, msgs, calls, tables, clock, ids)
        && tables[0] == old(svc.store.memories) && tables[|msgs|] == svc.store.memories
    {
      var reader := new Wire.Reader(input);
      var writer := new Wire.Writer();
      ghost var msgs: seq<Wire.Message> := [];
      replies, calls, tables := [], [], [svc.store.memories];
      ghost var counted := requests;
      ghost var failed := errors;
      var k: nat := 0;
      assert msgs + Incoming(input, reader.pos).0 == Incoming(input, 0).0;
      while true
        invariant reader.data == input && reader.Valid() && Valid()
        invariant Incoming(input, 0) == (msgs + Incoming(input, reader.pos).0, Incoming(input, reader.pos).1)
        invariant k == |msgs|
        invariant RepliesAre(codec, msgs, calls, replies)
        invariant writer.out == Transcript(codec, msgs, replies)
        invariant log == old(log) + (if hasSink then LogOf(codec, msgs, calls) else [])
        invariant requests == Advance(counted, Handled(codec, msgs))
        invariant counted == old(requests)
        invariant errors == Advance(failed, Failures(codec, msgs, calls))
        invariant failed == old(errors)
        invariant TableSteps(svc, codec, msgs, calls, tables, clock, ids)
        invariant tables[0] == old(svc.store.memories) && tables[|msgs|] == svc.store.memories
        decreases |input| - reader.pos
      {
        ghost var at := reader.pos;
        var next := reader.NextMessage();
        if next.Failure? {
          IncomingEnd(input, at);
          assert msgs + [] == msgs;
          RepliesFitOfAre(codec, msgs, calls, replies);
          if next.error == Wire.Eof {
            return Success(()), writer.out, replies, calls, tables;
          }
          return Failure(next.error), writer.out, replies, calls, tables;
        }
        IncomingAdvance(input, at, msgs);
        ghost var m := Wire.ReadMessage(input, at).value;
        var (payload, mode) := next.value;
        assert payload == m.payload;
        var reply, call := Round(writer, payload, mode, clock(k), ids(k), m, msgs, replies, calls, tables,
                                 clock, ids, old(log), counted, failed);
        msgs := msgs + [m];
        replies := replies + [reply];
        calls := calls + [call];
        tables := tables + [svc.store.memories];
        k := k + 1;
      }
    }
  }
}
