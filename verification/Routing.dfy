/**
 Routing of one JSON-RPC message (internal/router), with every object freshly allocated: parsing and
 validation, the request context, policy enforcement, forwarding and the audit call.  JSON decoding,
 the policy evaluator and the upstream are functions the caller supplies.
 */
module Routing {
  import opened Text
  import opened Json

  const PARSE_ERROR := -32700
  const INVALID_REQUEST := -32600
  const INVALID_PARAMS := -32602
  const INTERNAL_ERROR := -32603
  const POLICY_VIOLATION := -32001
  const UPSTREAM_ERROR := -32004

  const MAX_METHOD_LENGTH := 256

  /** What a foreign function returns. */
  datatype Try<T> = Done(value: T) | Failed(error: string)

  /** A Request object; params are raw text, absent or not. */
  datatype Request = Request(jsonrpc: string, id: Option<Json>, methodName: string, params: Option<string>)

  const BLANK := Request("", None, "", None)

  /** What a decoder finds in a message: only the fields present are written to the Request, also when
      decoding fails part way. */
  datatype Decoded = Decoded(
    error: Option<string>,
    jsonrpc: Option<string>,
    id: Option<Option<Json>>,  // Some(None) for an explicit null
    methodName: Option<string>,
    params: Option<string>)

  /** json.Unmarshal into an existing Request. */
  function Unmarshal(into: Request, d: Decoded): Request {
    Request(
      if d.jsonrpc.Some? then d.jsonrpc.value else into.jsonrpc,
      if d.id.Some? then d.id.value else into.id,
      if d.methodName.Some? then d.methodName.value else into.methodName,
      if d.params.Some? then d.params else into.params)
  }

  datatype Handler = Passthrough | FullEnforce | Filter

  datatype LogLevel = LogNone | LogMetadata | LogFull

  datatype Config = Config(handler: Handler, logLevel: LogLevel)

  function MethodConfig(name: string): Config {
    if name == "tools/call" || name == "resources/read" || name == "resources/subscribe" then Config(FullEnforce, LogFull)
    else if name == "tools/list" || name == "resources/list" then Config(Filter, LogMetadata)
    else if name == "ping" || name == "notifications/initialized" then Config(Passthrough, LogNone)
    else Config(Passthrough, LogMetadata)
  }

  /** A RequestContext without its pointer to the Request. */
  datatype Info = Info(
    requestId: string,
    methodName: string,
    tool: string,
    uri: string,
    arguments: Option<Json>,
    config: Config,
    receivedAt: int,
    token: string)

  /** What a callback sees. */
  datatype View = View(request: Request, info: Info)

  datatype ToolCall = ToolCall(name: string, arguments: Option<Json>, token: Option<string>)

  datatype ResourceRead = ResourceRead(uri: string, token: Option<string>)

  datatype Decision = Decision(allow: bool, violations: seq<string>, matchedRule: string, mode: string)

  datatype Evaluation = Evaluated(decision: Decision) | EvaluationFailed(partial: Option<Decision>)

  /** Everything outside the router that one call meets. */
  datatype Job = Job(
    message: string,
    decode: string -> Decoded,
    decodeToolCall: string -> Try<ToolCall>,
    decodeResourceRead: string -> Try<ResourceRead>,
    decodeMeta: string -> Option<string>,
    requestId: string,
    now: int,
    agentId: string,
    capabilities: seq<string>,
    evaluator: Option<View -> Evaluation>,
    sender: Option<string -> Try<string>>,
    audits: bool)

  datatype ViolationData = ViolationData(
    requestId: string, agentId: string, tool: string, capabilities: seq<string>, violations: seq<string>, mode: string)

  datatype Reply =
    | Failure(id: Option<Json>, code: int, message: string, data: Option<ViolationData>)
    | Answer(text: string)
    | SendError(error: string)

  datatype Audit = Audit(view: View, decision: Option<Decision>, reply: Reply)

  /** What Route returns, and the audit call it made. */
  datatype Result = Result(reply: Reply, audit: Option<Audit>)

  datatype Rejection = Rejection(code: int, message: string)

  // ---------------------------------------------------------------- parsing

  predicate IsMethodName(s: string) {
    && s != "" && IsLetter(s[0])
    && forall i :: 0 <= i < |s| ==> IsLetter(s[i]) || IsDigit(s[i]) || s[i] == '_' || s[i] == '/'
  }

  /** Why Parse refuses a decoded request. */
  function Validate(req: Request): Option<Rejection> {
    if req.jsonrpc != "2.0" then Some(Rejection(INVALID_REQUEST, "Invalid JSON-RPC version: expected '2.0', got '" + req.jsonrpc + "'"))
    else if req.methodName == "" then Some(Rejection(INVALID_REQUEST, "Missing 'method' field"))
    else if |req.methodName| > MAX_METHOD_LENGTH then Some(Rejection(INVALID_REQUEST, "Method name too long"))
    else if !IsMethodName(req.methodName) then Some(Rejection(INVALID_REQUEST, "Invalid method name format"))
    else if HasPrefix(req.methodName, "rpc.") then Some(Rejection(INVALID_REQUEST, "Method names starting with 'rpc.' are reserved"))
    else None
  }

  /** Parse's verdict on a decoded request. */
  function Verdict(req: Request, error: Option<string>): Option<Rejection> {
    if error.Some? then Some(Rejection(PARSE_ERROR, "Invalid JSON: " + error.value)) else Validate(req)
  }

  /** The test for reserved names decides nothing: their dot already fails the format. */
  lemma {:induction false} ReservedCheckIsDead(req: Request)
    ensures Validate(req).None? <==>
      req.jsonrpc == "2.0" && IsMethodName(req.methodName) && |req.methodName| <= MAX_METHOD_LENGTH
  {
    var name := req.methodName;
    if HasPrefix(name, "rpc.") {
      assert name[3] == name[..4][3] == '.';
      assert !IsMethodName(name);
    }
  }

  // ---------------------------------------------------------------- the request context

  function NewInfo(job: Job, methodName: string): Info {
    Info(job.requestId, methodName, "", "", None, MethodConfig(methodName), job.now, "")
  }

  datatype Extraction = Extracted(info: Info) | Refused(rejection: Rejection)

  function WithToken(info: Info, token: Option<string>): Info {
    if token.Some? then info.(token := token.value) else info
  }

  /** extractRequestDetails. */
  function Details(job: Job, req: Request, info: Info): Extraction {
    if req.methodName == "tools/call" then
      if req.params.None? then Refused(Rejection(INVALID_PARAMS, "Missing 'params' for tools/call"))
      else
        var call := job.decodeToolCall(req.params.value);
        if call.Failed? then Refused(Rejection(INVALID_PARAMS, "Invalid tools/call params: " + call.error))
        else if call.value.name == "" then Refused(Rejection(INVALID_PARAMS, "Missing 'name' in tools/call params"))
        else Extracted(WithToken(info.(tool := call.value.name, arguments := call.value.arguments), call.value.token))
    else if req.methodName == "resources/read" then
      if req.params.None? then Refused(Rejection(INVALID_PARAMS, "Missing 'params' for resources/read"))
      else
        var read := job.decodeResourceRead(req.params.value);
        if read.Failed? then Refused(Rejection(INVALID_PARAMS, "Invalid resources/read params: " + read.error))
        else if read.value.uri == "" then Refused(Rejection(INVALID_PARAMS, "Missing 'uri' in resources/read params"))
        else Extracted(WithToken(info.(uri := read.value.uri), read.value.token))
    else Extracted(info)
  }

  /** The details and then the token of the `_meta` field. */
  function Extract(job: Job, req: Request, info: Info): Extraction {
    var details := Details(job, req, info);
    if details.Refused? then details
    else Extracted(WithToken(details.info, if req.params.None? then None else job.decodeMeta(req.params.value)))
  }

  // ---------------------------------------------------------------- handlers

  /** Before forwarding: a reply that ends the request, or leave to forward. */
  datatype Deliberation = Settled(reply: Reply, decision: Option<Decision>) | Proceed(decision: Option<Decision>)

  function Denial(job: Job, view: View, d: Decision): Reply {
    Failure(view.request.id, POLICY_VIOLATION,
            if d.violations == [] then "Policy violation" else d.violations[0],
            Some(ViolationData(view.info.requestId, job.agentId, view.info.tool, job.capabilities, d.violations, d.mode)))
  }

  function Deliberate(job: Job, view: View): Deliberation {
    match view.info.config.handler
    case Passthrough => Proceed(None)
    case Filter => Proceed(Some(Decision(true, [], "passthrough", "filter")))
    case FullEnforce =>
      if job.evaluator.None? then Proceed(Some(Decision(true, [], "no_policy", "disabled")))
      else (match job.evaluator.value(view)
            case EvaluationFailed(d) => Settled(Failure(view.request.id, INTERNAL_ERROR, "Policy evaluation failed", None), d)
            case Evaluated(d) =>
              if !d.allow && d.mode == "enforce" then Settled(Denial(job, view, d), Some(d)) else Proceed(Some(d)))
  }

  /** The upstream's answer; only the enforcing handler turns its failure into a reply. */
  function Forward(job: Job, view: View): Reply {
    if job.sender.None? then Answer(job.message)
    else
      var answer := job.sender.value(job.message);
      if answer.Done? then Answer(answer.value)
      else if view.info.config.handler == FullEnforce then Failure(view.request.id, UPSTREAM_ERROR, answer.error, None)
      else SendError(answer.error)
  }

  function Answered(job: Job, view: View, d: Deliberation): Reply {
    if d.Settled? then d.reply else Forward(job, view)
  }

  function Conclude(job: Job, view: View, decision: Option<Decision>, reply: Reply): Result {
    Result(reply, if job.audits && view.info.config.logLevel != LogNone then Some(Audit(view, decision, reply)) else None)
  }

  function Rejected(r: Rejection, id: Option<Json>): Result {
    Result(Failure(id, r.code, r.message, None), None)
  }

  // ---------------------------------------------------------------- routing with fresh objects

  function RequestOf(job: Job): Request {
    Unmarshal(BLANK, job.decode(job.message))
  }

  function VerdictOf(job: Job): Option<Rejection> {
    if job.message == "" then Some(Rejection(PARSE_ERROR, "Empty message"))
    else Verdict(RequestOf(job), job.decode(job.message).error)
  }

  function InfoOf(job: Job): Info {
    NewInfo(job, RequestOf(job).methodName)
  }

  function ExtractionOf(job: Job): Extraction {
    Extract(job, RequestOf(job), InfoOf(job))
  }

  function RouteView(job: Job, view: View): Result {
    var d := Deliberate(job, view);
    Conclude(job, view, d.decision, Answered(job, view, d))
  }

  /** Route with a new Request and a new RequestContext. */
  function RouteFresh(job: Job): Result {
    if VerdictOf(job).Some? then Rejected(VerdictOf(job).value, None)
    else
      match ExtractionOf(job)
      case Refused(r) => Rejected(r, RequestOf(job).id)
      case Extracted(info) => RouteView(job, View(RequestOf(job), info))
  }

  // ---------------------------------------------------------------- what the caller can rely on

  /** The methods that the registry puts under full enforcement, and those it never audits. */
  const ENFORCED_METHODS: set<string> := {"tools/call", "resources/read", "resources/subscribe"}
  const UNAUDITED_METHODS: set<string> := {"ping", "notifications/initialized"}
  const LIST_METHODS: set<string> := {"tools/list", "resources/list"}

  lemma {:induction false} ConfigIff(name: string)
    ensures MethodConfig(name).handler == FullEnforce <==> name in ENFORCED_METHODS
    ensures MethodConfig(name).handler == Filter <==> name in LIST_METHODS
    ensures MethodConfig(name).logLevel == LogNone <==> name in UNAUDITED_METHODS
  {
  }

  /** The request reaches its handler. */
  predicate Routed(job: Job) {
    VerdictOf(job).None? && ExtractionOf(job).Extracted?
  }

  /** A letter, then letters, digits, underscores and slashes, at most 256 in all. */
  predicate IsPlainName(name: string) {
    && 0 < |name| <= 256 && ('a' <= name[0] <= 'z' || 'A' <= name[0] <= 'Z')
    && forall c :: c in name ==> 'a' <= c <= 'z' || 'A' <= c <= 'Z' || '0' <= c <= '9' || c in {'_', '/'}
  }

  lemma {:induction false} NameIff(name: string)
    ensures IsMethodName(name) && |name| <= MAX_METHOD_LENGTH <==> IsPlainName(name)
  {
    forall i | 0 <= i < |name| ensures name[i] in name { }
  }

  /** What the decoder found decides whether the request reaches its handler, and is the request. */
  lemma {:induction false} RoutedIff(job: Job)
    ensures var d := job.decode(job.message);
      Routed(job) <==>
        && job.message != "" && d.error.None? && d.jsonrpc == Some("2.0")
        && d.methodName.Some? && IsPlainName(d.methodName.value)
        && (d.methodName.value == "tools/call" ==>
              d.params.Some? && job.decodeToolCall(d.params.value).Done? && job.decodeToolCall(d.params.value).value.name != "")
        && (d.methodName.value == "resources/read" ==>
              d.params.Some? && job.decodeResourceRead(d.params.value).Done? && job.decodeResourceRead(d.params.value).value.uri != "")
    ensures var d := job.decode(job.message);
      Routed(job) ==>
        RequestOf(job) == Request("2.0", if d.id.Some? then d.id.value else None, d.methodName.value, d.params)
  {
    ReservedCheckIsDead(RequestOf(job));
    NameIff(RequestOf(job).methodName);
    DetailsIff(job, RequestOf(job), InfoOf(job));
  }

  lemma {:induction false} DetailsIff(job: Job, req: Request, info: Info)
    ensures Extract(job, req, info).Extracted? <==>
      && (req.methodName == "tools/call" ==>
            req.params.Some? && job.decodeToolCall(req.params.value).Done? && job.decodeToolCall(req.params.value).value.name != "")
      && (req.methodName == "resources/read" ==>
            req.params.Some? && job.decodeResourceRead(req.params.value).Done? && job.decodeResourceRead(req.params.value).value.uri != "")
  {
  }

  lemma {:induction false} ExtractKeepsConfig(job: Job)
    ensures ExtractionOf(job).Extracted? ==>
      ExtractionOf(job).info.config == MethodConfig(RequestOf(job).methodName)
  {
    ConfigIff(RequestOf(job).methodName);
  }

  /** The view every callback gets describes the request: nothing but the method's own details is
      filled in, and a token in the `_meta` field wins over one among the details. */
  lemma {:induction false} ViewDescribesRequest(job: Job)
    requires Routed(job)
    ensures var req, info := RequestOf(job), ExtractionOf(job).info;
      && info.requestId == job.requestId && info.receivedAt == job.now && info.methodName == req.methodName
      && (info.tool != "" <==> req.methodName == "tools/call")
      && (info.tool != "" ==>
            && job.decodeToolCall(req.params.value).Done?
            && info.tool == job.decodeToolCall(req.params.value).value.name
            && info.arguments == job.decodeToolCall(req.params.value).value.arguments)
      && (info.uri != "" <==> req.methodName == "resources/read")
      && (info.uri != "" ==>
            job.decodeResourceRead(req.params.value).Done? && info.uri == job.decodeResourceRead(req.params.value).value.uri)
      && (info.tool == "" ==> info.arguments == None)
      && (req.params.Some? && job.decodeMeta(req.params.value).Some? ==> info.token == job.decodeMeta(req.params.value).value)
      && (req.params.None? ==> info.token == "")
      && (req.params.Some? && job.decodeMeta(req.params.value).None? ==>
            info.token ==
              if info.tool != "" && job.decodeToolCall(req.params.value).value.token.Some? then job.decodeToolCall(req.params.value).value.token.value
              else if info.uri != "" && job.decodeResourceRead(req.params.value).value.token.Some? then
                job.decodeResourceRead(req.params.value).value.token.value
              else "")
  {
  }

  /** A request that does not reach its handler is refused without evaluator, upstream or audit; its
      id is repeated exactly when the request itself was accepted. */
  lemma {:induction false} RefusedEarly(job: Job, evaluator: Option<View -> Evaluation>, sender: Option<string -> Try<string>>)
    requires !Routed(job)
    ensures RouteFresh(job) == RouteFresh(job.(evaluator := evaluator, sender := sender))
    ensures RouteFresh(job).audit.None? && RouteFresh(job).reply.Failure?
    ensures var reply := RouteFresh(job).reply;
      && (reply.code == PARSE_ERROR <==> job.message == "" || job.decode(job.message).error.Some?)
      && (reply.code == INVALID_PARAMS <==> VerdictOf(job).None?)
      && (reply.code == INVALID_REQUEST <==> reply.code != PARSE_ERROR && reply.code != INVALID_PARAMS)
      && reply.id == if reply.code == INVALID_PARAMS then RequestOf(job).id else None
  {
    var other := job.(evaluator := evaluator, sender := sender);
    assert ExtractionOf(other) == ExtractionOf(job) && VerdictOf(other) == VerdictOf(job);
    RefusalCode(job);
  }

  lemma {:induction false} RefusalCode(job: Job)
    ensures ExtractionOf(job).Refused? ==> ExtractionOf(job).rejection.code == INVALID_PARAMS
    ensures VerdictOf(job).Some? ==>
      VerdictOf(job).value.code == if job.message == "" || job.decode(job.message).error.Some? then PARSE_ERROR else INVALID_REQUEST
  {
  }

  /** The decision an enforced request is judged by, when evaluation succeeds. */
  function Judged(job: Job): Option<Decision> {
    if Routed(job) && RequestOf(job).methodName in ENFORCED_METHODS && job.evaluator.Some? then
      var e := job.evaluator.value(View(RequestOf(job), ExtractionOf(job).info));
      if e.Evaluated? then Some(e.decision) else None
    else None
  }

  /** A request denied in enforce mode is refused under its own id, whatever the upstream is. */
  lemma {:induction false} DeniedIsSealed(job: Job, other: Option<string -> Try<string>>)
    requires Judged(job).Some? && !Judged(job).value.allow && Judged(job).value.mode == "enforce"
    ensures RouteFresh(job) == RouteFresh(job.(sender := other))
    ensures RouteFresh(job).reply.Failure? && RouteFresh(job).reply.code == POLICY_VIOLATION
    ensures RouteFresh(job).reply.id == RequestOf(job).id
    ensures var d := Judged(job).value;
      RouteFresh(job).reply.message == if d.violations == [] then "Policy violation" else d.violations[0]
    ensures var d := Judged(job).value;
      RouteFresh(job).reply.data ==
        Some(ViolationData(job.requestId, job.agentId, ExtractionOf(job).info.tool, job.capabilities, d.violations, d.mode))
  {
    ExtractKeepsConfig(job);
    ViewDescribesRequest(job);
    assert ExtractionOf(job.(sender := other)) == ExtractionOf(job);
  }

  /** So is an enforced request whose evaluation fails. */
  lemma {:induction false} FailedIsSealed(job: Job, other: Option<string -> Try<string>>)
    requires Routed(job) && RequestOf(job).methodName in ENFORCED_METHODS
    requires job.evaluator.Some? && Judged(job).None?
    ensures RouteFresh(job) == RouteFresh(job.(sender := other))
    ensures RouteFresh(job).reply == Failure(RequestOf(job).id, INTERNAL_ERROR, "Policy evaluation failed", None)
  {
    ExtractKeepsConfig(job);
    assert ExtractionOf(job.(sender := other)) == ExtractionOf(job);
  }

  /** What the upstream returns for the message, or the message itself without an upstream. */
  function Upstream(job: Job): Try<string> {
    if job.sender.None? then Done(job.message) else job.sender.value(job.message)
  }

  /** A request that is not denied in enforce mode, or that there is no evaluator for, gets what the
      upstream returns. */
  lemma {:induction false} UndeniedIsForwarded(job: Job)
    requires Routed(job) && RequestOf(job).methodName in ENFORCED_METHODS
    requires job.evaluator.Some? ==> Judged(job).Some? && (Judged(job).value.allow || Judged(job).value.mode != "enforce")
    ensures var answer := Upstream(job);
      RouteFresh(job).reply ==
        if answer.Done? then Answer(answer.value) else Failure(RequestOf(job).id, UPSTREAM_ERROR, answer.error, None)
  {
    ExtractKeepsConfig(job);
  }

  /** Every other method is forwarded without asking the evaluator, its outcome is the upstream's, and
      it is audited unless it is a ping or the notification that initialization is complete. */
  lemma {:induction false} UnenforcedPasses(job: Job, other: Option<View -> Evaluation>)
    requires Routed(job) && RequestOf(job).methodName !in ENFORCED_METHODS
    ensures RouteFresh(job) == RouteFresh(job.(evaluator := other))
    ensures var answer := Upstream(job);
      RouteFresh(job).reply == if answer.Done? then Answer(answer.value) else SendError(answer.error)
    ensures RouteFresh(job).audit.Some? <==> job.audits && RequestOf(job).methodName !in UNAUDITED_METHODS
    ensures RouteFresh(job).audit.Some? ==>
      RouteFresh(job).audit.value ==
        Audit(View(RequestOf(job), ExtractionOf(job).info),
              if RequestOf(job).methodName in LIST_METHODS then Some(Decision(true, [], "passthrough", "filter")) else None,
              RouteFresh(job).reply)
  {
    ExtractKeepsConfig(job);
    ConfigIff(RequestOf(job).methodName);
    assert ExtractionOf(job.(evaluator := other)) == ExtractionOf(job);
  }

  /** Every enforced request that reaches its handler is audited with the view it was judged on. */
  lemma {:induction false} EnforcedIsAudited(job: Job)
    requires Routed(job) && RequestOf(job).methodName in ENFORCED_METHODS && job.audits
    ensures RouteFresh(job).audit.Some?
    ensures RouteFresh(job).audit.value.view == View(RequestOf(job), ExtractionOf(job).info)
    ensures RouteFresh(job).audit.value.reply == RouteFresh(job).reply
    ensures Judged(job).Some? ==> RouteFresh(job).audit.value.decision == Judged(job)
    ensures job.evaluator.None? ==> RouteFresh(job).audit.value.decision == Some(Decision(true, [], "no_policy", "disabled"))
  {
    ExtractKeepsConfig(job);
  }
}
