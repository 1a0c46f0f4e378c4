/**
 * `handleMcpRequest`: the JSON-RPC 2.0 dispatcher of the MCP endpoint. A request whose
 * `jsonrpc` member is not "2.0" is refused before anything else; otherwise the method decides:
 * `initialize`, `tools/list`, `tools/call` (through the tool executor), or an unknown method.
 * The error codes are the pre-defined ones of section 5.1 of the JSON-RPC 2.0 Specification.
 * The tool handlers and `JSON.stringify` of their results are parameters.
 */
module McpRouter {
  import opened Wrappers
  import opened McpExecutor

  const ParseError: int := -32700
  const InvalidRequest: int := -32600
  const MethodNotFound: int := -32601
  const InvalidParams: int := -32602
  const InternalError: int := -32603
  const ToolNotFound: int := -32000

  /** A JSON-RPC id: a string, a number, or an explicit `null`. */
  datatype Id = StringId(s: string) | NumberId(n: int) | NullId

  /** `params.name` (absent when `params` or `name` is) and `params.arguments`. */
  datatype Params<A> = Params(name: Option<string>, arguments: Option<A>)

  /** A parsed request; every member may be absent. */
  datatype Request<A> = Request(jsonrpc: Option<string>, id: Option<Id>, rpcMethod: Option<string>, params: Option<Params<A>>)

  /** A tool definition as `tools/list` advertises it: its domain and method make its name. */
  datatype ToolDef = ToolDef(domain: Domain, methodName: string)

  function ToolName(t: ToolDef): string {
    Prefix + "." + (DomainName(t.domain) + "." + t.methodName)
  }

  datatype Content = Content(kind: string, text: string)

  datatype Payload =
    | Initialized(protocolVersion: string, serverName: string, serverVersion: string, capabilities: seq<string>)
    | Tools(tools: seq<ToolDef>)
    | ToolResult(content: seq<Content>)

  datatype Body = Result(payload: Payload) | Error(code: int, message: string)

  /** A response; an absent `id` is one that JSON serialisation leaves out. */
  datatype Response = Response(jsonrpc: string, id: Option<Id>, body: Body)

  // ------------------------------------------------------------------ tool registry

  /** The methods each domain's `...ToolDefs` list advertises, in its order. */
  function DomainMethods(d: Domain): seq<string> {
    match d
    case Tasks => ["list", "create", "update", "comment", "start_timer", "stop_timer"]
    case Projects => ["list", "create", "analytics"]
    case Agents => ["status", "available"]
    case Budget => ["remaining", "estimate"]
    case Deliverables => ["upload", "list"]
    case Memory => ["search", "recall", "store"]
    case Insights => ["active"]
    case Standup => ["latest"]
  }

  /** Each domain's `...ToolDefs` list. */
  function DomainToolDefs(d: Domain): (r: seq<ToolDef>)
    ensures |r| == |DomainMethods(d)|
    ensures forall i :: 0 <= i < |r| ==> r[i] == ToolDef(d, DomainMethods(d)[i])
  {
    var ms := DomainMethods(d);
    seq(|ms|, i requires 0 <= i < |ms| => ToolDef(d, ms[i]))
  }

  /** The registry's order of the domain lists. */
  const RegistryOrder: seq<Domain> := [Tasks, Projects, Agents, Budget, Deliverables, Memory, Insights, Standup]

  function Concat(ds: seq<Domain>): seq<ToolDef> {
    if ds == [] then [] else DomainToolDefs(ds[0]) + Concat(ds[1..])
  }

  /** `getToolDefinitions()`: the eight lists, spread one after the other. */
  function ToolDefinitions(): seq<ToolDef> {
    Concat(RegistryOrder)
  }

  /** The spread order: tasks, projects, agents, budget, deliverables, memory, insights, standup. */
  lemma RegistryConcat()
    ensures ToolDefinitions() == DomainToolDefs(Tasks) + DomainToolDefs(Projects) + DomainToolDefs(Agents)
      + DomainToolDefs(Budget) + DomainToolDefs(Deliverables) + DomainToolDefs(Memory)
      + DomainToolDefs(Insights) + DomainToolDefs(Standup)
  {
    var ds := RegistryOrder;
    assert ds[1..][1..][1..][1..][1..][1..][1..][1..] == [];
  }

  lemma {:induction false} ConcatMembers(ds: seq<Domain>, t: ToolDef)
    ensures t in Concat(ds) <==> exists k :: 0 <= k < |ds| && t in DomainToolDefs(ds[k])
  {
    if ds != [] {
      ConcatMembers(ds[1..], t);
      if t in DomainToolDefs(ds[0]) {
        assert 0 < |ds| && t in DomainToolDefs(ds[0]);
      }
      if exists k :: 0 <= k < |ds| && t in DomainToolDefs(ds[k]) {
        var k :| 0 <= k < |ds| && t in DomainToolDefs(ds[k]);
        if k > 0 {
          assert ds[1..][k - 1] == ds[k];
        }
      }
    }
  }

  /** Twenty tools are listed, no fewer than the seventeen the integration test asks for. */
  lemma ToolCount()
    ensures |ToolDefinitions()| == 20 >= 17
  {
    RegistryConcat();
  }

  /** Every advertised tool name is one the executor accepts, for that tool's own domain and method. */
  lemma AdvertisedToolsDispatch(t: ToolDef)
    requires t in ToolDefinitions()
    ensures RouteName(ToolName(t)) == Dispatch(t.domain, t.methodName)
  {
    var ds := RegistryOrder;
    ConcatMembers(ds, t);
    var k :| 0 <= k < |ds| && t in DomainToolDefs(ds[k]);
    DomainToolDefsShape(ds[k], t);
    DispatchOf(t.domain, t.methodName);
  }

  lemma DomainToolDefsShape(d: Domain, t: ToolDef)
    requires t in DomainToolDefs(d)
    ensures t.domain == d && '.' !in t.methodName
  {
    var r := DomainToolDefs(d);
    var i :| 0 <= i < |r| && r[i] == t;
    MethodDotFree(d, i);
  }

  lemma MethodDotFree(d: Domain, i: nat)
    requires i < |DomainMethods(d)|
    ensures '.' !in DomainMethods(d)[i]
  {
  }

  // ------------------------------------------------------------------ dispatch

  /** `${method}` of a method that may be absent. */
  function MethodText(m: Option<string>): string {
    match m
    case None => "undefined"
    case Some(s) => s
  }

  /** The reply to `tools/call` once the name is known to be non-empty. */
  function CallReply<V>(id: Option<Id>, outcome: Outcome<V>, stringify: V -> string): Response {
    match outcome
    case Returned(v) => Response("2.0", id, Result(ToolResult([Content("text", stringify(v))])))
    case Raised(m) => Response("2.0", id, Error(InternalError, m))
    case Thrown => Response("2.0", id, Error(InternalError, "Unknown error"))
  }

  /** The tool name a `tools/call` request carries, absent when `params` or its `name` is. */
  function CallName<A>(req: Request<A>): Option<string> {
    if req.params.None? then None else req.params.value.name
  }

  /** `params?.arguments ?? {}`. */
  function CallArgs<A>(req: Request<A>, emptyArgs: A): A {
    if req.params.None? then emptyArgs else req.params.value.arguments.GetOr(emptyArgs)
  }

  /** `handleMcpRequest(request)`. */
  function HandleMcpRequest<A, V>(req: Request<A>, emptyArgs: A, handle: (Domain, string, A) -> Outcome<V>,
                                  stringify: V -> string): (r: Response)
    ensures r.jsonrpc == "2.0"
    ensures r.id.Some? || req.id.None?
  {
    if req.jsonrpc != Some("2.0") then
      Response("2.0", Some(req.id.GetOr(NullId)), Error(InvalidRequest, "Invalid JSON-RPC version"))
    else if req.rpcMethod == Some("initialize") then
      Response("2.0", req.id, Result(Initialized("2024-11-05", "palais", "1.0.0", ["tools"])))
    else if req.rpcMethod == Some("tools/list") then
      Response("2.0", req.id, Result(Tools(ToolDefinitions())))
    else if req.rpcMethod == Some("tools/call") then
      var name := CallName(req);
      if name.None? || name.value == "" then
        Response("2.0", req.id, Error(InvalidParams, "Missing tool name"))
      else
        CallReply(req.id, ExecuteToolCall(name.value, CallArgs(req, emptyArgs), handle), stringify)
    else
      Response("2.0", req.id, Error(MethodNotFound, "Unknown method: " + MethodText(req.rpcMethod)))
  }

  // ------------------------------------------------------------------ properties

  /** A request whose `jsonrpc` is absent or not "2.0" is refused with -32600 and its id, or null. */
  lemma VersionRejected<A, V>(req: Request<A>, emptyArgs: A, handle: (Domain, string, A) -> Outcome<V>, stringify: V -> string)
    requires req.jsonrpc != Some("2.0")
    ensures var r := HandleMcpRequest(req, emptyArgs, handle, stringify);
      r.body == Error(InvalidRequest, "Invalid JSON-RPC version") &&
      r.id == (if req.id.Some? then req.id else Some(NullId))
  {
  }

  /** The version check comes before any dispatch: no handler can change the reply to a refused request. */
  lemma VersionCheckFirst<A, V>(req: Request<A>, e1: A, e2: A, h1: (Domain, string, A) -> Outcome<V>,
                                h2: (Domain, string, A) -> Outcome<V>, s1: V -> string, s2: V -> string)
    requires req.jsonrpc != Some("2.0")
    ensures HandleMcpRequest(req, e1, h1, s1) == HandleMcpRequest(req, e2, h2, s2)
  {
  }

  /** Every reply to an accepted request echoes the request's id as it was. */
  lemma EchoesId<A, V>(req: Request<A>, emptyArgs: A, handle: (Domain, string, A) -> Outcome<V>, stringify: V -> string)
    requires req.jsonrpc == Some("2.0")
    ensures HandleMcpRequest(req, emptyArgs, handle, stringify).id == req.id
  {
  }

  /** `initialize` announces protocol 2024-11-05 and server palais 1.0.0 with the tools capability. */
  lemma InitializeReply<A, V>(req: Request<A>, emptyArgs: A, handle: (Domain, string, A) -> Outcome<V>, stringify: V -> string)
    requires req.jsonrpc == Some("2.0") && req.rpcMethod == Some("initialize")
    ensures var r := HandleMcpRequest(req, emptyArgs, handle, stringify);
      r.body.Result? && r.body.payload.Initialized? &&
      r.body.payload.protocolVersion == "2024-11-05" &&
      r.body.payload.serverName == "palais" && r.body.payload.serverVersion == "1.0.0"
  {
  }

  /** `tools/list` lists the registry, tasks first and standup last. */
  lemma ListReply<A, V>(req: Request<A>, emptyArgs: A, handle: (Domain, string, A) -> Outcome<V>, stringify: V -> string)
    requires req.jsonrpc == Some("2.0") && req.rpcMethod == Some("tools/list")
    ensures var r := HandleMcpRequest(req, emptyArgs, handle, stringify);
      r.body == Result(Tools(ToolDefinitions())) && |r.body.payload.tools| >= 17
  {
    ToolCount();
  }

  /** `tools/call` without a tool name, or with an empty one, is -32602 and calls nothing. */
  lemma MissingToolName<A, V>(req: Request<A>, emptyArgs: A, handle: (Domain, string, A) -> Outcome<V>, stringify: V -> string)
    requires req.jsonrpc == Some("2.0") && req.rpcMethod == Some("tools/call")
    requires CallName(req).None? || CallName(req) == Some("")
    ensures HandleMcpRequest(req, emptyArgs, handle, stringify).body == Error(InvalidParams, "Missing tool name")
  {
  }

  /**
   * A named `tools/call` runs the executor on the name and the arguments (`{}` when absent):
   * a returned value becomes the text of the single content item, a raised error -32603 with
   * its message, anything else thrown -32603 "Unknown error".
   */
  lemma CallReplyOf<A, V>(req: Request<A>, emptyArgs: A, handle: (Domain, string, A) -> Outcome<V>, stringify: V -> string)
    requires req.jsonrpc == Some("2.0") && req.rpcMethod == Some("tools/call")
    requires CallName(req).Some? && CallName(req).value != ""
    ensures var r := HandleMcpRequest(req, emptyArgs, handle, stringify);
      match ExecuteToolCall(CallName(req).value, CallArgs(req, emptyArgs), handle)
      case Returned(v) => r.body == Result(ToolResult([Content("text", stringify(v))]))
      case Raised(m) => r.body == Error(InternalError, m)
      case Thrown => r.body == Error(InternalError, "Unknown error")
  {
    var o := ExecuteToolCall(CallName(req).value, CallArgs(req, emptyArgs), handle);
    assert HandleMcpRequest(req, emptyArgs, handle, stringify) == CallReply(req.id, o, stringify);
  }

  /** A call to a tool of an unknown domain, such as "palais.nonexistent.tool", is an error reply. */
  lemma UnknownDomainCall<A, V>(req: Request<A>, emptyArgs: A, handle: (Domain, string, A) -> Outcome<V>,
                                stringify: V -> string, s: string, m: string)
    requires req.jsonrpc == Some("2.0") && req.rpcMethod == Some("tools/call")
    requires CallName(req) == Some(Prefix + "." + (s + "." + m))
    requires '.' !in s && '.' !in m && ParseDomain(s).None?
    ensures HandleMcpRequest(req, emptyArgs, handle, stringify).body == Error(InternalError, "Unknown tool domain: " + s)
  {
    UnknownDomainOf(s, m);
  }

  /** Any method other than the three is -32601 with the method's name. */
  lemma UnknownMethod<A, V>(req: Request<A>, emptyArgs: A, handle: (Domain, string, A) -> Outcome<V>, stringify: V -> string)
    requires req.jsonrpc == Some("2.0")
    requires req.rpcMethod != Some("initialize") && req.rpcMethod != Some("tools/list") && req.rpcMethod != Some("tools/call")
    ensures HandleMcpRequest(req, emptyArgs, handle, stringify).body == Error(MethodNotFound, "Unknown method: " + MethodText(req.rpcMethod))
  {
  }

  /** The request is answered with an error exactly when one of the four refusals applies. */
  lemma ErrorIff<A, V>(req: Request<A>, emptyArgs: A, handle: (Domain, string, A) -> Outcome<V>, stringify: V -> string)
    ensures HandleMcpRequest(req, emptyArgs, handle, stringify).body.Error? <==>
      req.jsonrpc != Some("2.0") ||
      (req.rpcMethod != Some("initialize") && req.rpcMethod != Some("tools/list") && req.rpcMethod != Some("tools/call")) ||
      (req.rpcMethod == Some("tools/call") &&
        (CallName(req).None? || CallName(req).value == "" ||
         !ExecuteToolCall(CallName(req).value, CallArgs(req, emptyArgs), handle).Returned?))
  {
  }

  /** Every error code the dispatcher uses lies in the range section 5.1 reserves, -32768 to -32000. */
  lemma ReservedCodes<A, V>(req: Request<A>, emptyArgs: A, handle: (Domain, string, A) -> Outcome<V>, stringify: V -> string)
    ensures var r := HandleMcpRequest(req, emptyArgs, handle, stringify);
      r.body.Error? ==> (-32768 <= r.body.code <= -32000 &&
        (r.body.code == InvalidRequest || r.body.code == MethodNotFound || r.body.code == InvalidParams || r.body.code == InternalError))
  {
    var r := HandleMcpRequest(req, emptyArgs, handle, stringify);
    assert r.body.Error? ==>
      r.body.code == InvalidRequest || r.body.code == MethodNotFound || r.body.code == InvalidParams || r.body.code == InternalError;
  }
}
