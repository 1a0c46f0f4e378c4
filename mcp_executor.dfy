/**
 * `executeToolCall`: an MCP tool name "palais.<domain>.<method>" is split at its dots and
 * the call goes to the domain's handler with the rest of the name as method and the
 * arguments unchanged. The handlers are a parameter: what they return or raise is theirs.
 */
module McpExecutor {
  import opened Wrappers
  import opened JsText

  datatype Domain = Tasks | Projects | Agents | Budget | Deliverables | Memory | Insights | Standup

  function DomainName(d: Domain): string {
    match d
    case Tasks => "tasks"
    case Projects => "projects"
    case Agents => "agents"
    case Budget => "budget"
    case Deliverables => "deliverables"
    case Memory => "memory"
    case Insights => "insights"
    case Standup => "standup"
  }

  /** The `switch (domain)`: the eight names, and nothing else. */
  function ParseDomain(s: string): (r: Option<Domain>)
    ensures r.Some? ==> DomainName(r.value) == s
  {
    if s == "tasks" then Some(Tasks)
    else if s == "projects" then Some(Projects)
    else if s == "agents" then Some(Agents)
    else if s == "budget" then Some(Budget)
    else if s == "deliverables" then Some(Deliverables)
    else if s == "memory" then Some(Memory)
    else if s == "insights" then Some(Insights)
    else if s == "standup" then Some(Standup)
    else None
  }

  lemma ParseDomainName(d: Domain)
    ensures ParseDomain(DomainName(d)) == Some(d)
  {
  }

  /** Where a tool name leads: an error raised before any handler runs, or a handler and its method. */
  datatype Route = UnknownTool(message: string) | UnknownDomain(message: string) | Dispatch(domain: Domain, methodName: string)

  const Prefix: string := "palais"

  function RouteName(toolName: string): Route {
    var parts := Split(toolName, '.');
    if |parts| < 3 || parts[0] != Prefix then UnknownTool("Unknown tool: " + toolName)
    else
      match ParseDomain(parts[1])
      case None => UnknownDomain("Unknown tool domain: " + parts[1])
      case Some(d) => Dispatch(d, Join(parts[2..], "."))
  }

  /**
   * What a handler, or the executor, does: return a value, raise an `Error` with a message, or
   * throw some other value (which has no message).
   */
  datatype Outcome<V> = Returned(value: V) | Raised(message: string) | Thrown

  /** `executeToolCall(toolName, args)` over the eight handlers. */
  function ExecuteToolCall<A, V>(toolName: string, args: A, handle: (Domain, string, A) -> Outcome<V>): (r: Outcome<V>)
    ensures RouteName(toolName).Dispatch? ==> r == handle(RouteName(toolName).domain, RouteName(toolName).methodName, args)
    ensures RouteName(toolName).UnknownTool? ==> r == Raised("Unknown tool: " + toolName)
  {
    match RouteName(toolName)
    case UnknownTool(m) => Raised(m)
    case UnknownDomain(m) => Raised(m)
    case Dispatch(d, m) => handle(d, m, args)
  }

  // ------------------------------------------------------------------ properties

  /** Fewer than three dot-separated parts, or a first part other than "palais", is an unknown tool. */
  lemma UnknownToolIff(toolName: string)
    ensures RouteName(toolName).UnknownTool? <==>
      var parts := Split(toolName, '.'); |parts| < 3 || parts[0] != "palais"
    ensures RouteName(toolName).UnknownTool? ==> RouteName(toolName).message == "Unknown tool: " + toolName
  {
  }

  /** An accepted name is exactly "palais." + domain + "." + method: the method keeps its own dots. */
  lemma DispatchRoundTrip(toolName: string)
    requires RouteName(toolName).Dispatch?
    ensures var r := RouteName(toolName);
      toolName == Prefix + "." + (DomainName(r.domain) + "." + r.methodName) && '.' !in DomainName(r.domain)
  {
    var parts := Split(toolName, '.');
    JoinSplit(toolName, '.');
    assert parts == [parts[0]] + ([parts[1]] + parts[2..]);
    assert Join(parts, ".") == parts[0] + "." + Join(parts[1..], ".");
    assert parts[1..] == [parts[1]] + parts[2..];
    assert Join(parts[1..], ".") == parts[1] + "." + Join(parts[2..], ".");
  }

  /** Every name "palais.<domain>.<method>" with a dot-free method reaches that handler with that method. */
  lemma DispatchOf(d: Domain, m: string)
    requires '.' !in m
    ensures RouteName(Prefix + "." + (DomainName(d) + "." + m)) == Dispatch(d, m)
  {
    SplitPieces(Prefix, DomainName(d), m);
    ParseDomainName(d);
  }

  lemma SplitPieces(a: string, b: string, m: string)
    requires '.' !in a && '.' !in b && '.' !in m
    ensures Split(a + "." + (b + "." + m), '.') == [a, b, m]
  {
    SplitAt(a, '.', b + "." + m);
    SplitAt(b, '.', m);
    SplitNone(m, '.');
  }

  lemma SplitFour(p: string, x: string, a: string, b: string)
    requires '.' !in p && '.' !in x && '.' !in a && '.' !in b
    ensures Split(p + "." + (x + "." + (a + "." + b)), '.') == [p, x, a, b]
  {
    SplitAt(a, '.', b);
    SplitNone(b, '.');
    SplitAt(x, '.', a + "." + b);
    SplitAt(p, '.', x + "." + (a + "." + b));
  }

  /** A method with dots is passed on whole: "palais.tasks.a.b" calls the tasks handler with method "a.b". */
  lemma NestedMethod(d: Domain, a: string, b: string)
    requires '.' !in a && '.' !in b
    ensures RouteName(Prefix + "." + (DomainName(d) + "." + (a + "." + b))) == Dispatch(d, a + "." + b)
  {
    SplitFour(Prefix, DomainName(d), a, b);
    var parts := [Prefix, DomainName(d), a, b];
    assert parts[2..] == [a, b];
    ParseDomainName(d);
  }

  /** A second name that is not one of the eight domains raises, as "palais.nonexistent.tool" does. */
  lemma UnknownDomainOf(s: string, m: string)
    requires '.' !in s && '.' !in m && ParseDomain(s).None?
    ensures RouteName(Prefix + "." + (s + "." + m)) == UnknownDomain("Unknown tool domain: " + s)
  {
    SplitPieces(Prefix, s, m);
  }

}
