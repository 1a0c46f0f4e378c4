/**
 * The server hook `handle`: every request is authenticated by API key or by session cookie,
 * let through unauthenticated on a public path, or refused — with 401 JSON under /api/ and a
 * redirect to /login elsewhere. The decision is a function of the request's `x-api-key`
 * header, its `palais_session` cookie, its path, and the `PALAIS_API_KEY` setting.
 */
module AuthHook {
  import opened Wrappers
  import opened JsText

  datatype Source = Api | Cookie | NoSource

  /** What the hook writes to `event.locals.user`. */
  datatype User = User(authenticated: bool, source: Source)

  /** The request goes on to the route with a user, or a response is returned in its place. */
  datatype Decision =
    | Resolve(user: User)
    | Respond(status: int, contentType: Option<string>, location: Option<string>, body: Option<string>)

  /** `env.PALAIS_API_KEY || 'dev-key'`: an absent or empty setting means "dev-key". */
  function ApiKey(setting: Option<string>): (k: string)
    ensures k != ""
    ensures setting.Some? && setting.value != "" ==> k == setting.value
  {
    if setting.Some? && setting.value != "" then setting.value else "dev-key"
  }

  const PublicPaths: seq<string> := ["/login", "/api/health", "/dl/"]

  /** `publicPaths.some((p) => pathname.startsWith(p))`. */
  predicate IsPublic(path: string) {
    exists p :: p in PublicPaths && StartsWith(path, p)
  }

  /** A header or cookie value that JavaScript treats as true: present and not empty. */
  predicate Truthy(v: Option<string>) {
    v.Some? && v.value != ""
  }

  const UnauthorizedJson: string := "{\"error\":\"Unauthorized\"}"

  /** `handle({event, resolve})`. */
  function Handle(apiKeyHeader: Option<string>, sessionCookie: Option<string>, path: string, setting: Option<string>): (d: Decision)
    ensures d.Resolve? ==> (d.user.authenticated <==> d.user.source != NoSource)
  {
    if Truthy(apiKeyHeader) && apiKeyHeader.value == ApiKey(setting) then Resolve(User(true, Api))
    else if Truthy(sessionCookie) then Resolve(User(true, Cookie))
    else if !IsPublic(path) && StartsWith(path, "/api/") then
      Respond(401, Some("application/json"), None, Some(UnauthorizedJson))
    else if !IsPublic(path) then Respond(302, None, Some("/login"), None)
    else Resolve(User(false, NoSource))
  }

  // ------------------------------------------------------------------ properties

  /** The configured key (by default "dev-key") authenticates with source api, whatever the path. */
  lemma ApiKeyAuthenticates(sessionCookie: Option<string>, path: string, setting: Option<string>)
    ensures Handle(Some(ApiKey(setting)), sessionCookie, path, setting) == Resolve(User(true, Api))
    ensures Handle(Some("dev-key"), sessionCookie, path, None) == Resolve(User(true, Api))
  {
  }

  /** Any non-empty session cookie authenticates with source cookie, even beside a wrong API key. */
  lemma CookieAuthenticates(apiKeyHeader: Option<string>, session: string, path: string, setting: Option<string>)
    requires session != ""
    requires apiKeyHeader != Some(ApiKey(setting))
    ensures Handle(apiKeyHeader, Some(session), path, setting) == Resolve(User(true, Cookie))
  {
  }

  /** A request is authenticated exactly when it carries the configured key or a session cookie. */
  lemma AuthenticatedIff(apiKeyHeader: Option<string>, sessionCookie: Option<string>, path: string, setting: Option<string>)
    ensures var d := Handle(apiKeyHeader, sessionCookie, path, setting);
      (d.Resolve? && d.user.authenticated) <==> (apiKeyHeader == Some(ApiKey(setting)) || Truthy(sessionCookie))
  {
  }

  /**
   * Without credentials: a public path passes unauthenticated with source none; any other path
   * under /api/ is 401 with a JSON error; every other path is a 302 to /login.
   */
  lemma AnonymousRequest(apiKeyHeader: Option<string>, sessionCookie: Option<string>, path: string, setting: Option<string>)
    requires apiKeyHeader != Some(ApiKey(setting)) && !Truthy(sessionCookie)
    ensures var d := Handle(apiKeyHeader, sessionCookie, path, setting);
      (IsPublic(path) ==> d == Resolve(User(false, NoSource))) &&
      (!IsPublic(path) && StartsWith(path, "/api/") ==> d.Respond? && d.status == 401 && d.body == Some(UnauthorizedJson)) &&
      (!IsPublic(path) && !StartsWith(path, "/api/") ==> d.Respond? && d.status == 302 && d.location == Some("/login"))
  {
  }

  /** The public paths are prefixes: "/api/health" covers "/api/healthz" as well as "/api/health/nodes". */
  lemma PublicByPrefix(rest: string)
    ensures IsPublic("/api/health" + rest)
    ensures IsPublic("/dl/" + rest)
    ensures IsPublic("/login" + rest)
  {
    PrefixStarts("/api/health", rest);
    PrefixStarts("/dl/", rest);
    PrefixStarts("/login", rest);
    assert PublicPaths[0] == "/login" && PublicPaths[1] == "/api/health" && PublicPaths[2] == "/dl/";
  }

  lemma PrefixStarts(p: string, rest: string)
    ensures StartsWith(p + rest, p)
  {
    assert (p + rest)[..|p|] == p;
  }

  /** The integration test's request to /api/mcp without a key (and without a cookie) gets 401. */
  lemma McpWithoutKey(setting: Option<string>)
    ensures Handle(None, None, "/api/mcp", setting).Respond?
    ensures Handle(None, None, "/api/mcp", setting).status == 401
  {
    var path := "/api/mcp";
    assert path[1] == 'a' && path[2] == 'p';
    forall p | p in PublicPaths ensures !StartsWith(path, p) {
      assert p == "/login" || p == "/api/health" || p == "/dl/";
      if p == "/login" {
        assert p[1] == 'l';
      } else if p == "/dl/" {
        assert p[1] == 'd';
      }
    }
    assert path[..5] == "/api/";
    assert StartsWith("/api/mcp", "/api/");
  }
}
