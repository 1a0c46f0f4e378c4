/**
 * The standalone render server (`src/server.js`): bearer-token `auth`, and a `renders` map
 * whose entries are rebuilt by spreading the previous entry at every transition. `POST /render`
 * starts an un-awaited async function; its first statement (marking the entry `rendering`)
 * runs before the reply is sent, its later steps are the methods `Progress`, `Complete` and
 * `Fail`. Bundling, the renderer, `uuidv4` and the clock are oracles or parameters.
 */
module RenderServer {
  import opened Wrappers
  import opened JsText
  import RenderQueue

  const OutputDir: string := "/app/output"

  datatype Status = Pending | Rendering | Done | Error

  /** A `renders` entry; the fields a spread has not yet added are `None`. */
  datatype Render = Render(status: Status, progress: real, startedAt: int,
                           outputPath: Option<string>, error: Option<string>, completedAt: Option<int>)

  /** The fields of `POST /render` the background render reads; a falsy field is `None` or "". */
  datatype RenderRequest = RenderRequest(compositionId: Option<string>, inputProps: Option<RenderQueue.Props>,
                                         codec: Option<string>, outputFormat: Option<string>)

  /** `s || d` for an optional string. */
  function OrDefault(s: Option<string>, d: string): (r: string)
    ensures r == d || (s.Some? && s.value != "" && r == s.value)
    ensures s.Some? && s.value != "" ==> r == s.value
  {
    if s.Some? && s.value != "" then s.value else d
  }

  /** The composition, codec and file extension a request renders with, defaults applied. */
  function CompositionOf(req: RenderRequest): string { OrDefault(req.compositionId, "ProductDemo") }
  function CodecOf(req: RenderRequest): string { OrDefault(req.codec, "h264") }
  function ExtensionOf(req: RenderRequest): string { OrDefault(req.outputFormat, "mp4") }

  /** Without any of the three fields a request renders ProductDemo in h264 to an mp4 file. */
  lemma Defaults()
    ensures var req := RenderRequest(None, None, None, None);
      CompositionOf(req) == "ProductDemo" && CodecOf(req) == "h264" && ExtensionOf(req) == "mp4"
  {
  }

  /** `path.join(OUTPUT_DIR, `${id}.${ext}`)` for an id with no path separators or dots. */
  function OutputPath(id: string, req: RenderRequest): string {
    OutputDir + "/" + id + "." + ExtensionOf(req)
  }

  /**
   * `auth`: with an empty `API_TOKEN` every request passes; otherwise the `Authorization`
   * header with its first "Bearer " removed must equal the token, and a missing header fails.
   */
  function Authorized(apiToken: string, authorization: Option<string>): bool {
    apiToken == "" || (authorization.Some? && ReplaceFirst(authorization.value, "Bearer ", "") == apiToken)
  }

  /**
   * A configured token is accepted as "Bearer <token>", and refused when the header is
   * missing; with no token configured anything passes.
   */
  lemma AuthorizedCases(apiToken: string, authorization: Option<string>)
    ensures apiToken == "" ==> Authorized(apiToken, authorization)
    ensures Authorized(apiToken, Some("Bearer " + apiToken))
    ensures apiToken != "" && authorization.None? ==> !Authorized(apiToken, authorization)
  {
    ReplaceFirstAtStart("Bearer ", "", apiToken);
  }

  /** The header is only stripped of "Bearer ", so the bare token, without the scheme, passes too. */
  lemma BareTokenPasses(apiToken: string)
    requires !Contains(apiToken, "Bearer ")
    ensures Authorized(apiToken, Some(apiToken))
  {
    ReplaceFirstAbsent(apiToken, "Bearer ", "");
  }

  datatype Body =
    | Unauthorized
    | HealthBody(status: string, renders: nat)
    | Started(id: string, state: Status)
    | StatusBody(id: string, render: Render)
    | NotFoundBody(error: string)
    | FileBody(path: string)

  datatype Reply = Reply(code: nat, body: Body)

  class Server {
    const apiToken: string
    var renders: map<string, Render>
    /** The background renders not yet settled, with the request each one closed over. */
    var running: map<string, RenderRequest>
    /** When each render was started; no transition changes it. */
    ghost var started: map<string, int>

    /**
     * A render in flight is `rendering`; a settled one is `done` with progress 1, an output
     * path and a completion time, or `error` with a message and a completion time; every
     * entry keeps its start time.
     */
    ghost predicate Valid()
      reads this
    {
      running.Keys <= renders.Keys && renders.Keys == started.Keys
      && forall id :: id in renders ==>
        var r := renders[id];
        r.startedAt == started[id]
        && (id in running ==> r.status == Rendering)
        && (id !in running ==> Settled(r))
    }

    constructor (apiToken: string)
      ensures Valid() && this.apiToken == apiToken && renders == map[] && running == map[]
    {
      this.apiToken := apiToken;
      renders, running, started := map[], map[], map[];
    }

    /** `GET /health`. */
    function Health(): (r: Reply)
      reads this
      ensures r == Reply(200, HealthBody("ok", |renders|))
    {
      Reply(200, HealthBody("ok", |renders|))
    }

    /**
     * `POST /render` with `uuid` the fresh `uuidv4()` and `now` the clock: the entry is set
     * `pending` at progress 0, the background function sets it `rendering` before its first
     * `await`, and the reply, sent after that, still says `pending`.
     */
    method PostRender(authorization: Option<string>, req: RenderRequest, uuid: string, now: int) returns (r: Reply)
      requires Valid() && uuid !in renders
      modifies this
      ensures Valid()
      ensures !Authorized(apiToken, authorization) ==> r == Reply(401, Unauthorized) && unchanged(this)
      ensures Authorized(apiToken, authorization) ==>
        r == Reply(200, Started(uuid, Pending))
        && renders == old(renders)[uuid := Render(Rendering, 0.0, now, None, None, None)]
        && running == old(running)[uuid := req]
    {
      if !Authorized(apiToken, authorization) {
        return Reply(401, Unauthorized);
      }
      var id := uuid;
      renders := renders[id := Render(Pending, 0.0, now, None, None, None)];
      started := started[id := now];
      renders := renders[id := renders[id].(status := Rendering)];
      running := running[id := req];
      r := Reply(200, Started(id, Pending));
    }

    /** `onProgress`: the entry is spread with the new progress and stays `rendering`. */
    method Progress(id: string, progress: real)
      requires Valid() && id in running
      modifies this`renders
      ensures Valid()
      ensures renders == old(renders)[id := old(renders[id]).(progress := progress)]
    {
      renders := renders[id := renders[id].(progress := progress)];
    }

    /** The render resolved: `done`, progress 1, the output path and the completion time. */
    method Complete(id: string, now: int)
      requires Valid() && id in running
      modifies this
      ensures Valid()
      ensures renders == old(renders)[id := old(renders[id]).(status := Done, progress := 1.0,
                outputPath := Some(OutputPath(id, old(running[id]))), completedAt := Some(now))]
      ensures running == old(running) - {id}
    {
      var path := OutputPath(id, running[id]);
      renders := renders[id := renders[id].(status := Done, progress := 1.0, outputPath := Some(path), completedAt := Some(now))];
      running := running - {id};
    }

    /** A step rejected (bundling, composition or render): `error`, its message and the time. */
    method Fail(id: string, message: string, now: int)
      requires Valid() && id in running
      modifies this
      ensures Valid()
      ensures renders == old(renders)[id := old(renders[id]).(status := Error, error := Some(message), completedAt := Some(now))]
      ensures running == old(running) - {id}
    {
      renders := renders[id := renders[id].(status := Error, error := Some(message), completedAt := Some(now))];
      running := running - {id};
    }

    /** `GET /status/:id`. */
    function GetStatus(authorization: Option<string>, id: string): (r: Reply)
      reads this
      ensures !Authorized(apiToken, authorization) ==> r == Reply(401, Unauthorized)
      ensures Authorized(apiToken, authorization) && id !in renders ==> r == Reply(404, NotFoundBody("Not found"))
      ensures Authorized(apiToken, authorization) && id in renders ==> r == Reply(200, StatusBody(id, renders[id]))
    {
      if !Authorized(apiToken, authorization) then Reply(401, Unauthorized)
      else if id !in renders then Reply(404, NotFoundBody("Not found"))
      else Reply(200, StatusBody(id, renders[id]))
    }

    /** `GET /output/:id`: the file only once the render is `done`. */
    function GetOutput(authorization: Option<string>, id: string): (r: Reply)
      reads this
      requires Valid()
      ensures !Authorized(apiToken, authorization) ==> r == Reply(401, Unauthorized)
      ensures Authorized(apiToken, authorization) ==>
        (r.code == 200 <==> id in renders && renders[id].status == Done)
      ensures Authorized(apiToken, authorization) && id in renders && renders[id].status == Done ==>
        r == Reply(200, FileBody(renders[id].outputPath.value))
      ensures r.code != 200 ==> r.code in {401, 404}
    {
      if !Authorized(apiToken, authorization) then Reply(401, Unauthorized)
      else if id !in renders || renders[id].status != Done then Reply(404, NotFoundBody("Not ready"))
      else Reply(200, FileBody(renders[id].outputPath.value))
    }
  }

  /** A settled entry: `done` with its output, or `error` with its message, both timed. */
  predicate Settled(r: Render) {
    (r.status == Done && r.progress == 1.0 && r.outputPath.Some? && r.completedAt.Some?)
    || (r.status == Error && r.error.Some? && r.completedAt.Some?)
  }
}
