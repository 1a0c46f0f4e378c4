/**
 * The render queue of the Remotion render server (`makeRenderQueue`): a `jobs` map from job id
 * to job state, and one promise chain along which `processRender` runs for each queued job,
 * one at a time, in creation order. The chain is extended by `queue = queue.then(...)` with no
 * `catch`: once one step rejects, every later step is skipped.
 *
 * The asynchronous render is cut into the steps the event loop interleaves: starting the next
 * chained step, each progress callback of the renderer, and the render's end. The renderer
 * (`selectComposition`, `renderMedia`), its cancel signal and `randomUUID` are oracles: the
 * renderer's outcome and the fresh id are parameters.
 */
module RenderQueue {
  import opened Wrappers
  import opened JsText

  /** `inputProps`: a record passed to the renderer untouched (property name to JSON text). */
  datatype Props = Props(entries: map<string, string>)

  /** `JobData`. */
  datatype JobData = JobData(compositionId: string, inputProps: Props)

  /** `JobState`; the `cancel` closures of the first two are the queue's `Cancel`. */
  datatype JobState =
    | Queued(data: JobData)
    | InProgress(progress: real, data: JobData)
    | Completed(videoUrl: string, data: JobData)
    | Failed(error: string, data: JobData)

  /** How the renderer ended: the promise resolved, or it rejected with an error message. */
  datatype RenderResult = Rendered | RenderFailed(message: string)

  /** The URL under which a finished render is served. */
  function VideoUrl(port: nat, jobId: string): (u: string)
    ensures |u| > |jobId| + 4 && u[|u| - |jobId| - 4..] == jobId + ".mp4"
  {
    var prefix := "http://localhost:" + NatToString(port) + "/renders/";
    assert prefix + jobId + ".mp4" == prefix + (jobId + ".mp4");
    prefix + jobId + ".mp4"
  }

  /** The error `processRender` throws, before its `try`, for a job no longer in the map. */
  function NotFound(jobId: string): string {
    "Render job " + jobId + " not found"
  }

  /** The state a render's end leaves: completed with its URL, or failed with the error message. */
  function Ended(port: nat, jobId: string, data: JobData, result: RenderResult): (s: JobState)
    ensures s.data == data
    ensures s.Completed? <==> result.Rendered?
    ensures result.Rendered? ==> s.videoUrl == VideoUrl(port, jobId)
    ensures result.RenderFailed? ==> s == Failed(result.message, data)
  {
    match result
    case Rendered => Completed(VideoUrl(port, jobId), data)
    case RenderFailed(message) => Failed(message, data)
  }

  class Queue {
    const port: nat
    var jobs: map<string, JobState>
    /** The ids whose chained `processRender` step has not run yet, oldest first. */
    var pending: seq<string>
    /** Whether the chain has rejected; a rejected chain skips every later step. */
    var rejected: bool
    /** The render in progress: its id and the `job.data` its step captured. */
    var current: Option<(string, JobData)>
    /** The renders whose cancel signal has been fired. */
    var signalled: set<string>
    /** The data each job was created with. */
    ghost var created: map<string, JobData>
    /** Every id ever queued, in creation order; the first `taken` of them have had their step. */
    ghost var order: seq<string>
    ghost var taken: nat

    ghost predicate Valid()
      reads this
    {
      taken <= |order| && pending == order[taken..]
      && (forall i :: 0 <= i < |order| ==> order[i] in created)
      && (forall id :: id in jobs ==> id in created && jobs[id].data == created[id])
      && (current.Some? ==>
            var (id, data) := current.value;
            id in created && data == created[id] && id in jobs && jobs[id].InProgress?)
      && (forall id :: id in jobs && jobs[id].InProgress? ==> current.Some? && current.value.0 == id)
      && (forall id :: id in jobs && jobs[id].Queued? && !rejected ==> id in pending)
    }

    /** `makeRenderQueue({port, ...})`: no jobs and a resolved chain. */
    constructor (port: nat)
      ensures Valid() && this.port == port
      ensures jobs == map[] && pending == [] && !rejected && current == None && signalled == {}
    {
      this.port := port;
      jobs, pending, rejected, current, signalled := map[], [], false, None, {};
      created, order, taken := map[], [], 0;
    }

    /** `createJob(data)` with `uuid` the fresh `randomUUID()`: `queueRender` stores and chains it. */
    method CreateJob(data: JobData, uuid: string) returns (jobId: string)
      requires Valid() && uuid !in created
      modifies this
      ensures Valid()
      ensures jobId == uuid && jobs == old(jobs)[jobId := Queued(data)]
      ensures pending == old(pending) + [jobId]
      ensures rejected == old(rejected) && current == old(current) && signalled == old(signalled)
    {
      jobId := uuid;
      QueueRender(jobId, data);
    }

    /** `queueRender({jobId, data})`. */
    method QueueRender(jobId: string, data: JobData)
      requires Valid() && jobId !in created
      modifies this
      ensures Valid()
      ensures jobs == old(jobs)[jobId := Queued(data)] && pending == old(pending) + [jobId]
      ensures rejected == old(rejected) && current == old(current) && signalled == old(signalled)
    {
      jobs := jobs[jobId := Queued(data)];
      pending := pending + [jobId];
      created := created[jobId := data];
      order := order + [jobId];
    }

    /**
     * The `cancel` closure of a cancellable job: a queued job is deleted from the map; an
     * in-progress render has its cancel signal fired, and the renderer ends it.
     */
    method Cancel(jobId: string)
      requires Valid() && jobId in jobs && (jobs[jobId].Queued? || jobs[jobId].InProgress?)
      modifies this
      ensures Valid()
      ensures old(jobs[jobId]).Queued? ==> jobs == old(jobs) - {jobId} && signalled == old(signalled)
      ensures old(jobs[jobId]).InProgress? ==> jobs == old(jobs) && signalled == old(signalled) + {jobId}
      ensures pending == old(pending) && rejected == old(rejected) && current == old(current)
    {
      if jobs[jobId].Queued? {
        jobs := jobs - {jobId};
      } else {
        signalled := signalled + {jobId};
      }
    }

    /**
     * The chain runs its next step, once the one before has settled. On a rejected chain the
     * step is skipped. Otherwise `processRender` throws `NotFound` for a job no longer in the
     * map, which rejects the chain, or marks the job in progress at 0 and starts the renderer.
     */
    method RunNext() returns (thrown: Option<string>)
      requires Valid() && pending != [] && current.None?
      modifies this
      ensures Valid()
      ensures pending == old(pending)[1..] && signalled == old(signalled)
      ensures var id := old(pending)[0];
        if old(rejected) then
          thrown == None && rejected && jobs == old(jobs) && current == None
        else if id !in old(jobs) then
          thrown == Some(NotFound(id)) && rejected && jobs == old(jobs) && current == None
        else
          thrown == None && !rejected && current == Some((id, old(jobs)[id].data))
          && jobs == old(jobs)[id := InProgress(0.0, old(jobs)[id].data)]
    {
      var id := pending[0];
      pending := pending[1..];
      taken := taken + 1;
      if rejected {
        return None;
      }
      if id !in jobs {
        rejected := true;
        return Some(NotFound(id));
      }
      var data := jobs[id].data;
      jobs := jobs[id := InProgress(0.0, data)];
      current := Some((id, data));
      thrown := None;
    }

    /** `onProgress`: the job stays in progress with the reported progress. */
    method ReportProgress(progress: real)
      requires Valid() && current.Some?
      modifies this`jobs
      ensures Valid()
      ensures jobs == old(jobs)[current.value.0 := InProgress(progress, current.value.1)]
    {
      var (id, data) := current.value;
      jobs := jobs[id := InProgress(progress, data)];
    }

    /**
     * The render settles: `completed` with the video URL, or, from the `catch` inside
     * `processRender`, `failed` with the error's message; the chain goes on either way.
     */
    method Finish(result: RenderResult)
      requires Valid() && current.Some?
      modifies this
      ensures Valid()
      ensures var (id, data) := old(current).value;
        jobs == old(jobs)[id := Ended(port, id, data, result)]
      ensures current == None && pending == old(pending) && rejected == old(rejected) && signalled == old(signalled)
    {
      var (id, data) := current.value;
      jobs := jobs[id := Ended(port, id, data, result)];
      current := None;
    }
  }

  // ------------------------------------------------------------------ the chain without a catch

  /**
   * A queued job that is cancelled before its step runs makes that step throw, and from then
   * on the chain is rejected: no later step runs, so no job queued after it is rendered by the
   * chain. The rejection has no handler; under Node's defaults that ends the process, which
   * this model does not follow.
   */
  method CancelledJobHaltsChain(q: Queue, id: string)
    requires q.Valid() && id in q.jobs && q.jobs[id].Queued? && !q.rejected && q.current.None?
    requires q.pending != [] && q.pending[0] == id
    modifies q
    ensures q.Valid() && q.rejected
    ensures forall later :: later in old(q.jobs) && old(q.jobs[later]).Queued? && later != id ==>
      later in q.jobs && q.jobs[later].Queued?
  {
    q.Cancel(id);
    var thrown := q.RunNext();
    assert thrown == Some(NotFound(id));
    while q.pending != []
      invariant q.Valid() && q.rejected && q.current.None?
      invariant forall later :: later in old(q.jobs) && old(q.jobs[later]).Queued? && later != id ==>
        later in q.jobs && q.jobs[later].Queued?
      decreases |q.pending|
    {
      thrown := q.RunNext();
    }
  }
}
