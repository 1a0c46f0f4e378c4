/**
 * The HTTP routes `setupApp` puts over the render queue: `/health`, `POST /renders` (create a
 * job with defaults), `GET /renders/:jobId` (its state) and `DELETE /renders/:jobId` (cancel
 * it). A request body field that is absent or falsy is `None`.
 */
module RenderRoutes {
  import opened Wrappers
  import opened RenderQueue

  datatype Body =
    | HealthBody(status: string, renders: nat)
    | JobIdBody(jobId: string)
    | JobBody(job: JobState)
    | MessageBody(message: string)

  datatype Reply = Reply(status: nat, body: Body)

  /** `compositionId || "HelloWorld"` and `inputProps || {}`. */
  function RequestedData(compositionId: Option<string>, inputProps: Option<Props>): (d: JobData)
    ensures compositionId.None? || compositionId.value == "" ==> d.compositionId == "HelloWorld"
    ensures compositionId.Some? && compositionId.value != "" ==> d.compositionId == compositionId.value
    ensures d.inputProps == if inputProps.Some? then inputProps.value else Props(map[])
  {
    JobData(if compositionId.Some? && compositionId.value != "" then compositionId.value else "HelloWorld",
            inputProps.GetOr(Props(map[])))
  }

  /** `GET /health`: ok, with the number of jobs the map holds. */
  function Health(q: Queue): (r: Reply)
    reads q
    ensures r.status == 200 && r.body == HealthBody("ok", |q.jobs|)
  {
    Reply(200, HealthBody("ok", |q.jobs|))
  }

  /** `GET /renders/:jobId`. */
  function GetJob(q: Queue, jobId: string): (r: Reply)
    reads q
    ensures jobId !in q.jobs ==> r == Reply(404, MessageBody("Job not found"))
    ensures jobId in q.jobs ==> r == Reply(200, JobBody(q.jobs[jobId]))
  {
    if jobId !in q.jobs then Reply(404, MessageBody("Job not found")) else Reply(200, JobBody(q.jobs[jobId]))
  }

  /** `POST /renders`: a new job, queued with the defaulted data; the reply carries its id. */
  method PostRenders(q: Queue, compositionId: Option<string>, inputProps: Option<Props>, uuid: string)
    returns (r: Reply)
    requires q.Valid() && uuid !in q.created
    modifies q
    ensures q.Valid()
    ensures r == Reply(200, JobIdBody(uuid))
    ensures q.jobs == old(q.jobs)[uuid := Queued(RequestedData(compositionId, inputProps))]
    ensures q.pending == old(q.pending) + [uuid]
  {
    var jobId := q.CreateJob(RequestedData(compositionId, inputProps), uuid);
    r := Reply(200, JobIdBody(jobId));
  }

  /**
   * `DELETE /renders/:jobId`: 404 for an unknown job, 400 for a job neither queued nor in
   * progress; otherwise the job's `cancel` runs and the reply says so.
   */
  method DeleteJob(q: Queue, jobId: string) returns (r: Reply)
    requires q.Valid()
    modifies q
    ensures q.Valid()
    ensures jobId !in old(q.jobs) ==> r == Reply(404, MessageBody("Job not found")) && unchanged(q)
    ensures jobId in old(q.jobs) && !(old(q.jobs[jobId]).Queued? || old(q.jobs[jobId]).InProgress?) ==>
      r == Reply(400, MessageBody("Job is not cancellable")) && unchanged(q)
    ensures jobId in old(q.jobs) && old(q.jobs[jobId]).Queued? ==>
      r == Reply(200, MessageBody("Job cancelled")) && q.jobs == old(q.jobs) - {jobId}
    ensures jobId in old(q.jobs) && old(q.jobs[jobId]).InProgress? ==>
      r == Reply(200, MessageBody("Job cancelled")) && q.jobs == old(q.jobs) && jobId in q.signalled
  {
    if jobId !in q.jobs {
      return Reply(404, MessageBody("Job not found"));
    }
    var job := q.jobs[jobId];
    if !job.Queued? && !job.InProgress? {
      return Reply(400, MessageBody("Job is not cancellable"));
    }
    q.Cancel(jobId);
    r := Reply(200, MessageBody("Job cancelled"));
  }
}
