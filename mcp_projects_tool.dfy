/**
 * `handleProjectsTool(method, args)`: `list` and `analytics` read the tables, `create` inserts
 * a project and its default columns. The task and time-entry rows `analytics` reads are those
 * of the tasks tool.
 */
module McpProjectsTool {
  import opened Wrappers
  import opened FirstWins
  import opened McpExecutor
  import opened Projects
  import McpTasksTool

  type Task = McpTasksTool.Task
  type TimeEntry = McpTasksTool.TimeEntry

  /** The fields of `args` the methods read; an absent field is `undefined`. */
  datatype Args = Args(workspaceId: Option<int>, name: Option<string>, description: Option<string>, projectId: Option<int>)

  datatype Analytics = Analytics(
    projectId: Option<int>, totalTasks: nat, tasksCompleted: nat, tasksFailed: nat,
    totalCost: real, estimatedCost: real, totalDurationSeconds: int, agentsInvolved: seq<string>)

  datatype Value = ProjectList(projects: seq<Project>) | OneProject(project: Project) | Report(analytics: Analytics)

  // ------------------------------------------------------------------ list and create

  /** `if (args.workspaceId)`: the filter applies only to a truthy id. */
  function ListFilter(workspaceId: Option<int>): (r: Option<int>)
    ensures r.Some? <==> McpTasksTool.TruthyInt(workspaceId)
    ensures r.Some? ==> r == workspaceId
  {
    if McpTasksTool.TruthyInt(workspaceId) then workspaceId else None
  }

  /** `(args.workspaceId as number) || 1`. */
  function CreateWorkspace(workspaceId: Option<int>): (w: int)
    ensures McpTasksTool.TruthyInt(workspaceId) ==> w == workspaceId.value
    ensures !McpTasksTool.TruthyInt(workspaceId) ==> w == 1
  {
    if McpTasksTool.TruthyInt(workspaceId) then workspaceId.value else 1
  }

  // ------------------------------------------------------------------ analytics

  /** `where(eq(tasks.projectId, projectId))`; an absent id compares to NULL and matches nothing. */
  function ProjectTasks(tasks: seq<Task>, projectId: Option<int>): (r: seq<Task>)
    ensures |r| <= |tasks|
    ensures forall t :: t in r <==> t in tasks && projectId == Some(t.projectId)
  {
    if tasks == [] then []
    else
      var init := tasks[..|tasks| - 1];
      var last := tasks[|tasks| - 1];
      assert tasks == init + [last];
      var rest := ProjectTasks(init, projectId);
      if projectId == Some(last.projectId) then rest + [last] else rest
  }

  /** `filter(t => t.status === s).length`. */
  function CountStatus(ts: seq<Task>, s: string): (n: nat)
    ensures n <= |ts|
  {
    if ts == [] then 0 else CountStatus(ts[..|ts| - 1], s) + (if ts[|ts| - 1].status == Some(s) then 1 else 0)
  }

  /** `reduce((sum, t) => sum + (cost(t) ?? 0), 0)`. */
  function CostSum(ts: seq<Task>, actual: bool): real {
    if ts == [] then 0.0
    else
      var t := ts[|ts| - 1];
      var c := if actual then t.actualCost else t.estimatedCost;
      CostSum(ts[..|ts| - 1], actual) + c.GetOr(0.0)
  }

  /** `map(t => t.assigneeAgentId).filter(Boolean)`: the non-empty assignees, in order. */
  function Assignees(ts: seq<Task>): (r: seq<string>)
    ensures forall a :: a in r <==> exists t :: t in ts && McpTasksTool.TruthyString(t.assigneeAgentId) && t.assigneeAgentId.value == a
  {
    if ts == [] then []
    else
      var init := ts[..|ts| - 1];
      var t := ts[|ts| - 1];
      assert ts == init + [t];
      var rest := Assignees(init);
      if McpTasksTool.TruthyString(t.assigneeAgentId) then rest + [t.assigneeAgentId.value] else rest
  }

  function Id(a: string): string {
    a
  }

  /** `[...new Set(xs)]`: each value once, at its first occurrence. */
  function Distinct(xs: seq<string>): seq<string> {
    Firsts(xs, Id)
  }

  /** The entries of the given tasks (`taskId IN (…)`). */
  function EntriesOf(es: seq<TimeEntry>, ids: set<int>): (r: seq<TimeEntry>)
    ensures forall e :: e in r <==> e in es && e.taskId in ids
  {
    if es == [] then []
    else
      var init := es[..|es| - 1];
      var e := es[|es| - 1];
      assert es == init + [e];
      var rest := EntriesOf(init, ids);
      if e.taskId in ids then rest + [e] else rest
  }

  /** `reduce((sum, e) => sum + (e.durationSeconds ?? 0), 0)`. */
  function DurationSum(es: seq<TimeEntry>): int {
    if es == [] then 0 else DurationSum(es[..|es| - 1]) + es[|es| - 1].durationSeconds.GetOr(0)
  }

  function TaskIdSet(ts: seq<Task>): (r: set<int>)
    ensures forall id :: id in r <==> exists t :: t in ts && t.id == id
  {
    set t | t in ts :: t.id
  }

  /** The report: totals over the project's tasks, and the time entries only when it has tasks. */
  function Analyze(projectId: Option<int>, tasks: seq<Task>, entries: seq<TimeEntry>): Analytics {
    var pts := ProjectTasks(tasks, projectId);
    var duration := if |pts| > 0 then DurationSum(EntriesOf(entries, TaskIdSet(pts))) else 0;
    Analytics(projectId, |pts|, CountStatus(pts, "done"), CountStatus(pts, "failed"),
      CostSum(pts, true), CostSum(pts, false), duration, Distinct(Assignees(pts)))
  }

  /** Two different statuses are counted over disjoint sets of tasks. */
  lemma {:induction false} CountTwo(ts: seq<Task>, s1: string, s2: string)
    requires s1 != s2
    ensures CountStatus(ts, s1) + CountStatus(ts, s2) <= |ts|
  {
    if ts != [] {
      CountTwo(ts[..|ts| - 1], s1, s2);
    }
  }

  /** A count gone beyond zero means some task has the status, and a task with it is counted. */
  lemma {:induction false} CountPositive(ts: seq<Task>, s: string)
    ensures CountStatus(ts, s) > 0 <==> exists t :: t in ts && t.status == Some(s)
  {
    if ts != [] {
      var init := ts[..|ts| - 1];
      CountPositive(init, s);
      assert ts == init + [ts[|ts| - 1]];
      if CountStatus(init, s) > 0 {
        var t :| t in init && t.status == Some(s);
        assert t in ts;
      }
      if exists t :: t in ts && t.status == Some(s) {
        var t :| t in ts && t.status == Some(s);
        assert t in init || t == ts[|ts| - 1];
      }
    }
  }

  /** Sums split over concatenation, so the order of the rows does not matter to them. */
  lemma {:induction false} CostSumAppend(a: seq<Task>, b: seq<Task>, actual: bool)
    ensures CostSum(a + b, actual) == CostSum(a, actual) + CostSum(b, actual)
    decreases |b|
  {
    if b == [] {
      assert a + b == a;
    } else {
      var ib := b[..|b| - 1];
      assert (a + b)[..|a + b| - 1] == a + ib;
      assert (a + b)[|a + b| - 1] == b[|b| - 1];
      CostSumAppend(a, ib, actual);
    }
  }

  lemma {:induction false} DurationSumAppend(a: seq<TimeEntry>, b: seq<TimeEntry>)
    ensures DurationSum(a + b) == DurationSum(a) + DurationSum(b)
    decreases |b|
  {
    if b == [] {
      assert a + b == a;
    } else {
      var ib := b[..|b| - 1];
      assert (a + b)[..|a + b| - 1] == a + ib;
      assert (a + b)[|a + b| - 1] == b[|b| - 1];
      DurationSumAppend(a, ib);
    }
  }

  /** No selected entry gives no duration. */
  lemma {:induction false} EntriesOfNone(es: seq<TimeEntry>)
    ensures EntriesOf(es, {}) == []
  {
    if es != [] {
      EntriesOfNone(es[..|es| - 1]);
    }
  }

  /**
   * The report counts the project's tasks, their done and failed ones (never more than the
   * tasks together), lists each non-empty assignee of the project's tasks exactly once, and its
   * duration is the sum over the entries of the project's tasks;
   * the guard on an empty task list changes nothing, since no entry then qualifies.
   */
  lemma AnalyzeContract(projectId: Option<int>, tasks: seq<Task>, entries: seq<TimeEntry>)
    ensures var r := Analyze(projectId, tasks, entries);
      var pts := ProjectTasks(tasks, projectId);
      r.projectId == projectId && r.totalTasks == |pts|
      && r.tasksCompleted + r.tasksFailed <= r.totalTasks
      && (r.tasksCompleted > 0 <==> exists t :: t in tasks && projectId == Some(t.projectId) && t.status == Some("done"))
      && (r.tasksFailed > 0 <==> exists t :: t in tasks && projectId == Some(t.projectId) && t.status == Some("failed"))
      && (forall a :: a in r.agentsInvolved <==>
            exists t :: t in tasks && projectId == Some(t.projectId) && t.assigneeAgentId == Some(a) && a != "")
      && (forall i, j :: 0 <= i < j < |r.agentsInvolved| ==> r.agentsInvolved[i] != r.agentsInvolved[j])
      && r.totalDurationSeconds == DurationSum(EntriesOf(entries, TaskIdSet(pts)))
  {
    var pts := ProjectTasks(tasks, projectId);
    var r := Analyze(projectId, tasks, entries);
    CountTwo(pts, "done", "failed");
    CountPositive(pts, "done");
    CountPositive(pts, "failed");
    var xs := Assignees(pts);
    FirstsDistinct(xs, Id);
    forall a ensures a in r.agentsInvolved <==> a in xs {
      assert a in KeysOf(Firsts(xs, Id), Id) <==> a in KeysOf(xs, Id);
      KeysOfMembers(Firsts(xs, Id), a);
      KeysOfMembers(xs, a);
    }
    if |pts| == 0 {
      assert TaskIdSet(pts) == {};
      EntriesOfNone(entries);
    }
  }

  lemma KeysOfMembers(xs: seq<string>, a: string)
    ensures a in KeysOf(xs, Id) <==> a in xs
  {
    if a in KeysOf(xs, Id) {
      KeysOfSome(xs, a);
    }
  }

  lemma {:induction false} KeysOfSome(xs: seq<string>, a: string)
    requires a in KeysOf(xs, Id)
    ensures a in xs
  {
    var i := FirstWithIsFirst(xs, Id, a);
  }

  // ------------------------------------------------------------------ the handler

  /** `handleProjectsTool(method, args)`. */
  method Handle(db: ProjectsDb, m: string, args: Args, tasks: seq<Task>, entries: seq<TimeEntry>,
                workspaceIds: set<int>, now: int) returns (r: Outcome<Value>)
    requires db.Valid()
    modifies db
    ensures db.Valid()
    ensures m != "create" ==> unchanged(db)
    ensures m == "list" ==> r == Returned(ProjectList(ListProjects(db.projects, ListFilter(args.workspaceId))))
    ensures m == "create" && args.name.None? ==> r == Thrown && unchanged(db)
    ensures m == "create" && args.name.Some? ==>
      var w := CreateWorkspace(args.workspaceId);
      if ProjectAccepted(w, args.name.value, workspaceIds) then
        var p := NewProject(old(db.nextProjectId), w, args.name.value, args.description, now);
        r == Returned(OneProject(p)) && db.projects == old(db.projects) + [p]
        && db.columns == old(db.columns) + DefaultColumns(p.id, old(db.nextColumnId), 6)
      else r == Thrown && db.projects == old(db.projects) && db.columns == old(db.columns)
    ensures m == "analytics" ==> r == Returned(Report(Analyze(args.projectId, tasks, entries)))
    ensures m !in {"list", "create", "analytics"} ==> r == Raised("Unknown projects method: " + m)
  {
    if m == "list" {
      r := Returned(ProjectList(ListProjects(db.projects, ListFilter(args.workspaceId))));
    } else if m == "create" {
      if args.name.None? {
        return Thrown;
      }
      var p := db.CreateWithColumns(CreateWorkspace(args.workspaceId), args.name.value, args.description, workspaceIds, now);
      r := if p.Some? then Returned(OneProject(p.value)) else Thrown;
    } else if m == "analytics" {
      r := Returned(Report(Analyze(args.projectId, tasks, entries)));
    } else {
      r := Raised("Unknown projects method: " + m);
    }
  }
}
