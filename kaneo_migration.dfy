/**
 * The writing run of the Kaneo migration: a target workspace, then one pass over the Kaneo
 * projects (each upserted by slug, with its six columns and a status-to-column map), one over
 * the Kaneo tasks and one over the Kaneo comments. The Palais tables are in memory; the rows
 * read from Kaneo are parameters, and `now` stands in for `new Date()`.
 */
module KaneoMigration {
  import opened Wrappers
  import opened KaneoStatus
  import Slug
  import Projects
  import McpTasksTool
  import MemorySchema

  type Project = Projects.Project
  type Column = Projects.Column
  type Task = McpTasksTool.Task
  type Comment = McpTasksTool.Comment

  datatype KaneoProject = KaneoProject(id: int, name: string, createdAt: Option<int>)

  datatype KaneoTask = KaneoTask(
    id: int, projectId: int, title: string, description: Option<string>, status: Option<string>,
    priority: Option<string>, createdAt: Option<int>, updatedAt: Option<int>)

  datatype KaneoComment = KaneoComment(taskId: int, content: Option<string>, createdAt: Option<int>)

  datatype Workspace = Workspace(id: int, name: string, slug: string)

  const ImportName: string := "Kaneo Import"
  const ImportSlug: string := "kaneo-import"

  /** A number read from a `Record<number, number>`, when it is truthy (present and not 0). */
  function Mapped(m: map<int, int>, k: int): (r: Option<int>)
    ensures r.Some? <==> k in m && m[k] != 0
    ensures r.Some? ==> r.value == m[k]
  {
    if k in m && m[k] != 0 then Some(m[k]) else None
  }

  /** Every status some default column lists. */
  function StatusesUpTo(n: nat): set<string>
    requires n <= |DefaultColumns|
  {
    if n == 0 then {} else StatusesUpTo(n - 1) + SetOf(DefaultColumns[n - 1].statuses)
  }

  function SetOf(xs: seq<string>): (r: set<string>)
    ensures forall x :: x in r <==> x in xs
  {
    set i | 0 <= i < |xs| :: xs[i]
  }

  /** `columnMapping[pid]?.[status] ?? columnMapping[pid]?.['backlog']`. */
  function ColumnFor(cm: map<string, int>, status: string): (r: Option<int>)
    ensures status in cm ==> r == Some(cm[status])
  {
    if status in cm then Some(cm[status]) else if "backlog" in cm then Some(cm["backlog"]) else None
  }

  /** Every mapped status is one the six columns list, so the map built for a project covers it. */
  lemma MappedStatusListed(kaneoStatus: Option<string>)
    ensures MapStatus(kaneoStatus) in StatusesUpTo(6)
  {
    EveryStatusHasColumn(kaneoStatus);
    var i := ColumnOf(MapStatus(kaneoStatus)).value;
    StatusesUpToHas(6, i, MapStatus(kaneoStatus));
  }

  lemma {:induction false} StatusesUpToHas(n: nat, i: nat, s: string)
    requires i < n <= |DefaultColumns| && s in DefaultColumns[i].statuses
    ensures s in StatusesUpTo(n)
  {
    if i < n - 1 {
      StatusesUpToHas(n - 1, i, s);
    }
  }

  /** The first row, in table order, that the query matches. */
  function FindProject(ps: seq<Project>, workspaceId: int, slug: string): (r: Option<nat>)
    ensures r.Some? ==> r.value < |ps| && ps[r.value].workspaceId == workspaceId && ps[r.value].slug == slug
    ensures r.None? ==> forall i :: 0 <= i < |ps| ==> !(ps[i].workspaceId == workspaceId && ps[i].slug == slug)
    decreases |ps|
  {
    if ps == [] then None
    else
      var r := FindProject(ps[..|ps| - 1], workspaceId, slug);
      assert forall i :: 0 <= i < |ps| - 1 ==> ps[..|ps| - 1][i] == ps[i];
      if r.Some? then r
      else if ps[|ps| - 1].workspaceId == workspaceId && ps[|ps| - 1].slug == slug then Some(|ps| - 1)
      else None
  }

  function FindColumn(cs: seq<Column>, projectId: int, name: string): (r: Option<nat>)
    ensures r.Some? ==> r.value < |cs| && cs[r.value].projectId == projectId && cs[r.value].name == name
    ensures r.None? ==> forall i :: 0 <= i < |cs| ==> !(cs[i].projectId == projectId && cs[i].name == name)
    decreases |cs|
  {
    if cs == [] then None
    else
      var r := FindColumn(cs[..|cs| - 1], projectId, name);
      assert forall i :: 0 <= i < |cs| - 1 ==> cs[..|cs| - 1][i] == cs[i];
      if r.Some? then r
      else if cs[|cs| - 1].projectId == projectId && cs[|cs| - 1].name == name then Some(|cs| - 1)
      else None
  }

  /**
   * Whether the project has a task with the title. The query reads `LIMIT 1` without an order,
   * so when several rows match, which one the store returns is not fixed; callers choose any
   * matching row and use this only to learn that one exists.
   */
  function FindTask(ts: seq<Task>, projectId: int, title: string): (r: Option<nat>)
    ensures r.Some? ==> r.value < |ts| && ts[r.value].projectId == projectId && ts[r.value].title == title
    ensures r.None? ==> forall i :: 0 <= i < |ts| ==> !(ts[i].projectId == projectId && ts[i].title == title)
    decreases |ts|
  {
    if ts == [] then None
    else
      var r := FindTask(ts[..|ts| - 1], projectId, title);
      assert forall i :: 0 <= i < |ts| - 1 ==> ts[..|ts| - 1][i] == ts[i];
      if r.Some? then r
      else if ts[|ts| - 1].projectId == projectId && ts[|ts| - 1].title == title then Some(|ts| - 1)
      else None
  }

  function FindWorkspace(ws: seq<Workspace>, slug: string): (r: Option<nat>)
    ensures r.Some? ==> r.value < |ws| && ws[r.value].slug == slug
    ensures r.None? ==> forall i :: 0 <= i < |ws| ==> ws[i].slug != slug
    decreases |ws|
  {
    if ws == [] then None
    else
      var r := FindWorkspace(ws[..|ws| - 1], slug);
      assert forall i :: 0 <= i < |ws| - 1 ==> ws[..|ws| - 1][i] == ws[i];
      if r.Some? then r
      else if ws[|ws| - 1].slug == slug then Some(|ws| - 1)
      else None
  }

  /** No two task rows share a project and a title. */
  ghost predicate TitlesUnique(ts: seq<Task>) {
    forall i, j :: 0 <= i < j < |ts| ==> !(ts[i].projectId == ts[j].projectId && ts[i].title == ts[j].title)
  }

  /** A row of the project with the title, as the existence query matches it. */
  predicate TitleMatch(row: Task, projectId: int, title: string) {
    row.projectId == projectId && row.title == title
  }

  /** A row whose project and title no row has keeps the titles unique. */
  lemma TitlesUniqueSnoc(ts: seq<Task>, t: Task)
    requires TitlesUnique(ts)
    requires forall i :: 0 <= i < |ts| ==> !(ts[i].projectId == t.projectId && ts[i].title == t.title)
    ensures TitlesUnique(ts + [t])
  {
    var n := ts + [t];
    forall i, j | 0 <= i < j < |n| ensures !(n[i].projectId == n[j].projectId && n[i].title == n[j].title) {
      assert n[i] == ts[i];
      if j < |ts| {
        assert n[j] == ts[j];
      }
    }
  }

  /** Every Kaneo project has a Palais project. */
  ghost predicate AllMapped(ps: seq<KaneoProject>, projectMapping: map<int, int>) {
    forall i :: 0 <= i < |ps| ==> ps[i].id in projectMapping
  }

  /** Mapping one more project keeps every earlier one mapped. */
  lemma MappedSoFar(ps: seq<KaneoProject>, i: nat, before: set<int>, after: set<int>)
    requires i < |ps| && (forall k :: 0 <= k < i ==> ps[k].id in before) && after == before + {ps[i].id}
    ensures forall k :: 0 <= k <= i ==> ps[k].id in after
  {
  }

  /** The task row the insert adds; `colId` stays as the mapping gave it. */
  function NewTask(id: int, projectId: int, columnId: int, t: KaneoTask, status: string,
                   priority: McpTasksTool.Priority, now: int): Task {
    McpTasksTool.Task(id, projectId, columnId, t.title, t.description, Some(status), Some(priority), None,
      MemorySchema.ByUser, None, None, None, t.createdAt.GetOr(now), t.updatedAt.GetOr(now))
  }

  /** The store takes the task row: a column was found, the title fits, the priority is one of the enum. */
  predicate TaskAccepted(t: KaneoTask, colId: Option<int>) {
    colId.Some? && |t.title| <= 500 && McpTasksTool.ParsePriority(t.priority.GetOr("none")).Some?
  }

  /** `for (const s of col.statuses) colMap[s] = columnId`. */
  method MapStatuses(colMap: map<string, int>, sts: seq<string>, colId: int) returns (r: map<string, int>)
    ensures r.Keys == colMap.Keys + SetOf(sts)
    ensures forall s :: s in sts ==> r[s] == colId
  {
    r := colMap;
    for k := 0 to |sts|
      invariant r.Keys == colMap.Keys + SetOf(sts[..k])
      invariant forall s :: s in sts[..k] ==> r[s] == colId
    {
      assert sts[..k + 1] == sts[..k] + [sts[k]];
      r := r[sts[k] := colId];
    }
    assert sts[..|sts|] == sts;
  }

  class Migration {
    var workspaces: seq<Workspace>
    var projects: seq<Project>
    var columns: seq<Column>
    var tasks: seq<Task>
    var comments: seq<Comment>
    var nextWorkspaceId: int
    var nextProjectId: int
    var nextColumnId: int
    var nextTaskId: int
    var nextCommentId: int
    var projectMapping: map<int, int>
    var columnMapping: map<int, map<string, int>>
    var taskMapping: map<int, int>
    var taskCreated: nat
    var taskSkipped: nat
    var commentCreated: nat
    var commentSkipped: nat

    /** Every mapped project has a status-to-column map covering every listed status. */
    ghost predicate ColumnsMapped()
      reads this
    {
      forall k :: k in projectMapping ==>
        projectMapping[k] in columnMapping && columnMapping[projectMapping[k]].Keys == StatusesUpTo(6)
    }

    /** A run over the current Palais tables, with empty mappings and counters. */
    constructor (ws: seq<Workspace>, ps: seq<Project>, cs: seq<Column>, ts: seq<Task>, cms: seq<Comment>, nextId: int)
      ensures workspaces == ws && projects == ps && columns == cs && tasks == ts && comments == cms
      ensures nextWorkspaceId == nextId && nextProjectId == nextId && nextColumnId == nextId
      ensures nextTaskId == nextId && nextCommentId == nextId
      ensures projectMapping == map[] && columnMapping == map[] && taskMapping == map[]
      ensures taskCreated == 0 && taskSkipped == 0 && commentCreated == 0 && commentSkipped == 0
      ensures ColumnsMapped()
    {
      workspaces, projects, columns, tasks, comments := ws, ps, cs, ts, cms;
      nextWorkspaceId, nextProjectId, nextColumnId, nextTaskId, nextCommentId := nextId, nextId, nextId, nextId, nextId;
      projectMapping, columnMapping, taskMapping := map[], map[], map[];
      taskCreated, taskSkipped, commentCreated, commentSkipped := 0, 0, 0, 0;
    }

    /** Step 0: the workspace with slug kaneo-import, created when there is none. */
    method EnsureWorkspace() returns (id: int)
      modifies this`workspaces, this`nextWorkspaceId
      ensures FindWorkspace(old(workspaces), ImportSlug).Some? ==>
        id == old(workspaces)[FindWorkspace(old(workspaces), ImportSlug).value].id && workspaces == old(workspaces)
      ensures FindWorkspace(old(workspaces), ImportSlug).None? ==>
        id == old(nextWorkspaceId) && workspaces == old(workspaces) + [Workspace(id, ImportName, ImportSlug)]
        && nextWorkspaceId == old(nextWorkspaceId) + 1
    {
      var found := FindWorkspace(workspaces, ImportSlug);
      if found.Some? {
        return workspaces[found.value].id;
      }
      id := nextWorkspaceId;
      workspaces := workspaces + [Workspace(id, ImportName, ImportSlug)];
      nextWorkspaceId := nextWorkspaceId + 1;
    }

    /** The column of the project with this name, inserted when there is none. */
    method EnsureColumn(projectId: int, j: nat) returns (colId: int)
      requires j < |DefaultColumns|
      modifies this`columns, this`nextColumnId
      ensures var c := DefaultColumns[j];
        var found := FindColumn(old(columns), projectId, c.name);
        if found.Some? then colId == old(columns)[found.value].id && columns == old(columns)
        else
          colId == old(nextColumnId) && nextColumnId == old(nextColumnId) + 1
          && columns == old(columns) + [Projects.Column(colId, projectId, c.name, c.position, c.isFinal.GetOr(false), None)]
    {
      var c := DefaultColumns[j];
      var found := FindColumn(columns, projectId, c.name);
      if found.Some? {
        return columns[found.value].id;
      }
      colId := nextColumnId;
      columns := columns + [Projects.Column(colId, projectId, c.name, c.position, c.isFinal.GetOr(false), None)];
      nextColumnId := nextColumnId + 1;
    }

    /**
     * The six columns of a project, each found or inserted, and the map from every status a
     * column lists to that column's id.
     */
    method MapColumns(projectId: int) returns (colMap: map<string, int>)
      modifies this`columns, this`nextColumnId
      ensures colMap.Keys == StatusesUpTo(6)
      ensures |columns| >= |old(columns)| && columns[..|old(columns)|] == old(columns)
    {
      colMap := map[];
      for j := 0 to |DefaultColumns|
        invariant colMap.Keys == StatusesUpTo(j)
        invariant |columns| >= |old(columns)| && columns[..|old(columns)|] == old(columns)
      {
        var colId := EnsureColumn(projectId, j);
        colMap := MapStatuses(colMap, DefaultColumns[j].statuses, colId);
      }
    }

    /**
     * Step 1 for one Kaneo project: the project of the import workspace with its slug is
     * reused, or inserted (the insert fails on a name over 200 characters); then its columns
     * are mapped.
     */
    method MigrateProject(workspaceId: int, p: KaneoProject, now: int) returns (ok: bool)
      requires ColumnsMapped()
      modifies this`projects, this`nextProjectId, this`columns, this`nextColumnId, this`projectMapping, this`columnMapping
      ensures ColumnsMapped()
      ensures !ok ==> |p.name| > 200
      ensures ok ==> projectMapping.Keys == old(projectMapping).Keys + {p.id}
      ensures var found := FindProject(old(projects), workspaceId, Slug.KaneoSlug(p.name));
        (found.Some? ==> ok && projects == old(projects) && projectMapping == old(projectMapping)[p.id := old(projects)[found.value].id])
        && (found.None? && |p.name| > 200 ==> !ok && projects == old(projects) && projectMapping == old(projectMapping))
        && (found.None? && |p.name| <= 200 ==>
              ok && projectMapping == old(projectMapping)[p.id := old(nextProjectId)]
              && projects == old(projects) + [Projects.Project(old(nextProjectId), workspaceId, p.name, Slug.KaneoSlug(p.name),
                   None, None, p.createdAt.GetOr(now), now)])
    {
      var slug := Slug.KaneoSlug(p.name);
      var found := FindProject(projects, workspaceId, slug);
      var projectId: int;
      if found.Some? {
        projectId := projects[found.value].id;
      } else {
        if |p.name| > 200 {
          return false;
        }
        projectId := nextProjectId;
        projects := projects + [Projects.Project(projectId, workspaceId, p.name, slug, None, None, p.createdAt.GetOr(now), now)];
        nextProjectId := nextProjectId + 1;
      }
      projectMapping := projectMapping[p.id := projectId];
      var colMap := MapColumns(projectId);
      columnMapping := columnMapping[projectId := colMap];
      ok := true;
    }

    /** Step 1: every Kaneo project in turn, stopping at the first failed insert. */
    method MigrateProjects(workspaceId: int, ps: seq<KaneoProject>, now: int) returns (ok: bool)
      requires ColumnsMapped()
      modifies this`projects, this`nextProjectId, this`columns, this`nextColumnId, this`projectMapping, this`columnMapping
      ensures ColumnsMapped()
      ensures ok ==> AllMapped(ps, projectMapping)
      ensures !ok ==> exists i :: 0 <= i < |ps| && |ps[i].name| > 200
    {
      ok := true;
      var i := 0;
      while i < |ps|
        invariant 0 <= i <= |ps|
        invariant ColumnsMapped()
        invariant forall k :: 0 <= k < i ==> ps[k].id in projectMapping
        invariant ok
      {
        ghost var before := projectMapping.Keys;
        ok := MigrateProject(workspaceId, ps[i], now);
        if !ok {
          assert |ps[i].name| > 200;
          return;
        }
        MappedSoFar(ps, i, before, projectMapping.Keys);
        i := i + 1;
      }
    }

    /**
     * Step 2 for one Kaneo task: skipped and counted when its project is not mapped; reused
     * and counted as skipped when the project already has a task with its title (any such
     * row, since the query has no order); otherwise inserted in the column of its mapped
     * status, or of backlog when the map lacks that status. The migration itself never adds
     * a second row with the same project and title.
     */
    method MigrateTask(t: KaneoTask, now: int) returns (ok: bool)
      requires ColumnsMapped()
      modifies this`tasks, this`nextTaskId, this`taskMapping, this`taskCreated, this`taskSkipped
      ensures ColumnsMapped()
      ensures TitlesUnique(old(tasks)) ==> TitlesUnique(tasks)
      ensures taskCreated + taskSkipped == old(taskCreated) + old(taskSkipped) + (if ok then 1 else 0)
      ensures taskCreated >= old(taskCreated)
      ensures |tasks| == |old(tasks)| + (taskCreated - old(taskCreated)) && tasks[..|old(tasks)|] == old(tasks)
      ensures var pid := Mapped(projectMapping, t.projectId);
        (pid.None? ==> ok && tasks == old(tasks) && taskMapping == old(taskMapping) && taskSkipped == old(taskSkipped) + 1)
        && (pid.Some? && FindTask(old(tasks), pid.value, t.title).Some? ==>
              ok && tasks == old(tasks) && taskSkipped == old(taskSkipped) + 1
              && exists k :: 0 <= k < |old(tasks)| && TitleMatch(old(tasks)[k], pid.value, t.title)
                   && taskMapping == old(taskMapping)[t.id := old(tasks)[k].id])
        && (pid.Some? && FindTask(old(tasks), pid.value, t.title).None? ==>
              (ok <==> |t.title| <= 500 && McpTasksTool.ParsePriority(t.priority.GetOr("none")).Some?)
              && (ok ==> |tasks| == |old(tasks)| + 1 && nextTaskId == old(nextTaskId) + 1
                         && ColumnFor(columnMapping[pid.value], MapStatus(t.status)) == Some(tasks[|old(tasks)|].columnId)
                         && tasks[|old(tasks)|] == NewTask(old(nextTaskId), pid.value, tasks[|old(tasks)|].columnId, t,
                              MapStatus(t.status), McpTasksTool.ParsePriority(t.priority.GetOr("none")).value, now)
                         && taskMapping == old(taskMapping)[t.id := old(nextTaskId)]))
    {
      var pid := Mapped(projectMapping, t.projectId);
      if pid.None? {
        taskSkipped := taskSkipped + 1;
        return true;
      }
      MappedStatusListed(t.status);
      ok := PlaceTask(t, pid.value, ColumnFor(columnMapping[pid.value], MapStatus(t.status)), now);
    }

    /**
     * A Kaneo task of a mapped project: reused when the project has a task with its title,
     * otherwise inserted in column `colId`, which the insert needs.
     */
    method PlaceTask(t: KaneoTask, pid: int, colId: Option<int>, now: int) returns (ok: bool)
      modifies this`tasks, this`nextTaskId, this`taskMapping, this`taskCreated, this`taskSkipped
      ensures TitlesUnique(old(tasks)) ==> TitlesUnique(tasks)
      ensures taskCreated + taskSkipped == old(taskCreated) + old(taskSkipped) + (if ok then 1 else 0)
      ensures taskCreated >= old(taskCreated)
      ensures |tasks| == |old(tasks)| + (taskCreated - old(taskCreated)) && tasks[..|old(tasks)|] == old(tasks)
      ensures FindTask(old(tasks), pid, t.title).Some? ==>
        ok && tasks == old(tasks) && taskSkipped == old(taskSkipped) + 1
        && exists k :: 0 <= k < |old(tasks)| && TitleMatch(old(tasks)[k], pid, t.title)
             && taskMapping == old(taskMapping)[t.id := old(tasks)[k].id]
      ensures FindTask(old(tasks), pid, t.title).None? ==>
        (ok <==> TaskAccepted(t, colId))
        && (ok ==> nextTaskId == old(nextTaskId) + 1
                   && tasks == old(tasks) + [NewTask(old(nextTaskId), pid, colId.value, t, MapStatus(t.status),
                        McpTasksTool.ParsePriority(t.priority.GetOr("none")).value, now)]
                   && taskMapping == old(taskMapping)[t.id := old(nextTaskId)])
    {
      var found := FindTask(tasks, pid, t.title);
      if found.Some? {
        var k :| 0 <= k < |tasks| && TitleMatch(tasks[k], pid, t.title);
        taskMapping := taskMapping[t.id := tasks[k].id];
        taskSkipped := taskSkipped + 1;
        return true;
      }
      if !TaskAccepted(t, colId) {
        return false;
      }
      var nt := NewTask(nextTaskId, pid, colId.value, t, MapStatus(t.status),
        McpTasksTool.ParsePriority(t.priority.GetOr("none")).value, now);
      InsertTask(t.id, nt);
      ok := true;
    }

    /** The insert of a task row whose project and title no row has, and its mapping entry. */
    method InsertTask(kaneoId: int, nt: Task)
      requires FindTask(tasks, nt.projectId, nt.title).None? && nt.id == nextTaskId
      modifies this`tasks, this`nextTaskId, this`taskMapping, this`taskCreated
      ensures TitlesUnique(old(tasks)) ==> TitlesUnique(tasks)
      ensures tasks == old(tasks) + [nt] && taskMapping == old(taskMapping)[kaneoId := nt.id]
      ensures nextTaskId == old(nextTaskId) + 1 && taskCreated == old(taskCreated) + 1
    {
      if TitlesUnique(tasks) {
        TitlesUniqueSnoc(tasks, nt);
      }
      tasks := tasks + [nt];
      taskMapping := taskMapping[kaneoId := nextTaskId];
      nextTaskId := nextTaskId + 1;
      taskCreated := taskCreated + 1;
    }

    /** Step 2: every Kaneo task in turn, stopping at the first failed insert. */
    method MigrateTasks(ts: seq<KaneoTask>, now: int) returns (ok: bool)
      requires ColumnsMapped()
      modifies this`tasks, this`nextTaskId, this`taskMapping, this`taskCreated, this`taskSkipped
      ensures ColumnsMapped()
      ensures TitlesUnique(old(tasks)) ==> TitlesUnique(tasks)
      ensures ok ==> taskCreated + taskSkipped == old(taskCreated) + old(taskSkipped) + |ts|
      ensures taskCreated >= old(taskCreated)
      ensures |tasks| == |old(tasks)| + (taskCreated - old(taskCreated)) && tasks[..|old(tasks)|] == old(tasks)
    {
      ok := true;
      var i := 0;
      while i < |ts|
        invariant 0 <= i <= |ts|
        invariant ColumnsMapped()
        invariant TitlesUnique(old(tasks)) ==> TitlesUnique(tasks)
        invariant taskCreated + taskSkipped == old(taskCreated) + old(taskSkipped) + i
        invariant taskCreated >= old(taskCreated)
        invariant |tasks| == |old(tasks)| + (taskCreated - old(taskCreated)) && tasks[..|old(tasks)|] == old(tasks)
      {
        ghost var before := tasks;
        ok := MigrateTask(ts[i], now);
        assert tasks[..|old(tasks)|] == before[..|old(tasks)|];
        if !ok {
          return;
        }
        i := i + 1;
      }
    }

    /**
     * Step 3 for one Kaneo comment: skipped and counted when its task is not mapped, otherwise
     * inserted as a system comment with the content, or empty text when there is none.
     */
    method MigrateComment(c: KaneoComment, now: int)
      modifies this`comments, this`nextCommentId, this`commentCreated, this`commentSkipped
      ensures var tid := Mapped(taskMapping, c.taskId);
        (tid.None? ==> comments == old(comments) && commentSkipped == old(commentSkipped) + 1
                       && commentCreated == old(commentCreated))
        && (tid.Some? ==>
              commentCreated == old(commentCreated) + 1 && commentSkipped == old(commentSkipped)
              && comments == old(comments) + [McpTasksTool.Comment(old(nextCommentId), tid.value, MemorySchema.BySystem, None,
                   c.content.GetOr(""), c.createdAt.GetOr(now))])
    {
      var tid := Mapped(taskMapping, c.taskId);
      if tid.None? {
        commentSkipped := commentSkipped + 1;
        return;
      }
      comments := comments + [McpTasksTool.Comment(nextCommentId, tid.value, MemorySchema.BySystem, None,
        c.content.GetOr(""), c.createdAt.GetOr(now))];
      nextCommentId := nextCommentId + 1;
      commentCreated := commentCreated + 1;
    }

    /**
     * Step 3: every comment is either inserted or skipped, and each inserted one is a system
     * comment on a mapped task.
     */
    method MigrateComments(cs: seq<KaneoComment>, now: int)
      modifies this`comments, this`nextCommentId, this`commentCreated, this`commentSkipped
      ensures commentCreated + commentSkipped == old(commentCreated) + old(commentSkipped) + |cs|
      ensures commentCreated >= old(commentCreated)
      ensures |comments| == |old(comments)| + (commentCreated - old(commentCreated))
      ensures comments[..|old(comments)|] == old(comments)
      ensures forall i :: |old(comments)| <= i < |comments| ==>
        comments[i].authorType == MemorySchema.BySystem && comments[i].taskId in taskMapping.Values
    {
      for i := 0 to |cs|
        invariant commentCreated + commentSkipped == old(commentCreated) + old(commentSkipped) + i
        invariant commentCreated >= old(commentCreated)
        invariant |comments| == |old(comments)| + (commentCreated - old(commentCreated))
        invariant comments[..|old(comments)|] == old(comments)
        invariant forall k :: |old(comments)| <= k < |comments| ==>
          comments[k].authorType == MemorySchema.BySystem && comments[k].taskId in taskMapping.Values
      {
        ghost var before := comments;
        MigrateComment(cs[i], now);
        assert forall k :: 0 <= k < |before| ==> comments[k] == before[k];
      }
    }

    /**
     * `main` without a dry run: the workspace, then projects, tasks and comments; a failed
     * insert stops the run.
     */
    method Run(ps: seq<KaneoProject>, ts: seq<KaneoTask>, cs: seq<KaneoComment>, now: int) returns (ok: bool)
      requires ColumnsMapped()
      modifies this
      ensures TitlesUnique(old(tasks)) ==> TitlesUnique(tasks)
      ensures ok ==> AllMapped(ps, projectMapping)
      ensures ok ==> taskCreated + taskSkipped == old(taskCreated) + old(taskSkipped) + |ts|
      ensures taskCreated >= old(taskCreated)
      ensures ok ==> commentCreated + commentSkipped == old(commentCreated) + old(commentSkipped) + |cs|
      ensures |tasks| == |old(tasks)| + (taskCreated - old(taskCreated))
    {
      var workspaceId := EnsureWorkspace();
      ok := MigrateProjects(workspaceId, ps, now);
      if ok {
        ghost var mapped := projectMapping;
        ok := MigrateTasks(ts, now);
        if ok {
          MigrateComments(cs, now);
        }
        assert projectMapping == mapped;
      }
    }
  }
}
